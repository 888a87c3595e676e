// CategoryServiceImpl: reads, saves, updates and deletes of the category table,
// and the books listed under a category.
module CategoryService {
  import opened Common
  import opened Tables
  import opened Store

  /** CategoryDto; `id` is absent in a request body. */
  datatype CategoryDto = CategoryDto(id: Option<int>, name: string, description: string)

  /** BookDtoWithoutCategoryIds: the book's own columns, without its categories. */
  datatype BookDtoWithoutCategoryIds = BookDtoWithoutCategoryIds(
    id: nat,
    title: string,
    author: string,
    isbn: string,
    price: Cents,
    description: Option<string>,
    coverImage: Option<string>)

  /** CategoryMapper.toDto. */
  function ToDto(c: Category): (d: CategoryDto)
    ensures d.id == Some(c.id as int) && d.name == c.name && d.description == c.description
  {
    CategoryDto(Some(c.id), c.name, c.description)
  }

  /** findAll: one DTO per stored category, in table order. */
  function FindAll(categories: seq<Category>): (r: seq<CategoryDto>)
    ensures |r| == |categories|
    ensures forall k :: 0 <= k < |r| ==> r[k] == ToDto(categories[k])
  {
    seq(|categories|, k requires 0 <= k < |categories| => ToDto(categories[k]))
  }

  function NotFound(id: int): Error
  {
    PersistenceNotFound("Category not found with id: " + IntString(id))
  }

  /** getById: the stored category with that id, or not-found. */
  function GetById(categories: seq<Category>, id: int): (r: Result<CategoryDto>)
    ensures r.Err? <==> (forall j :: 0 <= j < |categories| ==> categories[j].id != id)
    ensures r.Err? ==> r.error == NotFound(id)
    ensures r.Ok? ==> exists k :: 0 <= k < |categories| && categories[k].id == id && r.value == ToDto(categories[k])
  {
    match FindCategory(categories, id)
    case None => Err(NotFound(id))
    case Some(k) => Ok(ToDto(categories[k]))
  }

  /** The non-deleted books filed under the category, in table order: what
      findAllByCategoryId returns under Book's `@Where(deleted = false)`. */
  function BooksInCategory(books: seq<Book>, id: int): (r: seq<Book>)
    ensures |r| <= |books|
    ensures forall b :: b in r <==> b in books && !b.deleted && id >= 0 && id as nat in b.categoryIds
    decreases |books|
  {
    if |books| == 0 then []
    else
      var rest := BooksInCategory(books[1..], id);
      assert forall b :: b in books <==> b == books[0] || b in books[1..];
      if !books[0].deleted && id >= 0 && id as nat in books[0].categoryIds then [books[0]] + rest else rest
  }

  /** BookMapper.toDtoWithoutCategories. */
  function ToBookDto(b: Book): (d: BookDtoWithoutCategoryIds)
    ensures d.id == b.id && d.title == b.title && d.author == b.author && d.isbn == b.isbn
    ensures d.price == b.price && d.description == b.description && d.coverImage == b.coverImage
  {
    BookDtoWithoutCategoryIds(b.id, b.title, b.author, b.isbn, b.price, b.description, b.coverImage)
  }

  /** getBooksByCategoryId: one DTO per book the repository returns, in its order. */
  function GetBooksByCategoryId(books: seq<Book>, id: int): (r: seq<BookDtoWithoutCategoryIds>)
    ensures |r| == |BooksInCategory(books, id)|
    ensures forall k :: 0 <= k < |r| ==> r[k] == ToBookDto(BooksInCategory(books, id)[k])
  {
    var found := BooksInCategory(books, id);
    seq(|found|, k requires 0 <= k < |found| => ToBookDto(found[k]))
  }

  /** Every listed book is a live book of the category, and every live book of the category
      is listed. */
  lemma BooksOfCategoryExact(books: seq<Book>, id: int, b: Book)
    requires b in books
    ensures ToBookDto(b) in GetBooksByCategoryId(books, id) <== !b.deleted && id >= 0 && id as nat in b.categoryIds
    ensures forall d :: d in GetBooksByCategoryId(books, id) ==>
      exists c :: c in books && !c.deleted && id >= 0 && id as nat in c.categoryIds && d == ToBookDto(c)
  {
    var found := BooksInCategory(books, id);
    var r := GetBooksByCategoryId(books, id);
    if !b.deleted && id >= 0 && id as nat in b.categoryIds {
      var k :| 0 <= k < |found| && found[k] == b;
      assert r[k] == ToBookDto(b);
    }
    forall d | d in r
      ensures exists c :: c in books && !c.deleted && id >= 0 && id as nat in c.categoryIds && d == ToBookDto(c)
    {
      var k :| 0 <= k < |r| && r[k] == d;
      assert found[k] in found;
    }
  }

  /** The category as update leaves it: only name and description change. */
  function Updated(c: Category, dto: CategoryDto): (u: Category)
    ensures u.id == c.id && u.name == dto.name && u.description == dto.description
  {
    c.(name := dto.name, description := dto.description)
  }

  /** A saved category can be read back by its new id. */
  lemma SaveThenGet(categories: seq<Category>, nextId: nat, dto: CategoryDto)
    requires CategoriesValid(categories, nextId)
    ensures GetById(categories + [Category(nextId, dto.name, dto.description)], nextId)
         == Ok(CategoryDto(Some(nextId), dto.name, dto.description))
  {
    var all := categories + [Category(nextId, dto.name, dto.description)];
    assert all[|categories|].id == nextId;
  }

  /** After update, getById returns the new name and description under the same id. */
  lemma UpdateThenGet(categories: seq<Category>, k: nat, dto: CategoryDto)
    requires k < |categories| && CategoryIdsDistinct(categories)
    ensures GetById(categories[k := Updated(categories[k], dto)], categories[k].id)
         == Ok(CategoryDto(Some(categories[k].id), dto.name, dto.description))
  {
    var id := categories[k].id;
    var after := categories[k := Updated(categories[k], dto)];
    assert after[k].id == id;
  }

  /** After deleteById, getById of that id fails with not-found. */
  lemma DeleteThenGet(categories: seq<Category>, k: nat)
    requires k < |categories| && CategoryIdsDistinct(categories)
    ensures GetById(Without(categories, k), categories[k].id) == Err(NotFound(categories[k].id))
  {
    var id := categories[k].id;
    var after := Without(categories, k);
    forall j | 0 <= j < |after| ensures after[j].id != id {
      if j < k {
        assert after[j] == categories[j];
      } else {
        assert after[j] == categories[j + 1];
      }
    }
  }

  /** Deleting a row keeps the category table consistent. */
  lemma DeleteKeepsValid(categories: seq<Category>, nextId: nat, k: nat)
    requires k < |categories| && CategoriesValid(categories, nextId)
    ensures CategoriesValid(Without(categories, k), nextId)
  {
    var after := Without(categories, k);
    forall i, j | 0 <= i < j < |after| ensures after[i].id != after[j].id {
      var i' := if i < k then i else i + 1;
      var j' := if j < k then j else j + 1;
      assert after[i] == categories[i'] && after[j] == categories[j'];
    }
  }

  class CategoryServiceImpl {
    const db: Db

    constructor (db: Db)
      ensures this.db == db
    {
      this.db := db;
    }

    /** save: the request's id is ignored; a new category with the next id is appended. */
    method Save(dto: CategoryDto) returns (d: CategoryDto)
      requires db.Valid()
      modifies db`categories, db`nextId
      ensures db.Valid()
      ensures db.categories == old(db.categories) + [Category(old(db.nextId), dto.name, dto.description)]
      ensures db.nextId == old(db.nextId) + 1
      ensures d == CategoryDto(Some(old(db.nextId)), dto.name, dto.description)
    {
      var categories, id := db.categories, db.nextId;
      var c := Category(id, dto.name, dto.description);
      CounterGrows(db.users, db.roles, db.books, categories, db.carts, db.orders, db.orderItems, id, id + 1);
      CategoryAddedValid(categories, id, c);
      ItemsCounterGrows(db.cartItems, db.books, id, id + 1);
      db.SaveCategories(categories + [c], id + 1);
      d := ToDto(c);
    }

    /** update: a missing id fails with not-found and saves nothing; otherwise only the
        category's name and description are overwritten. */
    method Update(id: int, dto: CategoryDto) returns (r: Result<CategoryDto>)
      requires db.Valid()
      modifies db`categories
      ensures db.Valid()
      ensures FindCategory(old(db.categories), id).None? ==>
        r == Err(NotFound(id)) && db.categories == old(db.categories)
      ensures FindCategory(old(db.categories), id).Some? ==>
        var k := FindCategory(old(db.categories), id).value;
        && db.categories == old(db.categories)[k := Updated(old(db.categories)[k], dto)]
        && r == Ok(CategoryDto(Some(id), dto.name, dto.description))
    {
      var categories := db.categories;
      var found := FindCategory(categories, id);
      if found.None? {
        return Err(NotFound(id));
      }
      var k := found.value;
      var c := Updated(categories[k], dto);
      var after := categories[k := c];
      assert CategoriesValid(after, db.nextId) by {
        forall i, j | 0 <= i < j < |after| ensures after[i].id != after[j].id {
          assert after[i].id == categories[i].id && after[j].id == categories[j].id;
        }
      }
      db.ReplaceCategories(after);
      r := Ok(ToDto(c));
    }

    /** deleteById: the row with that id is removed; an unknown id changes nothing. */
    method DeleteById(id: int)
      requires db.Valid()
      modifies db`categories
      ensures db.Valid()
      ensures FindCategory(old(db.categories), id).None? ==> db.categories == old(db.categories)
      ensures FindCategory(old(db.categories), id).Some? ==>
        db.categories == Without(old(db.categories), FindCategory(old(db.categories), id).value)
      ensures GetById(db.categories, id) == Err(NotFound(id))
    {
      var categories := db.categories;
      var found := FindCategory(categories, id);
      if found.Some? {
        DeleteKeepsValid(categories, db.nextId, found.value);
        DeleteThenGet(categories, found.value);
        db.ReplaceCategories(Without(categories, found.value));
      }
    }
  }
}
