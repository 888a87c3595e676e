// The entities of the bookstore and the in-memory database that stands for
// its repositories: one table per entity, rows carrying their ids, and the
// consistency rules the services rely on and preserve.
module Store {
  import opened Common

  /** A reading of the injected Clock (LocalDateTime.now(clock)). */
  type LocalDateTime = int

  /** A BigDecimal amount of scale 2 (Book.price), in cents. */
  type Cents = int

  datatype RoleName = ROLE_USER | ROLE_ADMIN

  datatype Role = Role(id: nat, name: RoleName)

  datatype User = User(
    id: nat,
    email: string,
    password: string,
    firstName: string,
    lastName: string,
    shippingAddress: Option<string>,
    roles: set<Role>)

  datatype Book = Book(
    id: nat,
    title: string,
    author: string,
    isbn: string,
    price: Cents,
    description: Option<string>,
    coverImage: Option<string>,
    categoryIds: set<nat>,
    deleted: bool)

  datatype Category = Category(id: nat, name: string, description: string)

  /** A cart row; its lines are the CartItem rows that carry its id. */
  datatype ShoppingCart = ShoppingCart(id: nat, userId: nat)

  datatype CartItem = CartItem(id: nat, cartId: nat, bookId: nat, quantity: int)

  /** OrderStatus: PENDING, or one of the enum's other constants, by name. */
  datatype OrderStatus = PENDING | Other(name: string)

  /** An order row; its items are the OrderItem rows that carry its id. */
  datatype Order = Order(
    id: nat,
    userId: nat,
    orderDate: LocalDateTime,
    total: Cents,
    status: OrderStatus,
    shippingAddress: string)

  datatype OrderItem = OrderItem(id: nat, orderId: nat, bookId: nat, quantity: int, price: Cents)

  /** Enum.name() of a status. */
  function StatusName(s: OrderStatus): string
  {
    match s
    case PENDING => "PENDING"
    case Other(n) => n
  }

  /** The names the enum declares besides PENDING are well formed. */
  ghost predicate StatusNamesValid(others: set<string>)
  {
    "PENDING" !in others
  }

  /** Enum.valueOf: the constant with that exact name, if the enum declares one. */
  function StatusValueOf(others: set<string>, name: string): (r: Option<OrderStatus>)
    ensures r.Some? ==> StatusName(r.value) == name
    ensures r.None? <==> name != "PENDING" && name !in others
  {
    if name == "PENDING" then Some(PENDING)
    else if name in others then Some(Other(name))
    else None
  }

  /** Every constant's name leads back to that constant. */
  lemma StatusRoundTrip(others: set<string>, s: OrderStatus)
    requires StatusNamesValid(others)
    requires s.Other? ==> s.name in others
    ensures StatusValueOf(others, StatusName(s)) == Some(s)
  {
  }

  // ---- findById over the sequence-held tables ----

  /** The book row with that id, whatever its deleted flag: what an entity association loads. */
  function BookRow(books: seq<Book>, id: int): (r: Option<Book>)
    ensures r.Some? ==> r.value in books && r.value.id == id
    ensures r.None? <==> forall j :: 0 <= j < |books| ==> books[j].id != id
    decreases |books|
  {
    if |books| == 0 then None
    else if books[0].id == id then Some(books[0])
    else BookRow(books[1..], id)
  }

  /** BookRepository.findById under Book's `@Where(deleted = false)`: soft-deleted rows are invisible. */
  function ActiveBook(books: seq<Book>, id: int): (r: Option<Book>)
    ensures r.Some? ==> r.value in books && r.value.id == id && !r.value.deleted
    ensures r.None? <==> BookRow(books, id).None? || BookRow(books, id).value.deleted
  {
    match BookRow(books, id)
    case Some(b) => if b.deleted then None else Some(b)
    case None => None
  }

  // The four lookups below, and the four filters further down, are the same recursion
  // written once per table: a generic higher-order version costs the verifier far more
  // in every proof that uses it.

  /** The position of the cart item with that id. */
  function FindCartItem(items: seq<CartItem>, id: int): (r: Option<nat>)
    ensures r.Some? ==> r.value < |items| && items[r.value].id == id
    ensures r.None? <==> forall j :: 0 <= j < |items| ==> items[j].id != id
    decreases |items|
  {
    if |items| == 0 then None
    else if items[0].id == id then Some(0)
    else match FindCartItem(items[1..], id)
      case None => None
      case Some(k) => Some(k + 1)
  }

  /** The position of the order with that id. */
  function FindOrder(orders: seq<Order>, id: int): (r: Option<nat>)
    ensures r.Some? ==> r.value < |orders| && orders[r.value].id == id
    ensures r.None? <==> forall j :: 0 <= j < |orders| ==> orders[j].id != id
    decreases |orders|
  {
    if |orders| == 0 then None
    else if orders[0].id == id then Some(0)
    else match FindOrder(orders[1..], id)
      case None => None
      case Some(k) => Some(k + 1)
  }

  /** The position of the order item with that id. */
  function FindOrderItem(items: seq<OrderItem>, id: int): (r: Option<nat>)
    ensures r.Some? ==> r.value < |items| && items[r.value].id == id
    ensures r.None? <==> forall j :: 0 <= j < |items| ==> items[j].id != id
    decreases |items|
  {
    if |items| == 0 then None
    else if items[0].id == id then Some(0)
    else match FindOrderItem(items[1..], id)
      case None => None
      case Some(k) => Some(k + 1)
  }

  /** The position of the category with that id. */
  function FindCategory(categories: seq<Category>, id: int): (r: Option<nat>)
    ensures r.Some? ==> r.value < |categories| && categories[r.value].id == id
    ensures r.None? <==> forall j :: 0 <= j < |categories| ==> categories[j].id != id
    decreases |categories|
  {
    if |categories| == 0 then None
    else if categories[0].id == id then Some(0)
    else match FindCategory(categories[1..], id)
      case None => None
      case Some(k) => Some(k + 1)
  }

  // ---- Primary keys are distinct ----

  ghost predicate BookIdsDistinct(books: seq<Book>)
  {
    forall i, j :: 0 <= i < j < |books| ==> books[i].id != books[j].id
  }

  ghost predicate CategoryIdsDistinct(categories: seq<Category>)
  {
    forall i, j :: 0 <= i < j < |categories| ==> categories[i].id != categories[j].id
  }

  ghost predicate CartItemIdsDistinct(items: seq<CartItem>)
  {
    forall i, j :: 0 <= i < j < |items| ==> items[i].id != items[j].id
  }

  ghost predicate OrderIdsDistinct(orders: seq<Order>)
  {
    forall i, j :: 0 <= i < j < |orders| ==> orders[i].id != orders[j].id
  }

  ghost predicate OrderItemIdsDistinct(items: seq<OrderItem>)
  {
    forall i, j :: 0 <= i < j < |items| ==> items[i].id != items[j].id
  }

  /** Under distinct ids, findById of a stored order finds that very row. */
  lemma FindOrderAt(orders: seq<Order>, k: nat)
    requires OrderIdsDistinct(orders) && k < |orders|
    ensures FindOrder(orders, orders[k].id) == Some(k)
  {
    var r := FindOrder(orders, orders[k].id);
    assert orders[r.value].id == orders[k].id;
  }

  // ---- Derived queries: the rows of one parent, in table order ----

  /** The lines of a cart: its `cartItems` set, in the table's order. */
  function CartLines(items: seq<CartItem>, cartId: nat): (r: seq<CartItem>)
    ensures |r| <= |items|
    ensures forall x :: x in r <==> x in items && x.cartId == cartId
    decreases |items|
  {
    if |items| == 0 then []
    else (if items[0].cartId == cartId then [items[0]] else []) + CartLines(items[1..], cartId)
  }

  /** The cart-item table without the lines of one cart: what clearing that cart leaves. */
  function WithoutCart(items: seq<CartItem>, cartId: nat): (r: seq<CartItem>)
    ensures |r| <= |items|
    ensures forall x :: x in r <==> x in items && x.cartId != cartId
    decreases |items|
  {
    if |items| == 0 then []
    else (if items[0].cartId != cartId then [items[0]] else []) + WithoutCart(items[1..], cartId)
  }

  /** The items of an order: `findAllByOrderId`, in the table's order. */
  function ItemsOfOrder(items: seq<OrderItem>, orderId: nat): (r: seq<OrderItem>)
    ensures |r| <= |items|
    ensures forall x :: x in r <==> x in items && x.orderId == orderId
    decreases |items|
  {
    if |items| == 0 then []
    else (if items[0].orderId == orderId then [items[0]] else []) + ItemsOfOrder(items[1..], orderId)
  }

  /** The orders of a user: `findAllByUserId`, in the table's order. */
  function OrdersOf(orders: seq<Order>, userId: nat): (r: seq<Order>)
    ensures |r| <= |orders|
    ensures forall x :: x in r <==> x in orders && x.userId == userId
    decreases |orders|
  {
    if |orders| == 0 then []
    else (if orders[0].userId == userId then [orders[0]] else []) + OrdersOf(orders[1..], userId)
  }

  /** Filtering distributes over concatenation of tables. */
  lemma {:induction false} CartLinesAppend(a: seq<CartItem>, b: seq<CartItem>, cartId: nat)
    ensures CartLines(a + b, cartId) == CartLines(a, cartId) + CartLines(b, cartId)
    decreases |a|
  {
    if |a| == 0 {
      assert a + b == b;
    } else {
      assert (a + b)[1..] == a[1..] + b;
      CartLinesAppend(a[1..], b, cartId);
    }
  }

  /** A table with no line of the cart gives the cart no lines. */
  lemma {:induction false} CartLinesNone(items: seq<CartItem>, cartId: nat)
    requires forall j :: 0 <= j < |items| ==> items[j].cartId != cartId
    ensures CartLines(items, cartId) == []
    decreases |items|
  {
    if |items| > 0 {
      CartLinesNone(items[1..], cartId);
    }
  }

  /** Rewriting a row of another cart leaves the cart's lines as they were. */
  lemma {:induction false} CartLinesUpdateOutside(items: seq<CartItem>, k: nat, v: CartItem, cartId: nat)
    requires k < |items| && items[k].cartId != cartId && v.cartId != cartId
    ensures CartLines(items[k := v], cartId) == CartLines(items, cartId)
    decreases |items|
  {
    if k > 0 {
      assert items[k := v][1..] == items[1..][k - 1 := v];
      CartLinesUpdateOutside(items[1..], k - 1, v, cartId);
    } else {
      assert items[k := v][1..] == items[1..];
    }
  }

  /** Clearing a cart keeps the lines of every other cart, in order. */
  lemma {:induction false} WithoutCartOthers(items: seq<CartItem>, cartId: nat, otherCart: nat)
    requires otherCart != cartId
    ensures CartLines(WithoutCart(items, cartId), otherCart) == CartLines(items, otherCart)
    decreases |items|
  {
    if |items| > 0 {
      WithoutCartOthers(items[1..], cartId, otherCart);
      var rest := WithoutCart(items[1..], cartId);
      if items[0].cartId != cartId {
        assert WithoutCart(items, cartId) == [items[0]] + rest;
        assert ([items[0]] + rest)[1..] == rest;
      } else {
        assert WithoutCart(items, cartId) == rest;
      }
    }
  }

  lemma {:induction false} ItemsOfOrderAppend(a: seq<OrderItem>, b: seq<OrderItem>, orderId: nat)
    ensures ItemsOfOrder(a + b, orderId) == ItemsOfOrder(a, orderId) + ItemsOfOrder(b, orderId)
    decreases |a|
  {
    if |a| == 0 {
      assert a + b == b;
    } else {
      assert (a + b)[1..] == a[1..] + b;
      ItemsOfOrderAppend(a[1..], b, orderId);
    }
  }

  /** Items all of one order are exactly that order's items; others' items contribute none. */
  lemma {:induction false} ItemsOfOrderAllOrNone(items: seq<OrderItem>, orderId: nat)
    ensures (forall j :: 0 <= j < |items| ==> items[j].orderId == orderId) ==> ItemsOfOrder(items, orderId) == items
    ensures (forall j :: 0 <= j < |items| ==> items[j].orderId != orderId) ==> ItemsOfOrder(items, orderId) == []
    decreases |items|
  {
    if |items| > 0 {
      ItemsOfOrderAllOrNone(items[1..], orderId);
    }
  }

  /** getCurrentUser: the user registered under the authenticated email. */
  function CurrentUser(users: map<string, User>, email: string): (r: Result<User>)
    ensures r.Ok? <==> email in users
    ensures r.Ok? ==> r.value == users[email]
    ensures r.Err? ==> r.error == EntityNotFound("User not found: " + email)
  {
    if email in users then Ok(users[email]) else Err(EntityNotFound("User not found: " + email))
  }

  // ---- Consistency of the tables ----

  /** Users are indexed by their unique email; ids are distinct and already issued. */
  ghost predicate UsersValid(users: map<string, User>, nextId: nat)
  {
    && (forall e :: e in users ==> users[e].email == e && users[e].id < nextId)
    && (forall e, f :: e in users && f in users && e != f ==> users[e].id != users[f].id)
  }

  /** Roles are indexed by their name. */
  ghost predicate RolesValid(roles: map<RoleName, Role>)
  {
    forall n :: n in roles ==> roles[n].name == n
  }

  /** Carts are indexed by their owner (the unique user_id column); cart ids are distinct. */
  ghost predicate CartsValid(carts: map<nat, ShoppingCart>, nextId: nat)
  {
    && (forall u :: u in carts ==> carts[u].userId == u && carts[u].id < nextId)
    && (forall u, v :: u in carts && v in carts && u != v ==> carts[u].id != carts[v].id)
  }

  /** No two lines of one cart are for the same book. */
  ghost predicate OneLinePerBook(items: seq<CartItem>)
  {
    forall i, j :: 0 <= i < j < |items| && items[i].cartId == items[j].cartId ==> items[i].bookId != items[j].bookId
  }

  /** Cart items: distinct issued ids, quantities within 1..Integer.MAX_VALUE, books that exist. */
  ghost predicate CartItemsValid(items: seq<CartItem>, books: seq<Book>, nextId: nat)
  {
    && CartItemIdsDistinct(items)
    && OneLinePerBook(items)
    && (forall j :: 0 <= j < |items| ==>
          && items[j].id < nextId
          && items[j].cartId < nextId
          && 1 <= items[j].quantity <= INT_MAX
          && BookRow(books, items[j].bookId).Some?)
  }

  /** Orders and their items: distinct issued ids; every item belongs to a stored order. */
  ghost predicate OrdersValid(orders: seq<Order>, items: seq<OrderItem>, nextId: nat)
  {
    && OrderIdsDistinct(orders)
    && (forall j :: 0 <= j < |orders| ==> orders[j].id < nextId)
    && OrderItemIdsDistinct(items)
    && (forall j :: 0 <= j < |items| ==> items[j].id < nextId && items[j].orderId < nextId)
    && ItemsOfStoredOrders(orders, items)
  }

  /** Every order item belongs to an order of the table (the order_id foreign key). */
  ghost predicate ItemsOfStoredOrders(orders: seq<Order>, items: seq<OrderItem>)
  {
    forall j :: 0 <= j < |items| ==> exists i :: 0 <= i < |orders| && orders[i].id == items[j].orderId
  }

  ghost predicate CategoriesValid(categories: seq<Category>, nextId: nat)
  {
    && CategoryIdsDistinct(categories)
    && (forall j :: 0 <= j < |categories| ==> categories[j].id < nextId)
  }

  /** The consistency of every table but the cart items. */
  ghost predicate OtherTablesValid(users: map<string, User>, roles: map<RoleName, Role>, books: seq<Book>,
                                   categories: seq<Category>, carts: map<nat, ShoppingCart>,
                                   orders: seq<Order>, orderItems: seq<OrderItem>, nextId: nat)
  {
    && UsersValid(users, nextId)
    && RolesValid(roles)
    && BookIdsDistinct(books)
    && CategoriesValid(categories, nextId)
    && CartsValid(carts, nextId)
    && OrdersValid(orders, orderItems, nextId)
  }

  /** Issuing more ids keeps every table consistent: they only refer to ids already issued. */
  lemma CounterGrows(users: map<string, User>, roles: map<RoleName, Role>, books: seq<Book>,
                     categories: seq<Category>, carts: map<nat, ShoppingCart>,
                     orders: seq<Order>, orderItems: seq<OrderItem>, nextId: nat, later: nat)
    requires OtherTablesValid(users, roles, books, categories, carts, orders, orderItems, nextId)
    requires nextId <= later
    ensures OtherTablesValid(users, roles, books, categories, carts, orders, orderItems, later)
  {
  }

  /** Issuing more ids keeps the cart-item table consistent. */
  lemma ItemsCounterGrows(items: seq<CartItem>, books: seq<Book>, nextId: nat, later: nat)
    requires CartItemsValid(items, books, nextId) && nextId <= later
    ensures CartItemsValid(items, books, later)
  {
  }

  /** A user with an unused email and the next id keeps the user table consistent. */
  lemma UserAddedValid(users: map<string, User>, nextId: nat, user: User)
    requires UsersValid(users, nextId) && user.email !in users && user.id == nextId
    ensures UsersValid(users[user.email := user], nextId + 1)
  {
  }

  /** A category with the next id keeps the category table consistent. */
  lemma CategoryAddedValid(categories: seq<Category>, nextId: nat, category: Category)
    requires CategoriesValid(categories, nextId) && category.id == nextId
    ensures CategoriesValid(categories + [category], nextId + 1)
  {
    var all := categories + [category];
    forall i, j | 0 <= i < j < |all| ensures all[i].id != all[j].id {
      if j < |categories| {
        assert categories[i].id != categories[j].id;
      }
    }
  }

  /** The repositories, as one in-memory database. Ids come from one increasing counter. */
  class Db {
    var users: map<string, User>
    var roles: map<RoleName, Role>
    var books: seq<Book>
    var categories: seq<Category>
    var carts: map<nat, ShoppingCart>
    var cartItems: seq<CartItem>
    var orders: seq<Order>
    var orderItems: seq<OrderItem>
    var nextId: nat

    ghost predicate Valid()
      reads this
    {
      && OtherTablesValid(users, roles, books, categories, carts, orders, orderItems, nextId)
      && CartItemsValid(cartItems, books, nextId)
    }

    /** A save of the user table, with the id counter as the save left it. */
    method SaveUsers(users: map<string, User>, nextId: nat)
      requires OtherTablesValid(users, roles, books, categories, carts, orders, orderItems, nextId)
      requires CartItemsValid(cartItems, books, nextId)
      modifies this`users, this`nextId
      ensures Valid()
      ensures this.users == users && this.nextId == nextId
    {
      this.users := users;
      this.nextId := nextId;
    }

    /** A save of the category table, with the id counter as the saves left it. */
    method SaveCategories(categories: seq<Category>, nextId: nat)
      requires OtherTablesValid(users, roles, books, categories, carts, orders, orderItems, nextId)
      requires CartItemsValid(cartItems, books, nextId)
      modifies this`categories, this`nextId
      ensures Valid()
      ensures this.categories == categories && this.nextId == nextId
    {
      this.categories := categories;
      this.nextId := nextId;
    }

    /** A save or delete of category rows that issues no id. */
    method ReplaceCategories(categories: seq<Category>)
      requires OtherTablesValid(users, roles, books, categories, carts, orders, orderItems, nextId)
      requires CartItemsValid(cartItems, books, nextId)
      modifies this`categories
      ensures Valid()
      ensures this.categories == categories
    {
      this.categories := categories;
    }

    /** A save of the cart-item table, with the id counter as the saves left it. */
    method SaveCartItems(cartItems: seq<CartItem>, nextId: nat)
      requires OtherTablesValid(users, roles, books, categories, carts, orders, orderItems, nextId)
      requires CartItemsValid(cartItems, books, nextId)
      modifies this`cartItems, this`nextId
      ensures Valid()
      ensures this.cartItems == cartItems && this.nextId == nextId
    {
      this.cartItems := cartItems;
      this.nextId := nextId;
    }

    /** The writes of placeOrder's transaction, flushed together when it commits. */
    method CommitOrder(cartItems: seq<CartItem>, orders: seq<Order>, orderItems: seq<OrderItem>, nextId: nat)
      requires OtherTablesValid(users, roles, books, categories, carts, orders, orderItems, nextId)
      requires CartItemsValid(cartItems, books, nextId)
      modifies this`cartItems, this`orders, this`orderItems, this`nextId
      ensures Valid()
      ensures this.cartItems == cartItems && this.orders == orders
      ensures this.orderItems == orderItems && this.nextId == nextId
    {
      this.cartItems := cartItems;
      this.orders := orders;
      this.orderItems := orderItems;
      this.nextId := nextId;
    }

    /** A database seeded with roles and a book catalog, and nothing else. */
    constructor (roles: map<RoleName, Role>, books: seq<Book>)
      requires RolesValid(roles) && BookIdsDistinct(books)
      ensures Valid()
      ensures this.roles == roles && this.books == books
      ensures users == map[] && carts == map[] && categories == []
      ensures cartItems == [] && orders == [] && orderItems == []
    {
      this.roles := roles;
      this.books := books;
      users := map[];
      carts := map[];
      categories := [];
      cartItems := [];
      orders := [];
      orderItems := [];
      nextId := 1;
    }
  }
}
