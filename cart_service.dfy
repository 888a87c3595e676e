// ShoppingCartServiceImpl: the current user's cart, created on first access,
// and its lines, merged per book on add, updated and removed by line id.
module ShoppingCartService {
  import opened Common
  import opened Tables
  import opened Store
  import opened CartMapper

  /** AddToCartRequestDto: `bookId` and a quantity validated with @Min(1). */
  datatype AddToCartRequest = AddToCartRequest(bookId: int, quantity: int)

  /** UpdateCartItemRequestDto: a quantity validated with @Min(1). */
  datatype UpdateCartItemRequest = UpdateCartItemRequest(quantity: int)

  /** The cart getOrCreateCart yields for a user: the stored one, or a new one with the next id. */
  function CartFor(carts: map<nat, ShoppingCart>, nextId: nat, userId: nat): (c: ShoppingCart)
    ensures userId in carts ==> c == carts[userId]
    ensures userId !in carts ==> c == ShoppingCart(nextId, userId)
  {
    if userId in carts then carts[userId] else ShoppingCart(nextId, userId)
  }

  /** The line of cart `cartId` for book `bookId`, if the cart has one. */
  function FindLine(items: seq<CartItem>, cartId: nat, bookId: nat): (r: Option<nat>)
    ensures r.Some? ==> r.value < |items| && items[r.value].cartId == cartId && items[r.value].bookId == bookId
    ensures r.None? <==> forall j :: 0 <= j < |items| ==> !(items[j].cartId == cartId && items[j].bookId == bookId)
    decreases |items|
  {
    if |items| == 0 then None
    else if items[0].cartId == cartId && items[0].bookId == bookId then Some(0)
    else match FindLine(items[1..], cartId, bookId)
      case None => None
      case Some(k) => Some(k + 1)
  }

  /** The cart-item table after adding `quantity` of a book to a cart: the cart's line for that
      book grows by `quantity`, or a new line with id `freshId` is appended. */
  function AddLine(items: seq<CartItem>, cartId: nat, bookId: nat, quantity: int, freshId: nat): (r: seq<CartItem>)
    ensures |r| == |items| + (if FindLine(items, cartId, bookId).Some? then 0 else 1)
    ensures var at := AddedAt(items, cartId, bookId);
      && at < |r| && r[at].cartId == cartId && r[at].bookId == bookId
      && r[at].quantity == (if at < |items| then items[at].quantity else 0) + quantity
      && (at == |items| ==> r[at].id == freshId)
      && (forall j :: 0 <= j < |items| && j != at ==> r[j] == items[j])
  {
    match FindLine(items, cartId, bookId)
    case Some(k) => items[k := items[k].(quantity := items[k].quantity + quantity)]
    case None => items + [CartItem(freshId, cartId, bookId, quantity)]
  }

  /** Where the added line sits in the table afterwards. */
  function AddedAt(items: seq<CartItem>, cartId: nat, bookId: nat): nat
  {
    match FindLine(items, cartId, bookId)
    case Some(k) => k
    case None => |items|
  }

  /** A book already in the cart: the table keeps its size, that line's quantity grows by
      `quantity`, and every other row is as it was. */
  lemma AddLineMerges(items: seq<CartItem>, cartId: nat, bookId: nat, quantity: int, freshId: nat, k: nat)
    requires k < |items| && items[k].cartId == cartId && items[k].bookId == bookId
    requires OneLinePerBook(items)
    ensures var after := AddLine(items, cartId, bookId, quantity, freshId);
      && |after| == |items|
      && AddedAt(items, cartId, bookId) == k
      && after[k] == items[k].(quantity := items[k].quantity + quantity)
      && (forall j :: 0 <= j < |items| && j != k ==> after[j] == items[j])
  {
  }

  /** A book not yet in the cart: the cart gains exactly one line, with that book and quantity,
      after its existing ones; the lines of every other cart are untouched. */
  lemma {:induction false} AddLineAppends(items: seq<CartItem>, cartId: nat, bookId: nat, quantity: int, freshId: nat, otherCart: nat)
    requires FindLine(items, cartId, bookId).None?
    requires otherCart != cartId
    ensures var after := AddLine(items, cartId, bookId, quantity, freshId);
      && CartLines(after, cartId) == CartLines(items, cartId) + [CartItem(freshId, cartId, bookId, quantity)]
      && CartLines(after, otherCart) == CartLines(items, otherCart)
  {
    var line := CartItem(freshId, cartId, bookId, quantity);
    assert AddLine(items, cartId, bookId, quantity, freshId) == items + [line];
    CartLinesAppend(items, [line], cartId);
    CartLinesAppend(items, [line], otherCart);
    assert [line][1..] == [];
  }

  /** Adding to one cart leaves the lines of every other cart as they were. */
  lemma AddLineOtherCarts(items: seq<CartItem>, cartId: nat, bookId: nat, quantity: int, freshId: nat, otherCart: nat)
    requires otherCart != cartId
    ensures CartLines(AddLine(items, cartId, bookId, quantity, freshId), otherCart) == CartLines(items, otherCart)
  {
    match FindLine(items, cartId, bookId)
    case None =>
      AddLineAppends(items, cartId, bookId, quantity, freshId, otherCart);
    case Some(k) =>
      CartLinesUpdateOutside(items, k, items[k].(quantity := items[k].quantity + quantity), otherCart);
  }

  /** Raising the quantity of a line, within the int range, keeps the table consistent. */
  lemma MergeKeepsValid(items: seq<CartItem>, books: seq<Book>, nextId: nat, k: nat, quantity: int)
    requires CartItemsValid(items, books, nextId) && k < |items|
    requires 1 <= quantity && items[k].quantity + quantity <= INT_MAX
    ensures CartItemsValid(items[k := items[k].(quantity := items[k].quantity + quantity)], books, nextId)
  {
  }

  /** Setting the quantity of a line, within 1..Integer.MAX_VALUE, keeps the table consistent. */
  lemma SetQuantityKeepsValid(items: seq<CartItem>, books: seq<Book>, nextId: nat, k: nat, quantity: int)
    requires CartItemsValid(items, books, nextId) && k < |items|
    requires 1 <= quantity <= INT_MAX
    ensures CartItemsValid(items[k := items[k].(quantity := quantity)], books, nextId)
  {
  }

  /** A new line with a fresh id, for a book of the catalog not yet in its cart, keeps the table consistent. */
  lemma AppendKeepsValid(items: seq<CartItem>, books: seq<Book>, nextId: nat, line: CartItem)
    requires CartItemsValid(items, books, nextId)
    requires line.id == nextId && line.cartId < nextId + 1
    requires 1 <= line.quantity <= INT_MAX && BookRow(books, line.bookId).Some?
    requires forall j :: 0 <= j < |items| ==> !(items[j].cartId == line.cartId && items[j].bookId == line.bookId)
    ensures CartItemsValid(items + [line], books, nextId + 1)
  {
    var after := items + [line];
    forall i, j | 0 <= i < j < |after| ensures after[i].id != after[j].id {
      if j < |items| {
        assert items[i].id != items[j].id;
      }
    }
  }

  /** Deleting a line keeps the table consistent and leaves no line with its id. */
  lemma RemoveKeepsValid(items: seq<CartItem>, books: seq<Book>, nextId: nat, k: nat)
    requires CartItemsValid(items, books, nextId) && k < |items|
    ensures CartItemsValid(Without(items, k), books, nextId)
    ensures forall j :: 0 <= j < |Without(items, k)| ==> Without(items, k)[j].id != items[k].id
  {
    var r := Without(items, k);
    forall i, j | 0 <= i < j < |r| ensures r[i].id != r[j].id && (r[i].cartId == r[j].cartId ==> r[i].bookId != r[j].bookId) {
      var i' := if i < k then i else i + 1;
      var j' := if j < k then j else j + 1;
      assert r[i] == items[i'] && r[j] == items[j'];
    }
    forall j | 0 <= j < |r| ensures r[j].id != items[k].id {
      var j' := if j < k then j else j + 1;
      assert r[j] == items[j'];
    }
  }

  /** Adding `quantity` to the cart's line for the book, if it has one, stays within Integer.MAX_VALUE. */
  ghost predicate Fits(items: seq<CartItem>, cartId: nat, bookId: int, quantity: int)
  {
    forall j :: 0 <= j < |items| && items[j].cartId == cartId && items[j].bookId == bookId ==>
      items[j].quantity + quantity <= INT_MAX
  }

  /** A cart about to be created has no lines, so any quantity fits. */
  lemma NewCartFits(items: seq<CartItem>, books: seq<Book>, nextId: nat, bookId: int, quantity: int)
    requires CartItemsValid(items, books, nextId)
    ensures Fits(items, nextId, bookId, quantity)
  {
  }

  /** The service: the Spring bean, whose collaborators are the repositories of `db`. */
  class ShoppingCartServiceImpl {
    const db: Db

    constructor (db: Db)
      ensures this.db == db
    {
      this.db := db;
    }

    /** getOrCreateCart: the user's stored cart, or exactly one new empty cart saved for that user. */
    method GetOrCreateCart(user: User) returns (cart: ShoppingCart)
      requires db.Valid()
      modifies db`carts, db`nextId
      ensures db.Valid()
      ensures cart == CartFor(old(db.carts), old(db.nextId), user.id)
      ensures db.carts == old(db.carts)[user.id := cart]
      ensures user.id in old(db.carts) ==> db.carts == old(db.carts) && db.nextId == old(db.nextId)
      ensures user.id !in old(db.carts) ==> db.nextId == old(db.nextId) + 1 && CartLines(db.cartItems, cart.id) == []
    {
      if user.id in db.carts {
        cart := db.carts[user.id];
        assert db.carts == db.carts[user.id := cart];
      } else {
        cart := ShoppingCart(db.nextId, user.id);
        CartLinesNone(db.cartItems, cart.id);
        db.carts := db.carts[user.id := cart];
        db.nextId := db.nextId + 1;
      }
    }

    /** getCartForCurrentUser: the DTO of the current user's cart (created if absent). */
    method GetCartForCurrentUser(email: string) returns (r: Result<ShoppingCartDto>)
      requires db.Valid()
      modifies db`carts, db`nextId
      ensures db.Valid()
      ensures email !in old(db.users) ==> r == Err(EntityNotFound("User not found: " + email)) && unchanged(db)
      ensures email in old(db.users) ==>
        var cart := CartFor(old(db.carts), old(db.nextId), old(db.users)[email].id);
        && db.carts == old(db.carts)[cart.userId := cart]
        && db.nextId == old(db.nextId) + (if cart.userId in old(db.carts) then 0 else 1)
        && BooksLoadable(CartLines(db.cartItems, cart.id), db.books)
        && r == Ok(CartMapper.ToDto(cart, CartLines(db.cartItems, cart.id), db.books))
    {
      var current := CurrentUser(db.users, email);
      if current.Err? {
        return Err(current.error);
      }
      var cart := GetOrCreateCart(current.value);
      LinesLoadable(db.cartItems, db.books, db.nextId, cart.id);
      r := Ok(CartMapper.ToDto(cart, CartLines(db.cartItems, cart.id), db.books));
    }

    /** The merged quantity still fits in a Java int. */
    ghost predicate QuantityFits(email: string, request: AddToCartRequest)
      reads db
    {
      email in db.users && db.users[email].id in db.carts ==>
        Fits(db.cartItems, db.carts[db.users[email].id].id, request.bookId, request.quantity)
    }

    /** addToCart: merge the requested quantity into the cart's line for the book, or add a line. */
    method AddToCart(email: string, request: AddToCartRequest) returns (r: Result<CartItemDto>)
      requires db.Valid()
      requires 1 <= request.quantity <= INT_MAX
      requires QuantityFits(email, request)
      modifies db`carts, db`cartItems, db`nextId
      ensures db.Valid()
      ensures email !in old(db.users) ==> r == Err(EntityNotFound("User not found: " + email)) && unchanged(db)
      ensures email in old(db.users) && ActiveBook(db.books, request.bookId).None? ==>
        r == Err(EntityNotFound("Book not found: " + IntString(request.bookId))) && unchanged(db)
      ensures email in old(db.users) && ActiveBook(db.books, request.bookId).Some? ==>
        Added(old(db.carts), old(db.cartItems), old(db.nextId), old(db.users)[email].id,
              ActiveBook(db.books, request.bookId).value.id, request.quantity, r)
    {
      var current := CurrentUser(db.users, email);
      if current.Err? {
        return Err(current.error);
      }
      var found := ActiveBook(db.books, request.bookId);
      if found.None? {
        return Err(EntityNotFound("Book not found: " + IntString(request.bookId)));
      }
      NewCartFits(db.cartItems, db.books, db.nextId, found.value.id, request.quantity);
      r := AddBook(current.value, found.value, request.quantity);
    }

    /** What addToCart leaves behind for the user `userId` and a book of the catalog: the user's
        cart (created if absent) holds `quantity` more of the book, merged into its line for that
        book or in a new line, and the result is the DTO of that line. */
    ghost predicate Added(carts: map<nat, ShoppingCart>, cartItems: seq<CartItem>, nextId: nat,
                          userId: nat, bookId: nat, quantity: int, r: Result<CartItemDto>)
      reads db
    {
      var cart := CartFor(carts, nextId, userId);
      var freshId := if userId in carts then nextId else nextId + 1;
      var at := AddedAt(cartItems, cart.id, bookId);
      && db.carts == carts[userId := cart]
      && db.cartItems == AddLine(cartItems, cart.id, bookId, quantity, freshId)
      && db.nextId == freshId + (if FindLine(cartItems, cart.id, bookId).Some? then 0 else 1)
      && at < |db.cartItems|
      && db.cartItems[at].bookId == bookId
      && BookRow(db.books, bookId).Some?
      && r == Ok(ItemToDto(db.cartItems[at], db.books))
    }

    /** addToCart once the user and the book are found. */
    method AddBook(user: User, book: Book, quantity: int) returns (r: Result<CartItemDto>)
      requires db.Valid() && book in db.books
      requires 1 <= quantity <= INT_MAX
      requires Fits(db.cartItems, CartFor(db.carts, db.nextId, user.id).id, book.id, quantity)
      modifies db`carts, db`cartItems, db`nextId
      ensures db.Valid()
      ensures Added(old(db.carts), old(db.cartItems), old(db.nextId), user.id, book.id, quantity, r)
    {
      var cart := GetOrCreateCart(user);
      var line := PutLine(cart.id, book.id, quantity);
      r := Ok(ItemToDto(line, db.books));
    }

    /** The merge-or-append step of addToCart, for a cart and a book of the catalog. */
    method PutLine(cartId: nat, bookId: nat, quantity: int) returns (line: CartItem)
      requires db.Valid() && cartId < db.nextId && BookRow(db.books, bookId).Some?
      requires 1 <= quantity <= INT_MAX
      requires Fits(db.cartItems, cartId, bookId, quantity)
      modifies db`cartItems, db`nextId
      ensures db.Valid()
      ensures db.cartItems == AddLine(old(db.cartItems), cartId, bookId, quantity, old(db.nextId))
      ensures db.nextId == old(db.nextId) + (if FindLine(old(db.cartItems), cartId, bookId).Some? then 0 else 1)
      ensures AddedAt(old(db.cartItems), cartId, bookId) < |db.cartItems|
      ensures line == db.cartItems[AddedAt(old(db.cartItems), cartId, bookId)]
    {
      var existing := FindLine(db.cartItems, cartId, bookId);
      if existing.Some? {
        line := MergeLine(existing.value, quantity);
      } else {
        line := AppendLine(cartId, bookId, quantity);
      }
    }

    /** The merge branch: the line at `k` grows by `quantity`. */
    method MergeLine(k: nat, quantity: int) returns (line: CartItem)
      requires db.Valid() && k < |db.cartItems|
      requires 1 <= quantity && db.cartItems[k].quantity + quantity <= INT_MAX
      modifies db`cartItems
      ensures db.Valid()
      ensures line == old(db.cartItems)[k].(quantity := old(db.cartItems)[k].quantity + quantity)
      ensures db.cartItems == old(db.cartItems)[k := line]
    {
      MergeKeepsValid(db.cartItems, db.books, db.nextId, k, quantity);
      line := db.cartItems[k].(quantity := db.cartItems[k].quantity + quantity);
      db.cartItems := db.cartItems[k := line];
    }

    /** The append branch: a new line with the next id. */
    method AppendLine(cartId: nat, bookId: nat, quantity: int) returns (line: CartItem)
      requires db.Valid() && cartId < db.nextId && BookRow(db.books, bookId).Some?
      requires 1 <= quantity <= INT_MAX
      requires FindLine(db.cartItems, cartId, bookId).None?
      modifies db`cartItems, db`nextId
      ensures db.Valid()
      ensures line == CartItem(old(db.nextId), cartId, bookId, quantity)
      ensures db.cartItems == old(db.cartItems) + [line] && db.nextId == old(db.nextId) + 1
    {
      line := CartItem(db.nextId, cartId, bookId, quantity);
      AppendKeepsValid(db.cartItems, db.books, db.nextId, line);
      CounterGrows(db.users, db.roles, db.books, db.categories, db.carts, db.orders, db.orderItems, db.nextId, db.nextId + 1);
      db.SaveCartItems(db.cartItems + [line], db.nextId + 1);
    }

    /** updateCartItem: set the quantity of the line with that id, in whatever cart it is. */
    method UpdateCartItem(cartItemId: int, request: UpdateCartItemRequest) returns (r: Result<CartItemDto>)
      requires db.Valid()
      requires 1 <= request.quantity <= INT_MAX
      modifies db`cartItems
      ensures db.Valid()
      ensures FindCartItem(old(db.cartItems), cartItemId).None? ==>
        r == Err(EntityNotFound("CartItem not found: " + IntString(cartItemId))) && db.cartItems == old(db.cartItems)
      ensures FindCartItem(old(db.cartItems), cartItemId).Some? ==>
        var k := FindCartItem(old(db.cartItems), cartItemId).value;
        && db.cartItems == old(db.cartItems)[k := old(db.cartItems)[k].(quantity := request.quantity)]
        && r == Ok(ItemToDto(db.cartItems[k], db.books))
    {
      var found := FindCartItem(db.cartItems, cartItemId);
      if found.None? {
        return Err(EntityNotFound("CartItem not found: " + IntString(cartItemId)));
      }
      var k := found.value;
      SetQuantityKeepsValid(db.cartItems, db.books, db.nextId, k, request.quantity);
      var line := db.cartItems[k].(quantity := request.quantity);
      db.cartItems := db.cartItems[k := line];
      r := Ok(ItemToDto(line, db.books));
    }

    /** removeCartItem: delete the line with that id, in whatever cart it is. */
    method RemoveCartItem(cartItemId: int) returns (r: Result<()>)
      requires db.Valid()
      modifies db`cartItems
      ensures db.Valid()
      ensures FindCartItem(old(db.cartItems), cartItemId).None? ==>
        r == Err(EntityNotFound("CartItem not found: " + IntString(cartItemId))) && db.cartItems == old(db.cartItems)
      ensures FindCartItem(old(db.cartItems), cartItemId).Some? ==>
        var k := FindCartItem(old(db.cartItems), cartItemId).value;
        && r == Ok(())
        && db.cartItems == Without(old(db.cartItems), k)
        && FindCartItem(db.cartItems, cartItemId).None?
    {
      var found := FindCartItem(db.cartItems, cartItemId);
      if found.None? {
        return Err(EntityNotFound("CartItem not found: " + IntString(cartItemId)));
      }
      var k := found.value;
      RemoveKeepsValid(db.cartItems, db.books, db.nextId, k);
      db.cartItems := Without(db.cartItems, k);
      r := Ok(());
    }
  }
}
