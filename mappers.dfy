// CartMapper: entity-to-DTO projections of carts and their lines.
module CartMapper {
  import opened Common
  import opened Tables
  import opened Store

  datatype CartItemDto = CartItemDto(id: nat, bookId: nat, bookTitle: string, quantity: int)

  datatype ShoppingCartDto = ShoppingCartDto(id: nat, userId: nat, cartItems: seq<CartItemDto>)

  /** Every line's book can be loaded (item.getBook() is never null). */
  ghost predicate BooksLoadable(lines: seq<CartItem>, books: seq<Book>)
  {
    forall k :: 0 <= k < |lines| ==> BookRow(books, lines[k].bookId).Some?
  }

  /** The lines of a consistent cart-item table all refer to books that exist. */
  lemma LinesLoadable(items: seq<CartItem>, books: seq<Book>, nextId: nat, cartId: nat)
    requires CartItemsValid(items, books, nextId)
    ensures BooksLoadable(CartLines(items, cartId), books)
  {
    var lines := CartLines(items, cartId);
    forall k | 0 <= k < |lines| ensures BookRow(books, lines[k].bookId).Some? {
      assert lines[k] in items;
    }
  }

  /** A rearrangement of loadable lines is loadable. */
  lemma LoadableByMultiset(l1: seq<CartItem>, l2: seq<CartItem>, books: seq<Book>)
    requires BooksLoadable(l1, books) && multiset(l1) == multiset(l2)
    ensures BooksLoadable(l2, books)
  {
    forall k | 0 <= k < |l2| ensures BookRow(books, l2[k].bookId).Some? {
      assert l2[k] in multiset(l1);
    }
  }

  /** toDto(CartItem): the line's id and quantity with its book's id and current title. */
  function ItemToDto(item: CartItem, books: seq<Book>): (d: CartItemDto)
    requires BookRow(books, item.bookId).Some?
    ensures d.id == item.id && d.quantity == item.quantity
    ensures d.bookId == item.bookId
    ensures d.bookTitle == BookRow(books, item.bookId).value.title
  {
    var book := BookRow(books, item.bookId).value;
    CartItemDto(item.id, book.id, book.title, item.quantity)
  }

  /** toDto(ShoppingCart): the cart's id, its owner's id and one item DTO per line, in iteration order. */
  function ToDto(cart: ShoppingCart, lines: seq<CartItem>, books: seq<Book>): (d: ShoppingCartDto)
    requires BooksLoadable(lines, books)
    ensures d.id == cart.id && d.userId == cart.userId
    ensures |d.cartItems| == |lines|
    ensures forall k :: 0 <= k < |lines| ==> d.cartItems[k] == ItemToDto(lines[k], books)
  {
    ShoppingCartDto(cart.id, cart.userId,
      seq(|lines|, k requires 0 <= k < |lines| => ItemToDto(lines[k], books)))
  }

  /** The item DTOs of a list of lines, front to back. */
  function LineDtos(lines: seq<CartItem>, books: seq<Book>): (r: seq<CartItemDto>)
    requires BooksLoadable(lines, books)
    ensures |r| == |lines|
    ensures forall k :: 0 <= k < |lines| ==> r[k] == ItemToDto(lines[k], books)
    decreases |lines|
  {
    if |lines| == 0 then [] else [ItemToDto(lines[0], books)] + LineDtos(lines[1..], books)
  }

  lemma {:induction false} LineDtosAppend(a: seq<CartItem>, b: seq<CartItem>, books: seq<Book>)
    requires BooksLoadable(a, books) && BooksLoadable(b, books)
    ensures BooksLoadable(a + b, books)
    ensures LineDtos(a + b, books) == LineDtos(a, books) + LineDtos(b, books)
    decreases |a|
  {
    if |a| > 0 {
      assert (a + b)[1..] == a[1..] + b;
      LineDtosAppend(a[1..], b, books);
    }
  }

  lemma {:induction false} LineDtosPermutation(l1: seq<CartItem>, l2: seq<CartItem>, books: seq<Book>)
    requires BooksLoadable(l1, books) && multiset(l1) == multiset(l2)
    ensures BooksLoadable(l2, books)
    ensures multiset(LineDtos(l1, books)) == multiset(LineDtos(l2, books))
    decreases |l1|
  {
    LoadableByMultiset(l1, l2, books);
    if |l1| > 0 {
      var x := l1[0];
      assert x in multiset(l2);
      var i :| 0 <= i < |l2| && l2[i] == x;
      var p, q := l2[..i], l2[i + 1..];
      assert l2 == p + [x] + q;
      assert BooksLoadable(p, books) && BooksLoadable([x], books) && BooksLoadable(q, books);
      MultisetRemove(l1, l2, i);
      LineDtosPermutation(l1[1..], p + q, books);
      LineDtosAppend(p, q, books);
      LineDtosAppend(p, [x], books);
      LineDtosAppend(p + [x], q, books);
      assert LineDtos([x], books) == [ItemToDto(x, books)];
      MultisetMove(LineDtos(l1, books), ItemToDto(x, books), LineDtos(l1[1..], books),
                   LineDtos(p, books), LineDtos(q, books));
    }
  }

  /** The lines of a cart come from a HashSet: in whatever order they are visited, the cart DTO
      lists the same item DTOs, as often. */
  lemma ToDtoPermutation(cart: ShoppingCart, l1: seq<CartItem>, l2: seq<CartItem>, books: seq<Book>)
    requires BooksLoadable(l1, books) && multiset(l1) == multiset(l2)
    ensures BooksLoadable(l2, books)
    ensures multiset(ToDto(cart, l1, books).cartItems) == multiset(ToDto(cart, l2, books).cartItems)
  {
    LineDtosPermutation(l1, l2, books);
    assert ToDto(cart, l1, books).cartItems == LineDtos(l1, books);
    assert ToDto(cart, l2, books).cartItems == LineDtos(l2, books);
  }

  /** The DTO of a cart lists exactly the ids of its lines, so an empty cart has an empty list. */
  lemma {:induction false} ToDtoIds(cart: ShoppingCart, lines: seq<CartItem>, books: seq<Book>, id: nat)
    requires BooksLoadable(lines, books)
    ensures (exists k :: 0 <= k < |lines| && ToDto(cart, lines, books).cartItems[k].id == id)
        <==> (exists k :: 0 <= k < |lines| && lines[k].id == id)
    ensures lines == [] <==> ToDto(cart, lines, books).cartItems == []
  {
    var d := ToDto(cart, lines, books);
    if exists k :: 0 <= k < |lines| && lines[k].id == id {
      var k :| 0 <= k < |lines| && lines[k].id == id;
      assert d.cartItems[k].id == id;
    }
  }
}

// OrderMapper: entity-to-DTO projections of orders and their items.
module OrderMapper {
  import opened Common
  import opened Store

  datatype OrderItemResponseDto = OrderItemResponseDto(id: nat, bookId: nat, quantity: int)

  datatype OrderResponseDto = OrderResponseDto(
    id: nat,
    userId: nat,
    orderItems: seq<OrderItemResponseDto>,
    orderDate: LocalDateTime,
    total: Cents,
    status: string,
    shippingAddress: string)

  /** toItemDto: id, book id and quantity; the captured price is not part of the DTO. */
  function ToItemDto(item: OrderItem): (d: OrderItemResponseDto)
    ensures d.id == item.id && d.bookId == item.bookId && d.quantity == item.quantity
  {
    OrderItemResponseDto(item.id, item.bookId, item.quantity)
  }

  /** Two items that differ only in price give the same DTO. */
  lemma PriceNotExposed(a: OrderItem, b: OrderItem)
    requires a.(price := b.price) == b
    ensures ToItemDto(a) == ToItemDto(b)
  {
  }

  /** toDto(Order): the order's own fields, its status by name, one item DTO per order item. */
  function ToDto(order: Order, items: seq<OrderItem>): (d: OrderResponseDto)
    ensures d.id == order.id && d.userId == order.userId
    ensures d.orderDate == order.orderDate && d.total == order.total
    ensures d.shippingAddress == order.shippingAddress
    ensures d.status == StatusName(order.status)
    ensures |d.orderItems| == |items|
    ensures forall k :: 0 <= k < |items| ==> d.orderItems[k] == ToItemDto(items[k])
  {
    OrderResponseDto(
      order.id, order.userId,
      seq(|items|, k requires 0 <= k < |items| => ToItemDto(items[k])),
      order.orderDate, order.total, StatusName(order.status), order.shippingAddress)
  }

  /** The status string of a DTO names the order's status back: valueOf(name()) is the identity. */
  lemma StatusRendered(others: set<string>, order: Order, items: seq<OrderItem>)
    requires StatusNamesValid(others)
    requires order.status.Other? ==> order.status.name in others
    ensures StatusValueOf(others, ToDto(order, items).status) == Some(order.status)
  {
    StatusRoundTrip(others, order.status);
  }
}
