// OrderServiceImpl: turning the current user's cart into an order, the
// read-only order queries, and the status update.
module OrderService {
  import opened Common
  import opened Tables
  import opened Store
  import opened CartMapper
  import opened OrderMapper

  /** OrderRequestDto: the shipping address, validated with @NotBlank. */
  datatype OrderRequest = OrderRequest(shippingAddress: string)

  // ---- Snapshot of a cart into order items ----

  /** The order item placeOrder builds from a cart line: same book and quantity, the book's current price. */
  function OrderItemOf(line: CartItem, books: seq<Book>, orderId: nat, id: nat): (oi: OrderItem)
    requires BookRow(books, line.bookId).Some?
    ensures oi.id == id && oi.orderId == orderId
    ensures oi.bookId == line.bookId && oi.quantity == line.quantity
    ensures oi.price == BookRow(books, line.bookId).value.price
  {
    OrderItem(id, orderId, line.bookId, line.quantity, BookRow(books, line.bookId).value.price)
  }

  /** The order items after the forEach over the lines, the k-th with id `firstId + k`. */
  function Snapshot(lines: seq<CartItem>, books: seq<Book>, orderId: nat, firstId: nat): (r: seq<OrderItem>)
    requires BooksLoadable(lines, books)
    ensures |r| == |lines|
    ensures forall k :: 0 <= k < |lines| ==> r[k] == OrderItemOf(lines[k], books, orderId, firstId + k)
    decreases |lines|
  {
    if |lines| == 0 then []
    else (Snapshot(lines[..|lines| - 1], books, orderId, firstId)
          + [OrderItemOf(lines[|lines| - 1], books, orderId, firstId + |lines| - 1)])
  }

  /** price × quantity of one order item. */
  function Subtotal(item: OrderItem): Cents
  {
    item.price * item.quantity
  }

  /** The stream reduce over the order items: BigDecimal.ZERO plus each price × quantity, left to right. */
  function Total(items: seq<OrderItem>): (t: Cents)
    ensures (forall k :: 0 <= k < |items| ==> items[k].price >= 0 && items[k].quantity >= 0) ==> t >= 0
    decreases |items|
  {
    if |items| == 0 then 0 else Total(items[..|items| - 1]) + Subtotal(items[|items| - 1])
  }

  /** A cart line's book's current price × the line's quantity. */
  function LineSubtotal(line: CartItem, books: seq<Book>): Cents
    requires BookRow(books, line.bookId).Some?
  {
    BookRow(books, line.bookId).value.price * line.quantity
  }

  /** Σ price × quantity over cart lines, each at its book's current price: the reference total. */
  function LinesTotal(lines: seq<CartItem>, books: seq<Book>): Cents
    requires BooksLoadable(lines, books)
    decreases |lines|
  {
    if |lines| == 0 then 0 else LineSubtotal(lines[0], books) + LinesTotal(lines[1..], books)
  }

  lemma {:induction false} TotalAppend(a: seq<OrderItem>, b: seq<OrderItem>)
    ensures Total(a + b) == Total(a) + Total(b)
    decreases |b|
  {
    if |b| == 0 {
      assert a + b == a;
    } else {
      assert (a + b)[..|a + b| - 1] == a + b[..|b| - 1];
      TotalAppend(a, b[..|b| - 1]);
    }
  }

  lemma {:induction false} LinesTotalAppend(a: seq<CartItem>, b: seq<CartItem>, books: seq<Book>)
    requires BooksLoadable(a, books) && BooksLoadable(b, books)
    ensures BooksLoadable(a + b, books)
    ensures LinesTotal(a + b, books) == LinesTotal(a, books) + LinesTotal(b, books)
    decreases |a|
  {
    if |a| == 0 {
      assert a + b == b;
    } else {
      assert (a + b)[1..] == a[1..] + b;
      LinesTotalAppend(a[1..], b, books);
    }
  }

  lemma LinesTotalSingle(line: CartItem, books: seq<Book>)
    requires BookRow(books, line.bookId).Some?
    ensures BooksLoadable([line], books) && LinesTotal([line], books) == LineSubtotal(line, books)
  {
    assert [line][1..] == [];
  }

  /** The order's total is Σ price × quantity over the cart's lines. */
  lemma {:induction false} SnapshotTotal(lines: seq<CartItem>, books: seq<Book>, orderId: nat, firstId: nat)
    requires BooksLoadable(lines, books)
    ensures Total(Snapshot(lines, books, orderId, firstId)) == LinesTotal(lines, books)
    decreases |lines|
  {
    if |lines| > 0 {
      var init := lines[..|lines| - 1];
      var last := lines[|lines| - 1];
      var s := Snapshot(lines, books, orderId, firstId);
      var si := Snapshot(init, books, orderId, firstId);
      var item := OrderItemOf(last, books, orderId, firstId + |lines| - 1);
      assert s == si + [item];
      assert s[..|s| - 1] == si;
      assert Total(s) == Total(si) + Subtotal(item);
      assert Subtotal(item) == LineSubtotal(last, books);
      SnapshotTotal(init, books, orderId, firstId);
      assert lines == init + [last];
      LinesTotalSingle(last, books);
      LinesTotalAppend(init, [last], books);
    }
  }

  /** An empty cart gives an order of total 0. */
  lemma EmptyCartTotal(books: seq<Book>, orderId: nat, firstId: nat)
    ensures Snapshot([], books, orderId, firstId) == [] && Total([]) == 0
  {
  }

  /** Taking one line out of the sum. */
  lemma LinesTotalRemove(l: seq<CartItem>, i: nat, books: seq<Book>)
    requires BooksLoadable(l, books) && i < |l|
    ensures BooksLoadable(l[..i] + l[i + 1..], books)
    ensures LinesTotal(l, books) == LinesTotal(l[..i] + l[i + 1..], books) + LineSubtotal(l[i], books)
  {
    assert BooksLoadable(l[..i], books);
    assert BooksLoadable(l[i + 1..], books);
    assert l == (l[..i] + [l[i]]) + l[i + 1..];
    LinesTotalSingle(l[i], books);
    LinesTotalAppend(l[..i], [l[i]], books);
    LinesTotalAppend(l[..i] + [l[i]], l[i + 1..], books);
    LinesTotalAppend(l[..i], l[i + 1..], books);
  }

  /** The lines of a cart come from a HashSet: whatever order they are visited in, the total is the same. */
  lemma {:induction false} LinesTotalPermutation(l1: seq<CartItem>, l2: seq<CartItem>, books: seq<Book>)
    requires BooksLoadable(l1, books)
    requires multiset(l1) == multiset(l2)
    ensures BooksLoadable(l2, books)
    ensures LinesTotal(l1, books) == LinesTotal(l2, books)
    decreases |l1|
  {
    LoadableByMultiset(l1, l2, books);
    if |l1| > 0 {
      assert l1[0] in multiset(l2);
      var i :| 0 <= i < |l2| && l2[i] == l1[0];
      MultisetRemove(l1, l2, i);
      LinesTotalPermutation(l1[1..], l2[..i] + l2[i + 1..], books);
      LinesTotalRemove(l2, i, books);
    }
  }

  /** The items a list of lines snapshots into, without their generated ids. */
  function Unnumbered(lines: seq<CartItem>, books: seq<Book>, orderId: nat): (r: seq<OrderItem>)
    requires BooksLoadable(lines, books)
    ensures |r| == |lines|
    ensures forall k :: 0 <= k < |lines| ==> r[k] == OrderItemOf(lines[k], books, orderId, 0)
    decreases |lines|
  {
    if |lines| == 0 then []
    else [OrderItemOf(lines[0], books, orderId, 0)] + Unnumbered(lines[1..], books, orderId)
  }

  lemma {:induction false} UnnumberedAppend(a: seq<CartItem>, b: seq<CartItem>, books: seq<Book>, orderId: nat)
    requires BooksLoadable(a, books) && BooksLoadable(b, books)
    ensures BooksLoadable(a + b, books)
    ensures Unnumbered(a + b, books, orderId) == Unnumbered(a, books, orderId) + Unnumbered(b, books, orderId)
    decreases |a|
  {
    if |a| > 0 {
      assert (a + b)[1..] == a[1..] + b;
      UnnumberedAppend(a[1..], b, books, orderId);
    }
  }

  /** Taking a line out of the middle of a list of lines. */
  lemma UnnumberedSplit(p: seq<CartItem>, x: CartItem, q: seq<CartItem>, books: seq<Book>, orderId: nat)
    requires BooksLoadable(p + [x] + q, books)
    ensures BooksLoadable(p, books) && BooksLoadable(q, books) && BooksLoadable(p + q, books)
    ensures BookRow(books, x.bookId).Some?
    ensures Unnumbered(p + [x] + q, books, orderId)
         == Unnumbered(p, books, orderId) + [OrderItemOf(x, books, orderId, 0)] + Unnumbered(q, books, orderId)
    ensures Unnumbered(p + q, books, orderId) == Unnumbered(p, books, orderId) + Unnumbered(q, books, orderId)
  {
    var l := p + [x] + q;
    assert BooksLoadable(p, books) by {
      forall k | 0 <= k < |p| ensures BookRow(books, p[k].bookId).Some? { assert p[k] == l[k]; }
    }
    assert BooksLoadable(q, books) by {
      forall k | 0 <= k < |q| ensures BookRow(books, q[k].bookId).Some? { assert q[k] == l[|p| + 1 + k]; }
    }
    assert l[|p|] == x;
    assert Unnumbered([x], books, orderId) == [OrderItemOf(x, books, orderId, 0)];
    UnnumberedAppend(p, q, books, orderId);
    UnnumberedAppend(p, [x], books, orderId);
    UnnumberedAppend(p + [x], q, books, orderId);
  }

  /** Whatever order the lines are visited in, the same items are built. */
  lemma {:induction false} UnnumberedPermutation(l1: seq<CartItem>, l2: seq<CartItem>, books: seq<Book>, orderId: nat)
    requires BooksLoadable(l1, books)
    requires multiset(l1) == multiset(l2)
    ensures BooksLoadable(l2, books)
    ensures multiset(Unnumbered(l1, books, orderId)) == multiset(Unnumbered(l2, books, orderId))
    decreases |l1|
  {
    LoadableByMultiset(l1, l2, books);
    if |l1| > 0 {
      var x := l1[0];
      assert x in multiset(l2);
      var i :| 0 <= i < |l2| && l2[i] == x;
      var p, q := l2[..i], l2[i + 1..];
      assert l2 == p + [x] + q;
      MultisetRemove(l1, l2, i);
      UnnumberedSplit(p, x, q, books, orderId);
      UnnumberedPermutation(l1[1..], p + q, books, orderId);
      MultisetMove(Unnumbered(l1, books, orderId), OrderItemOf(x, books, orderId, 0), Unnumbered(l1[1..], books, orderId),
                   Unnumbered(p, books, orderId), Unnumbered(q, books, orderId));
    }
  }

  /** The cart's lines come from a HashSet, and the order items take their ids in visiting order.
      Two visiting orders give the same number of items, the same ids at the same positions, and
      the same items once the ids are set aside: the same book, quantity and price, as often. */
  lemma SnapshotPermutation(l1: seq<CartItem>, l2: seq<CartItem>, books: seq<Book>, orderId: nat, firstId: nat)
    requires BooksLoadable(l1, books)
    requires multiset(l1) == multiset(l2)
    ensures BooksLoadable(l2, books)
    ensures var s1, s2 := Snapshot(l1, books, orderId, firstId), Snapshot(l2, books, orderId, firstId);
      && |s1| == |s2|
      && (forall k :: 0 <= k < |s1| ==> s1[k].id == s2[k].id && s1[k].orderId == s2[k].orderId)
      && multiset(seq(|s1|, k requires 0 <= k < |s1| => s1[k].(id := 0)))
         == multiset(seq(|s2|, k requires 0 <= k < |s2| => s2[k].(id := 0)))
  {
    UnnumberedPermutation(l1, l2, books, orderId);
    var s1, s2 := Snapshot(l1, books, orderId, firstId), Snapshot(l2, books, orderId, firstId);
    assert |l1| == |multiset(l1)| == |l2|;
    assert seq(|s1|, k requires 0 <= k < |s1| => s1[k].(id := 0)) == Unnumbered(l1, books, orderId);
    assert seq(|s2|, k requires 0 <= k < |s2| => s2[k].(id := 0)) == Unnumbered(l2, books, orderId);
  }

  /** Clearing a cart empties its lines and keeps the lines of every other cart. */
  lemma ClearCart(items: seq<CartItem>, cartId: nat, otherCart: nat)
    ensures CartLines(WithoutCart(items, cartId), cartId) == []
    ensures otherCart != cartId ==> CartLines(WithoutCart(items, cartId), otherCart) == CartLines(items, otherCart)
  {
    var rest := WithoutCart(items, cartId);
    forall j | 0 <= j < |rest| ensures rest[j].cartId != cartId {
      assert rest[j] in rest;
    }
    CartLinesNone(rest, cartId);
    if otherCart != cartId {
      WithoutCartOthers(items, cartId, otherCart);
    }
  }

  /** Items stored under a fresh order id are the only items of that order. */
  lemma {:induction false} NewOrderItems(stored: seq<OrderItem>, items: seq<OrderItem>, orderId: nat)
    requires forall j :: 0 <= j < |stored| ==> stored[j].orderId < orderId
    requires forall j :: 0 <= j < |items| ==> items[j].orderId == orderId
    ensures ItemsOfOrder(stored + items, orderId) == items
  {
    ItemsOfOrderAppend(stored, items, orderId);
    ItemsOfOrderAllOrNone(stored, orderId);
    ItemsOfOrderAllOrNone(items, orderId);
    assert stored + items == stored + items;
  }

  /** The tables after an order is placed are consistent again. */
  lemma PlacedKeepsValid(users: map<string, User>, roles: map<RoleName, Role>, books: seq<Book>,
                         categories: seq<Category>, carts: map<nat, ShoppingCart>,
                         orders: seq<Order>, orderItems: seq<OrderItem>, nextId: nat, order: Order, items: seq<OrderItem>)
    requires OtherTablesValid(users, roles, books, categories, carts, orders, orderItems, nextId)
    requires order.id == nextId
    requires forall k :: 0 <= k < |items| ==> items[k].id == nextId + 1 + k && items[k].orderId == nextId
    ensures OtherTablesValid(users, roles, books, categories, carts, orders + [order], orderItems + items, nextId + 1 + |items|)
  {
    var all := orderItems + items;
    forall i, j | 0 <= i < j < |all| ensures all[i].id != all[j].id {
      if j < |orderItems| {
        assert orderItems[i].id != orderItems[j].id;
      }
    }
    var os := orders + [order];
    forall i, j | 0 <= i < j < |os| ensures os[i].id != os[j].id {
      if j < |orders| {
        assert orders[i].id != orders[j].id;
      }
    }
    forall j | 0 <= j < |all| ensures exists i :: 0 <= i < |os| && os[i].id == all[j].orderId {
      if j < |orderItems| {
        var i :| 0 <= i < |orders| && orders[i].id == orderItems[j].orderId;
        assert os[i] == orders[i];
      } else {
        assert all[j] == items[j - |orderItems|];
        assert os[|orders|] == order;
      }
    }
    assert ItemsOfStoredOrders(os, all);
  }

  /** Dropping the first row keeps the cart-item table consistent. */
  lemma TailValid(items: seq<CartItem>, books: seq<Book>, nextId: nat)
    requires CartItemsValid(items, books, nextId) && |items| > 0
    ensures CartItemsValid(items[1..], books, nextId)
  {
    var tail := items[1..];
    forall i, j | 0 <= i < j < |tail| ensures tail[i].id != tail[j].id {
      assert items[i + 1].id != items[j + 1].id;
    }
  }

  /** The first row differs in id, and in book within its cart, from every row kept after it. */
  lemma HeadApart(items: seq<CartItem>, books: seq<Book>, nextId: nat, cartId: nat)
    requires CartItemsValid(items, books, nextId) && |items| > 0
    ensures var rest := WithoutCart(items[1..], cartId);
      forall j :: 0 <= j < |rest| ==>
        rest[j].id != items[0].id && (rest[j].cartId == items[0].cartId ==> rest[j].bookId != items[0].bookId)
  {
    var tail := items[1..];
    var rest := WithoutCart(tail, cartId);
    forall j | 0 <= j < |rest|
      ensures rest[j].id != items[0].id && (rest[j].cartId == items[0].cartId ==> rest[j].bookId != items[0].bookId)
    {
      assert rest[j] in tail;
      var i :| 0 <= i < |tail| && tail[i] == rest[j];
      assert items[i + 1] == rest[j];
    }
  }

  /** Dropping the lines of a cart keeps the cart-item table consistent, under a larger id counter too. */
  lemma {:induction false} ClearKeepsValid(items: seq<CartItem>, books: seq<Book>, nextId: nat, later: nat, cartId: nat)
    requires CartItemsValid(items, books, nextId) && nextId <= later
    ensures CartItemsValid(WithoutCart(items, cartId), books, later)
    decreases |items|
  {
    if |items| > 0 {
      var rest := WithoutCart(items[1..], cartId);
      TailValid(items, books, nextId);
      ClearKeepsValid(items[1..], books, nextId, later, cartId);
      if items[0].cartId != cartId {
        HeadApart(items, books, nextId, cartId);
        ConsValid(items[0], rest, books, later);
      }
    }
  }

  /** A row in front of a consistent table that it differs from stays consistent. */
  lemma ConsValid(head: CartItem, rest: seq<CartItem>, books: seq<Book>, nextId: nat)
    requires CartItemsValid(rest, books, nextId)
    requires head.id < nextId && head.cartId < nextId && 1 <= head.quantity <= INT_MAX && BookRow(books, head.bookId).Some?
    requires forall j :: 0 <= j < |rest| ==>
      rest[j].id != head.id && (rest[j].cartId == head.cartId ==> rest[j].bookId != head.bookId)
    ensures CartItemsValid([head] + rest, books, nextId)
  {
    var all := [head] + rest;
    forall i, j | 0 <= i < j < |all| ensures all[i].id != all[j].id && (all[i].cartId == all[j].cartId ==> all[i].bookId != all[j].bookId) {
      if i > 0 {
        assert all[i] == rest[i - 1] && all[j] == rest[j - 1];
      }
    }
  }

  /** Given the snapshot of the cart's lines, visited in the order `lines`, the order and the
      tables placeOrder writes are what `Placed` describes. */
  lemma CheckoutPlaced(cartItems: seq<CartItem>, books: seq<Book>, orders: seq<Order>, orderItems: seq<OrderItem>,
                       nextId: nat, cart: ShoppingCart, lines: seq<CartItem>, request: OrderRequest, now: LocalDateTime,
                       items: seq<OrderItem>)
    requires BooksLoadable(CartLines(cartItems, cart.id), books)
    requires multiset(lines) == multiset(CartLines(cartItems, cart.id))
    requires BooksLoadable(lines, books)
    requires items == Snapshot(lines, books, nextId, nextId + 1)
    requires forall j :: 0 <= j < |orderItems| ==> orderItems[j].orderId < nextId
    ensures var order := Order(nextId, cart.userId, now, Total(items), PENDING, request.shippingAddress);
      Placed(cartItems, books, orders, orderItems, nextId, cart, lines, request, now,
             WithoutCart(cartItems, cart.id), orders + [order], orderItems + items, nextId + 1 + |items|,
             Ok(OrderMapper.ToDto(order, items)))
  {
    SnapshotTotal(lines, books, nextId, nextId + 1);
    LinesTotalPermutation(CartLines(cartItems, cart.id), lines, books);
    ClearCart(cartItems, cart.id, cart.id);
    NewOrderItems(orderItems, items, nextId);
  }

  /** Placing an order from the cart `cartId`, whose lines are visited as `lines`, leaves every
      table consistent. */
  lemma CheckoutValid(users: map<string, User>, roles: map<RoleName, Role>, books: seq<Book>,
                      categories: seq<Category>, carts: map<nat, ShoppingCart>, cartItems: seq<CartItem>,
                      orders: seq<Order>, orderItems: seq<OrderItem>, nextId: nat, cartId: nat,
                      lines: seq<CartItem>, order: Order, items: seq<OrderItem>)
    requires OtherTablesValid(users, roles, books, categories, carts, orders, orderItems, nextId)
    requires CartItemsValid(cartItems, books, nextId)
    requires BooksLoadable(lines, books)
    requires items == Snapshot(lines, books, nextId, nextId + 1)
    requires order.id == nextId
    ensures OtherTablesValid(users, roles, books, categories, carts, orders + [order], orderItems + items, nextId + 1 + |items|)
    ensures CartItemsValid(WithoutCart(cartItems, cartId), books, nextId + 1 + |items|)
  {
    ClearKeepsValid(cartItems, books, nextId, nextId + 1 + |items|, cartId);
    PlacedKeepsValid(users, roles, books, categories, carts, orders, orderItems, nextId, order, items);
  }

  // ---- Read-only queries ----

  /** getOrderHistory: the DTOs of the current user's orders, in repository order. */
  function OrderHistory(users: map<string, User>, orders: seq<Order>, orderItems: seq<OrderItem>, email: string)
    : (r: Result<seq<OrderResponseDto>>)
    ensures r.Ok? <==> email in users
    ensures r.Err? ==> r.error == EntityNotFound("User not found: " + email)
    ensures r.Ok? ==> forall k :: 0 <= k < |r.value| ==>
      r.value[k].userId == users[email].id && (exists j :: 0 <= j < |orders| && orders[j].id == r.value[k].id)
    ensures r.Ok? ==> forall j :: 0 <= j < |orders| && orders[j].userId == users[email].id ==>
      OrderMapper.ToDto(orders[j], ItemsOfOrder(orderItems, orders[j].id)) in r.value
    ensures r.Ok? ==> r.value == OrderDtos(OrdersOf(orders, users[email].id), orderItems)
  {
    match CurrentUser(users, email)
    case Err(e) => Err(e)
    case Ok(user) =>
      var mine := OrdersOf(orders, user.id);
      var dtos := OrderDtos(mine, orderItems);
      HistoryExact(orders, orderItems, user.id);
      Ok(dtos)
  }

  /** One order DTO per order, in order, each with that order's items. */
  function OrderDtos(orders: seq<Order>, orderItems: seq<OrderItem>): (r: seq<OrderResponseDto>)
    ensures |r| == |orders|
    ensures forall k :: 0 <= k < |orders| ==> r[k] == OrderMapper.ToDto(orders[k], ItemsOfOrder(orderItems, orders[k].id))
  {
    seq(|orders|, k requires 0 <= k < |orders| => OrderMapper.ToDto(orders[k], ItemsOfOrder(orderItems, orders[k].id)))
  }

  /** The DTOs of the orders owned by `userId` are exactly those of the table's orders with that owner. */
  lemma HistoryExact(orders: seq<Order>, orderItems: seq<OrderItem>, userId: nat)
    ensures forall k :: 0 <= k < |OrderDtos(OrdersOf(orders, userId), orderItems)| ==>
      var d := OrderDtos(OrdersOf(orders, userId), orderItems)[k];
      d.userId == userId && exists j :: 0 <= j < |orders| && orders[j].id == d.id
    ensures forall j :: 0 <= j < |orders| && orders[j].userId == userId ==>
      OrderMapper.ToDto(orders[j], ItemsOfOrder(orderItems, orders[j].id)) in OrderDtos(OrdersOf(orders, userId), orderItems)
  {
    var mine := OrdersOf(orders, userId);
    var dtos := OrderDtos(mine, orderItems);
    forall k | 0 <= k < |dtos| ensures dtos[k].userId == userId && exists j :: 0 <= j < |orders| && orders[j].id == dtos[k].id {
      assert mine[k] in mine;
    }
    forall j | 0 <= j < |orders| && orders[j].userId == userId
      ensures OrderMapper.ToDto(orders[j], ItemsOfOrder(orderItems, orders[j].id)) in dtos
    {
      assert orders[j] in mine;
      var k :| 0 <= k < |mine| && mine[k] == orders[j];
      assert dtos[k] == OrderMapper.ToDto(orders[j], ItemsOfOrder(orderItems, orders[j].id));
    }
  }

  /** The item DTOs of a list of order items, in order. */
  function ItemDtos(items: seq<OrderItem>): (r: seq<OrderItemResponseDto>)
    ensures |r| == |items|
    ensures forall k :: 0 <= k < |items| ==> r[k] == ToItemDto(items[k])
  {
    seq(|items|, k requires 0 <= k < |items| => ToItemDto(items[k]))
  }

  /** getOrderItems: the items of an order of the current user. A missing order and another
      user's order give the same not-found error. */
  function OrderItems(users: map<string, User>, orders: seq<Order>, orderItems: seq<OrderItem>, email: string, orderId: int)
    : (r: Result<seq<OrderItemResponseDto>>)
    ensures r.Ok? <==> (FindOrder(orders, orderId).Some? && email in users
      && orders[FindOrder(orders, orderId).value].userId == users[email].id)
    ensures FindOrder(orders, orderId).None? ==> r == Err(EntityNotFound("Order not found: " + IntString(orderId)))
    ensures FindOrder(orders, orderId).Some? && email !in users ==> r == Err(EntityNotFound("User not found: " + email))
    ensures (FindOrder(orders, orderId).Some? && email in users
      && orders[FindOrder(orders, orderId).value].userId != users[email].id) ==>
      r == Err(EntityNotFound("Order not found: " + IntString(orderId)))
    ensures r.Ok? ==> orderId >= 0 && r.value == ItemDtos(ItemsOfOrder(orderItems, orderId))
  {
    match FindOrder(orders, orderId)
    case None => Err(EntityNotFound("Order not found: " + IntString(orderId)))
    case Some(k) =>
      match CurrentUser(users, email)
      case Err(e) => Err(e)
      case Ok(user) =>
        if orders[k].userId != user.id then Err(EntityNotFound("Order not found: " + IntString(orderId)))
        else Ok(ItemDtos(ItemsOfOrder(orderItems, orders[k].id)))
  }

  /** getOrderItem as written: the item, if it belongs to the order with that id, whoever owns the order. */
  function OrderItemAsWritten(orderItems: seq<OrderItem>, orderId: int, itemId: int): (r: Result<OrderItemResponseDto>)
    ensures FindOrderItem(orderItems, itemId).None? ==> r == Err(EntityNotFound("Item not found: " + IntString(itemId)))
    ensures FindOrderItem(orderItems, itemId).Some? ==>
      var item := orderItems[FindOrderItem(orderItems, itemId).value];
      && (item.orderId != orderId ==> r == Err(EntityNotFound("Item not found in order: " + IntString(itemId))))
      && (item.orderId == orderId ==> r == Ok(ToItemDto(item)))
  {
    match FindOrderItem(orderItems, itemId)
    case None => Err(EntityNotFound("Item not found: " + IntString(itemId)))
    case Some(k) =>
      if orderItems[k].orderId != orderId then Err(EntityNotFound("Item not found in order: " + IntString(itemId)))
      else Ok(ToItemDto(orderItems[k]))
  }

  /** With no owner check, one user reads an item of another user's order. */
  lemma ForeignItemVisible()
    ensures var alice := User(1, "alice@example.com", "h1", "Alice", "A", None, {});
      var bob := User(2, "bob@example.com", "h2", "Bob", "B", None, {});
      var users := map["alice@example.com" := alice, "bob@example.com" := bob];
      var orders := [Order(3, alice.id, 0, 500, PENDING, "Street 1")];
      var items := [OrderItem(4, 3, 7, 1, 500)];
      && OrderItems(users, orders, items, bob.email, 3).Err?
      && OrderItemAsWritten(items, 3, 4) == Ok(OrderItemResponseDto(4, 7, 1))
  {
    var orders := [Order(3, 1, 0, 500, PENDING, "Street 1")];
    assert FindOrder(orders, 3) == Some(0);
    var items := [OrderItem(4, 3, 7, 1, 500)];
    assert FindOrderItem(items, 4) == Some(0);
  }

  /** getOrderItem with the ownership rule getOrderItems applies: the item of an order of the
      current user, and the same not-found error for an order that is missing or not theirs. */
  function OwnedOrderItem(users: map<string, User>, orders: seq<Order>, orderItems: seq<OrderItem>, email: string, orderId: int, itemId: int)
    : (r: Result<OrderItemResponseDto>)
    ensures r.Ok? ==> exists j :: 0 <= j < |orders| && orders[j].id == orderId && email in users && orders[j].userId == users[email].id
    ensures r.Ok? ==> exists j :: (0 <= j < |orderItems| && orderItems[j].id == itemId && orderItems[j].orderId == orderId
      && r.value == ToItemDto(orderItems[j]))
    ensures OrderItems(users, orders, orderItems, email, orderId).Err? ==> r.Err?
    ensures OrderItems(users, orders, orderItems, email, orderId).Ok? ==> r == OrderItemAsWritten(orderItems, orderId, itemId)
  {
    match OrderItems(users, orders, orderItems, email, orderId)
    case Err(e) => Err(e)
    case Ok(_) => OrderItemAsWritten(orderItems, orderId, itemId)
  }

  /** The corrected lookup hides an item of another user's order. */
  lemma ForeignItemHidden(users: map<string, User>, orders: seq<Order>, orderItems: seq<OrderItem>, email: string, orderId: int, itemId: int, k: nat)
    requires OrderIdsDistinct(orders)
    requires k < |orders| && orders[k].id == orderId
    requires email in users && orders[k].userId != users[email].id
    ensures OwnedOrderItem(users, orders, orderItems, email, orderId, itemId) == Err(EntityNotFound("Order not found: " + IntString(orderId)))
  {
    FindOrderAt(orders, k);
  }

  /** What a successful placeOrder leaves behind, from the tables before it to the tables after it,
      for the cart `cart` of its owner, whose HashSet yields its lines in the order `lines`: one
      PENDING order with the next id, dated `now`, with the lines snapshotted as its items in that
      order at the books' current prices, and as its total their sum, which is the same for every
      order of the lines; no line left in the cart, every other cart as it was. */
  ghost predicate Placed(cartItems: seq<CartItem>, books: seq<Book>, orders: seq<Order>, orderItems: seq<OrderItem>,
                         nextId: nat, cart: ShoppingCart, lines: seq<CartItem>, request: OrderRequest, now: LocalDateTime,
                         cartItems': seq<CartItem>, orders': seq<Order>, orderItems': seq<OrderItem>, nextId': nat,
                         r: Result<OrderResponseDto>)
  {
    && multiset(lines) == multiset(CartLines(cartItems, cart.id))
    && BooksLoadable(CartLines(cartItems, cart.id), books)
    && BooksLoadable(lines, books)
    && var items := Snapshot(lines, books, nextId, nextId + 1);
    && var order := Order(nextId, cart.userId, now, Total(items), PENDING, request.shippingAddress);
    && orders' == orders + [order]
    && orderItems' == orderItems + items
    && ItemsOfOrder(orderItems', nextId) == items
    && Total(items) == LinesTotal(CartLines(cartItems, cart.id), books)
    && cartItems' == WithoutCart(cartItems, cart.id)
    && CartLines(cartItems', cart.id) == []
    && nextId' == nextId + 1 + |lines|
    && r == Ok(OrderMapper.ToDto(order, items))
  }

  /** The service, over the repositories of `db`, the enum's other constant names and the clock's reading. */
  class OrderServiceImpl {
    const db: Db
    const otherStatuses: set<string>

    constructor (db: Db, otherStatuses: set<string>)
      requires StatusNamesValid(otherStatuses)
      ensures this.db == db && this.otherStatuses == otherStatuses
    {
      this.db := db;
      this.otherStatuses := otherStatuses;
    }

    /** placeOrder: snapshot the current user's cart into a PENDING order dated `now`, then empty the
        cart. `visit` is the order in which the cart's HashSet yields its lines: any arrangement of them. */
    method PlaceOrder(email: string, request: OrderRequest, now: LocalDateTime, visit: seq<CartItem>)
      returns (r: Result<OrderResponseDto>)
      requires db.Valid()
      requires email in db.users && db.users[email].id in db.carts ==>
        multiset(visit) == multiset(CartLines(db.cartItems, db.carts[db.users[email].id].id))
      modifies db`orders, db`orderItems, db`cartItems, db`nextId
      ensures db.Valid()
      ensures email !in old(db.users) ==> r == Err(EntityNotFound("User not found: " + email)) && unchanged(db)
      ensures email in old(db.users) && old(db.users)[email].id !in db.carts ==>
        r == Err(EntityNotFound("Cart not found for user")) && unchanged(db)
      ensures email in old(db.users) && old(db.users)[email].id in db.carts ==>
        Placed(old(db.cartItems), db.books, old(db.orders), old(db.orderItems), old(db.nextId),
               db.carts[old(db.users)[email].id], visit, request, now,
               db.cartItems, db.orders, db.orderItems, db.nextId, r)
    {
      var current := CurrentUser(db.users, email);
      if current.Err? {
        return Err(current.error);
      }
      var user := current.value;
      if user.id !in db.carts {
        return Err(EntityNotFound("Cart not found for user"));
      }
      r := Checkout(user, request, now, visit);
    }

    /** The writes of placeOrder once the user and the cart are found. */
    method Checkout(user: User, request: OrderRequest, now: LocalDateTime, visit: seq<CartItem>)
      returns (r: Result<OrderResponseDto>)
      requires db.Valid() && user.id in db.carts
      requires multiset(visit) == multiset(CartLines(db.cartItems, db.carts[user.id].id))
      modifies db`orders, db`orderItems, db`cartItems, db`nextId
      ensures db.Valid()
      ensures Placed(old(db.cartItems), db.books, old(db.orders), old(db.orderItems), old(db.nextId),
                     db.carts[user.id], visit, request, now,
                     db.cartItems, db.orders, db.orderItems, db.nextId, r)
    {
      var cart := db.carts[user.id];
      var cartItems, books, orders, orderItems, orderId := db.cartItems, db.books, db.orders, db.orderItems, db.nextId;
      LinesLoadable(cartItems, books, orderId, cart.id);
      LoadableByMultiset(CartLines(cartItems, cart.id), visit, books);
      var items := SnapshotLines(visit, books, orderId);
      var order := Order(orderId, cart.userId, now, Total(items), PENDING, request.shippingAddress);
      CheckoutPlaced(cartItems, books, orders, orderItems, orderId, cart, visit, request, now, items);
      CheckoutValid(db.users, db.roles, books, db.categories, db.carts, cartItems, orders, orderItems, orderId, cart.id,
                    visit, order, items);
      db.CommitOrder(WithoutCart(cartItems, cart.id), orders + [order], orderItems + items, orderId + 1 + |items|);
      r := Ok(OrderMapper.ToDto(order, items));
    }

    /** The forEach of placeOrder: one order item per cart line, appended in visiting order. */
    method SnapshotLines(lines: seq<CartItem>, books: seq<Book>, orderId: nat) returns (items: seq<OrderItem>)
      requires BooksLoadable(lines, books)
      ensures items == Snapshot(lines, books, orderId, orderId + 1)
    {
      items := [];
      var i := 0;
      while i < |lines|
        invariant 0 <= i <= |lines|
        invariant items == Snapshot(lines[..i], books, orderId, orderId + 1)
      {
        assert lines[..i + 1][..i] == lines[..i];
        items := items + [OrderItemOf(lines[i], books, orderId, orderId + 1 + i)];
        i := i + 1;
      }
      assert lines[..i] == lines;
    }

    /** updateOrderStatus: set the order's status to the constant named `status`; nothing else changes. */
    method UpdateOrderStatus(orderId: int, status: string) returns (r: Result<OrderResponseDto>)
      requires db.Valid()
      modifies db`orders
      ensures db.Valid()
      ensures FindOrder(old(db.orders), orderId).None? ==>
        r == Err(EntityNotFound("Order not found: " + IntString(orderId))) && db.orders == old(db.orders)
      ensures FindOrder(old(db.orders), orderId).Some? && StatusValueOf(otherStatuses, status).None? ==>
        r == Err(IllegalArgument("No enum constant com.book.store.app.entity.OrderStatus." + status))
        && db.orders == old(db.orders)
      ensures FindOrder(old(db.orders), orderId).Some? && StatusValueOf(otherStatuses, status).Some? ==>
        var k := FindOrder(old(db.orders), orderId).value;
        var updated := old(db.orders)[k].(status := StatusValueOf(otherStatuses, status).value);
        && db.orders == old(db.orders)[k := updated]
        && StatusName(updated.status) == status
        && r == Ok(OrderMapper.ToDto(updated, ItemsOfOrder(db.orderItems, updated.id)))
    {
      var found := FindOrder(db.orders, orderId);
      if found.None? {
        return Err(EntityNotFound("Order not found: " + IntString(orderId)));
      }
      var value := StatusValueOf(otherStatuses, status);
      if value.None? {
        return Err(IllegalArgument("No enum constant com.book.store.app.entity.OrderStatus." + status));
      }
      var k := found.value;
      var updated := db.orders[k].(status := value.value);
      UpdateKeepsValid(db.users, db.roles, db.books, db.categories, db.carts, db.orders, db.orderItems, db.nextId, k, updated);
      db.orders := db.orders[k := updated];
      r := Ok(OrderMapper.ToDto(updated, ItemsOfOrder(db.orderItems, updated.id)));
    }
  }

  /** Rewriting an order row under its own id keeps the tables consistent. */
  lemma UpdateKeepsValid(users: map<string, User>, roles: map<RoleName, Role>, books: seq<Book>,
                         categories: seq<Category>, carts: map<nat, ShoppingCart>,
                         orders: seq<Order>, orderItems: seq<OrderItem>, nextId: nat, k: nat, updated: Order)
    requires OtherTablesValid(users, roles, books, categories, carts, orders, orderItems, nextId)
    requires k < |orders| && updated.id == orders[k].id
    ensures OtherTablesValid(users, roles, books, categories, carts, orders[k := updated], orderItems, nextId)
  {
    var os := orders[k := updated];
    forall j | 0 <= j < |orderItems| ensures exists i :: 0 <= i < |os| && os[i].id == orderItems[j].orderId {
      var i :| 0 <= i < |orders| && orders[i].id == orderItems[j].orderId;
      assert 0 <= i < |os| && os[i].id == orderItems[j].orderId;
    }
    assert forall j :: 0 <= j < |orderItems| ==> exists i :: 0 <= i < |os| && os[i].id == orderItems[j].orderId;
    assert ItemsOfStoredOrders(os, orderItems);
  }
}
