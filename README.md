# Bookstore service core, modelled in Dafny

A model of the business logic of the Spring bookstore application Book_Store_App.
It covers these services:

- **Shopping cart**: each user gets one cart, created on first access. Adding a book merges its quantity into the cart's existing line for that book. Lines can be updated and removed by id.
- **Ordering**: placing an order snapshots the cart's lines into order items at the books' current prices, totals them, stores a PENDING order and empties the cart. The model also covers the order history, the item queries with their ownership rule, and the status update.
- **Registration**: a user is stored with an encoded password and the default role.
- **Categories**: the category table is read, saved, updated and deleted, and the books filed under a category are listed.

The model also covers these pure parts of the application:

- the JPA specification of the book search;
- the `@FieldMatch` class-level validator;
- the Bean Validation constraints of the book-creation and registration request bodies;
- the entity-to-DTO mappers of carts and orders.

## Structure

- **`Store.Db`** stands for all the JPA repositories together. It is a class with one field per table:
  - users, keyed by email;
  - roles, keyed by name;
  - carts, keyed by owner id;
  - books, categories, cart items, orders and order items, as sequences of rows.

  One `nextId` counter issues every generated id. `Db.Valid()` holds the consistency rules that the services rely on and preserve: unique ids, one cart line per book, quantities within a Java `int`, ids below the counter, and every order item belonging to a stored order.
- **Service classes.** `ShoppingCartServiceImpl`, `OrderServiceImpl`, `UserServiceImpl`, `CategoryServiceImpl` and `FieldMatchValidator` are classes. Their methods change only the fields named in their `modifies` clauses. On success, each method's `ensures` gives the new value of every field it may change, the id counter included. On an error, it gives the error result and says the state is unchanged.
- **HashSet order.** A cart's lines are a `HashSet`, so the order in which they are visited is not fixed. `placeOrder` takes that order as its parameter `visit`, which may be any arrangement of the cart's lines. The order items are numbered in visiting order. `SnapshotPermutation` proves that every visiting order yields the same ids and the same items up to numbering, and `LinesTotalPermutation` that it yields the same total.
- **Value-level specification functions** are what the methods are proved against. Examples are `AddLine`, `Snapshot`, `Total`, `LinesTotal`, `WithoutCart` and `Placed`. Lemmas state the properties of these functions:
  - merging versus appending a line;
  - the total is Σ price × quantity, and it does not depend on the iteration order of the cart's `HashSet`;
  - the new order owns exactly the new items;
  - the cleared cart has no lines and other carts keep theirs.
- **Prices** are `BigDecimal` values of scale 2. They are modelled as integer cents.
- **The search specification** is kept as the list of conjuncts that `withSearchParams` ANDs together. `SpecificationMeaning` proves that this list selects exactly the books the search describes in words.

## Model

| member | source | states |
|---|---|---|
| `Store.CurrentUser` | src/main/java/com/book/store/app/service/ShoppingCartServiceImpl.java:32-38 | the user stored under the email, or "User not found: " + email exactly when there is none |
| `Store.ActiveBook` | src/main/java/com/book/store/app/entity/Book.java:30-31 | findById sees a book row only when it is not soft-deleted; a deleted or missing id finds nothing |
| `Store.FindCartItem` | src/main/java/com/book/store/app/service/ShoppingCartServiceImpl.java:89-91 | the position of the cart item with that id; none exactly when no row has it |
| `Store.FindOrder` | src/main/java/com/book/store/app/service/OrderServiceImpl.java:87-88 | the position of the order with that id; none exactly when no row has it |
| `Store.FindOrderItem` | src/main/java/com/book/store/app/service/OrderServiceImpl.java:100-101 | the position of the order item with that id; none exactly when no row has it |
| `Store.FindCategory` | src/main/java/com/book/store/app/service/CategoryServiceImpl.java:37-39 | the position of the category with that id; none exactly when no row has it |
| `Store.CartLines` | src/main/java/com/book/store/app/entity/ShoppingCart.java:34-40 | a cart's item set is exactly the cart-item rows carrying its id |
| `Store.WithoutCart` | src/main/java/com/book/store/app/service/OrderServiceImpl.java:69-70 | the table after clearing a cart holds exactly the rows of the other carts |
| `Store.ItemsOfOrder` | src/main/java/com/book/store/app/service/OrderServiceImpl.java:92 | findAllByOrderId returns exactly the items carrying that order id |
| `Store.OrdersOf` | src/main/java/com/book/store/app/service/OrderServiceImpl.java:79 | findAllByUserId returns exactly the orders owned by that user |
| `Store.StatusValueOf` | src/main/java/com/book/store/app/service/OrderServiceImpl.java:113 | OrderStatus.valueOf gives the constant whose name is exactly the string, and fails exactly when the enum has no such constant |
| `Store.StatusRoundTrip` | src/main/java/com/book/store/app/mapper/OrderMapper.java:24 | valueOf(name()) returns every constant |
| `Store.StatusName` | src/main/java/com/book/store/app/mapper/OrderMapper.java:24 | Enum.name(): PENDING renders as "PENDING" and every other constant as its own name; `StatusRoundTrip` proves valueOf inverts it |
| `Store.BookRow` | src/main/java/com/book/store/app/service/OrderServiceImpl.java:60-62 | the book an association loads (`ci.getBook()`): the row with that id whatever its deleted flag, and none exactly when no row has the id |
| `Store.ItemsOfStoredOrders` | src/main/java/com/book/store/app/service/OrderServiceImpl.java:57-63 | every order item belongs to an order of the table, as `oi.setOrder(order)` links it |
| `Store.Db.Valid` | src/main/java/com/book/store/app/entity/ShoppingCart.java:26-40 | the consistency of all the tables: unique issued ids, carts keyed by their unique owner, one line per book and a positive int quantity in each cart line, items belonging to stored orders |
| `Store.Db.SaveUsers` | src/main/java/com/book/store/app/service/UserServiceImpl.java:41 | userRepository.save: the user table and the id counter take the given values, and the database stays valid |
| `Store.Db.SaveCategories` | src/main/java/com/book/store/app/service/CategoryServiceImpl.java:47 | categoryRepo.save of a new row: the category table and the id counter take the given values |
| `Store.Db.ReplaceCategories` | src/main/java/com/book/store/app/service/CategoryServiceImpl.java:58-64 | categoryRepo.save of an existing row, or deleteById: the category table takes the given value and no id is issued |
| `Store.Db.SaveCartItems` | src/main/java/com/book/store/app/service/ShoppingCartServiceImpl.java:81-82 | itemRepo.save of a new line: the cart-item table and the id counter take the given values |
| `Store.Db.CommitOrder` | src/main/java/com/book/store/app/service/OrderServiceImpl.java:69-71 | the cart save and the order save of placeOrder, committed together: the cart-item, order and order-item tables and the id counter take the given values |
| `Tables.Without` | src/main/java/com/book/store/app/service/ShoppingCartServiceImpl.java:102 | delete of one row: every row before it is kept in place, every row after it moves up by one, and the table loses exactly that row |
| `Common.DecimalString` | src/main/java/com/book/store/app/service/OrderServiceImpl.java:88 | the decimal digits of a non-negative id, as string concatenation renders a Long |
| `Common.IntString` | src/main/java/com/book/store/app/service/ShoppingCartServiceImpl.java:90-91 | a Long from the request path rendered with its sign |
| `Text.Lower` | src/main/java/com/book/store/app/specification/BookSpecification.java:16 | toLowerCase keeps the length and lower-cases each letter in place |
| `Text.IsWhitespace` | src/main/java/com/book/store/app/specification/BookSpecification.java:14 | Character.isWhitespace, which String.isBlank tests on each character |
| `Text.IsBlank` | src/main/java/com/book/store/app/specification/BookSpecification.java:14 | String.isBlank: every character is whitespace, so the empty string is blank |
| `Text.NotBlank` | src/main/java/com/book/store/app/dto/CreateBookRequestDto.java:18 | @NotBlank: non-null with a character above U+0020, the characters trim() keeps |
| `Text.Contains` | src/main/java/com/book/store/app/specification/BookSpecification.java:16 | the `%filter%` LIKE pattern: the filter occurs as a contiguous substring |
| `CartMapper.ItemToDto` | src/main/java/com/book/store/app/mapper/CartMapper.java:13-20 | the item DTO copies the line's id and quantity, with its book's id and current title |
| `CartMapper.ToDto` | src/main/java/com/book/store/app/mapper/CartMapper.java:22-30 | the cart DTO copies the cart id and the owner's id, and has one item DTO per line |
| `CartMapper.ToDtoIds` | src/main/java/com/book/store/app/mapper/CartMapper.java:26-28 | the DTO lists exactly the ids of the cart's lines, so an empty cart gives an empty list |
| `CartMapper.ToDtoPermutation` | src/main/java/com/book/store/app/mapper/CartMapper.java:26-28 | the cart's HashSet may yield its lines in any order; every order gives the same item DTOs, each as often |
| `OrderMapper.ToItemDto` | src/main/java/com/book/store/app/mapper/OrderMapper.java:29-35 | the item DTO copies id, book id and quantity |
| `OrderMapper.PriceNotExposed` | src/main/java/com/book/store/app/mapper/OrderMapper.java:29-35 | two items differing only in price give the same DTO |
| `OrderMapper.ToDto` | src/main/java/com/book/store/app/mapper/OrderMapper.java:14-27 | the order DTO copies id, owner, date, total and address, names the status, and has one item DTO per item, in order |
| `OrderMapper.StatusRendered` | src/main/java/com/book/store/app/mapper/OrderMapper.java:24 | the DTO's status string parses back to the order's status |
| `ShoppingCartService.CartFor` | src/main/java/com/book/store/app/service/ShoppingCartServiceImpl.java:40-47 | a user with a stored cart gets exactly that cart; otherwise a new cart with the next id, owned by that user |
| `ShoppingCartService.FindLine` | src/main/java/com/book/store/app/service/ShoppingCartServiceImpl.java:67-69 | the cart's line for the book, if any; none exactly when the cart has no line for it |
| `ShoppingCartService.AddLine` | src/main/java/com/book/store/app/service/ShoppingCartServiceImpl.java:67-83 | the table grows by one row exactly when the cart has no line for the book; the line for the book then holds the old quantity (0 for a new line) plus the request, a new line has the fresh id, and every other row is unchanged |
| `ShoppingCartService.Fits` | src/main/java/com/book/store/app/service/ShoppingCartServiceImpl.java:72 | the merged quantity stays within Integer.MAX_VALUE |
| `ShoppingCartService.AddLineMerges` | src/main/java/com/book/store/app/service/ShoppingCartServiceImpl.java:71-74 | a book already in the cart: its line's quantity grows by the request, no line is added and every other row is unchanged |
| `ShoppingCartService.AddLineAppends` | src/main/java/com/book/store/app/service/ShoppingCartServiceImpl.java:77-83 | a book not in the cart: the cart gains exactly one line with that book and quantity; other carts keep their lines |
| `ShoppingCartService.AddLineOtherCarts` | src/main/java/com/book/store/app/service/ShoppingCartServiceImpl.java:59-84 | adding to one cart never changes the lines of another |
| `ShoppingCartService.MergeKeepsValid` | src/main/java/com/book/store/app/service/ShoppingCartServiceImpl.java:72-73 | a merged quantity within Integer.MAX_VALUE keeps the cart-item table consistent |
| `ShoppingCartService.SetQuantityKeepsValid` | src/main/java/com/book/store/app/service/ShoppingCartServiceImpl.java:92-93 | setting a quantity of at least 1 keeps the table consistent |
| `ShoppingCartService.AppendKeepsValid` | src/main/java/com/book/store/app/service/ShoppingCartServiceImpl.java:77-82 | a new line with a fresh id, for a book not yet in its cart, keeps the table consistent |
| `ShoppingCartService.RemoveKeepsValid` | src/main/java/com/book/store/app/service/ShoppingCartServiceImpl.java:102 | deleting a line keeps the table consistent and leaves no line with its id |
| `ShoppingCartService.ShoppingCartServiceImpl.GetOrCreateCart` | src/main/java/com/book/store/app/service/ShoppingCartServiceImpl.java:40-47 | returns the stored cart unchanged, or stores exactly one new empty cart owned by the user |
| `ShoppingCartService.ShoppingCartServiceImpl.GetCartForCurrentUser` | src/main/java/com/book/store/app/service/ShoppingCartServiceImpl.java:49-55 | an unknown email fails with "User not found" and changes nothing; otherwise the DTO of the user's cart, which is created if absent |
| `ShoppingCartService.ShoppingCartServiceImpl.AddToCart` | src/main/java/com/book/store/app/service/ShoppingCartServiceImpl.java:57-84 | unknown user or book fails with its not-found message and changes nothing; otherwise the cart holds the requested quantity more of the book and the result is that line's DTO |
| `ShoppingCartService.ShoppingCartServiceImpl.QuantityFits` | src/main/java/com/book/store/app/service/ShoppingCartServiceImpl.java:72 | the existing line of the user's cart for the book, if any, can take the request's quantity without passing Integer.MAX_VALUE |
| `ShoppingCartService.ShoppingCartServiceImpl.Added` | src/main/java/com/book/store/app/service/ShoppingCartServiceImpl.java:59-84 | the state addToCart leaves: the user's cart, created if absent, holds the table `AddLine` gives, the counter has issued one id per cart or line created, and the result is the DTO of the book's line |
| `ShoppingCartService.ShoppingCartServiceImpl.AddBook` | src/main/java/com/book/store/app/service/ShoppingCartServiceImpl.java:61-83 | the user's cart, created if absent, gets the book merged or appended, as `Added` states |
| `ShoppingCartService.ShoppingCartServiceImpl.PutLine` | src/main/java/com/book/store/app/service/ShoppingCartServiceImpl.java:67-83 | the cart-item table becomes AddLine of the old one; a new id is issued only when a line is appended |
| `ShoppingCartService.ShoppingCartServiceImpl.MergeLine` | src/main/java/com/book/store/app/service/ShoppingCartServiceImpl.java:71-74 | only the existing line changes, and only its quantity |
| `ShoppingCartService.ShoppingCartServiceImpl.AppendLine` | src/main/java/com/book/store/app/service/ShoppingCartServiceImpl.java:77-83 | exactly one line is appended, with the next id, the cart, the book and the quantity |
| `ShoppingCartService.ShoppingCartServiceImpl.UpdateCartItem` | src/main/java/com/book/store/app/service/ShoppingCartServiceImpl.java:86-94 | an unknown id fails with "CartItem not found" and saves nothing; otherwise that line's quantity, and nothing else, is set |
| `ShoppingCartService.ShoppingCartServiceImpl.RemoveCartItem` | src/main/java/com/book/store/app/service/ShoppingCartServiceImpl.java:96-103 | an unknown id fails with "CartItem not found"; otherwise exactly that row is deleted and no row keeps its id |
| `OrderService.OrderItemOf` | src/main/java/com/book/store/app/service/OrderServiceImpl.java:58-63 | an order item takes the line's book and quantity and the book's current price |
| `OrderService.Snapshot` | src/main/java/com/book/store/app/service/OrderServiceImpl.java:57-64 | one order item per cart line, in visiting order, each with its own fresh id |
| `OrderService.Total` | src/main/java/com/book/store/app/service/OrderServiceImpl.java:65-67 | the reduce from BigDecimal.ZERO adding price × quantity, left to right; never negative for non-negative prices and quantities |
| `OrderService.LinesTotal` | src/main/java/com/book/store/app/service/OrderServiceImpl.java:57-67 | the reference total: Σ current book price × quantity over the cart lines; `SnapshotTotal` proves the reduce equals it |
| `OrderService.Unnumbered` | src/main/java/com/book/store/app/service/OrderServiceImpl.java:57-64 | the items the forEach builds from the lines, with the generated ids set aside |
| `OrderService.UnnumberedPermutation` | src/main/java/com/book/store/app/entity/ShoppingCart.java:40 | every visiting order of the HashSet builds the same items, each as often |
| `OrderService.SnapshotPermutation` | src/main/java/com/book/store/app/service/OrderServiceImpl.java:57-64 | two visiting orders of the lines give as many items, the same ids at the same positions, and the same book, quantity and price, each as often |
| `OrderService.SnapshotTotal` | src/main/java/com/book/store/app/service/OrderServiceImpl.java:65-68 | the order total is Σ price × quantity over the cart's lines |
| `OrderService.EmptyCartTotal` | src/main/java/com/book/store/app/service/OrderServiceImpl.java:65-67 | an empty cart gives no items and total 0 |
| `OrderService.LinesTotalPermutation` | src/main/java/com/book/store/app/entity/ShoppingCart.java:40 | the total is the same in whatever order the HashSet gives the lines |
| `OrderService.ClearCart` | src/main/java/com/book/store/app/service/OrderServiceImpl.java:69-70 | afterwards the cart has no lines, and every other cart keeps its lines |
| `OrderService.NewOrderItems` | src/main/java/com/book/store/app/service/OrderServiceImpl.java:57-71 | the items stored under the new order's id are exactly the snapshot |
| `OrderService.PlacedKeepsValid` | src/main/java/com/book/store/app/service/OrderServiceImpl.java:68-71 | storing the order and its items keeps ids unique and item-to-order links valid |
| `OrderService.ClearKeepsValid` | src/main/java/com/book/store/app/service/OrderServiceImpl.java:69-70 | clearing a cart keeps the cart-item table consistent |
| `OrderService.CheckoutPlaced` | src/main/java/com/book/store/app/service/OrderServiceImpl.java:52-72 | the tables placeOrder writes, and its result, are those `Placed` describes |
| `OrderService.CheckoutValid` | src/main/java/com/book/store/app/service/OrderServiceImpl.java:52-72 | placing an order leaves every table consistent |
| `OrderService.Placed` | src/main/java/com/book/store/app/service/OrderServiceImpl.java:48-72 | the state a successful placeOrder leaves for a visiting order of the cart's lines: one PENDING order with the next id and its snapshot items, a total equal to Σ price × quantity over the cart, the cart emptied and every other cart as before |
| `OrderService.OrderHistory` | src/main/java/com/book/store/app/service/OrderServiceImpl.java:75-82 | an unknown user fails with "User not found"; otherwise the result is exactly `OrderDtos` of the user's orders, in repository order: every listed DTO belongs to the user, and every order of the user is listed |
| `OrderService.OrderDtos` | src/main/java/com/book/store/app/service/OrderServiceImpl.java:79-81 | one DTO per order, in order, each with that order's items |
| `OrderService.HistoryExact` | src/main/java/com/book/store/app/service/OrderServiceImpl.java:79-81 | every listed order is the user's, and every order of the user is listed |
| `OrderService.ItemDtos` | src/main/java/com/book/store/app/service/OrderServiceImpl.java:92-94 | one item DTO per item, in order |
| `OrderService.OrderItems` | src/main/java/com/book/store/app/service/OrderServiceImpl.java:84-95 | succeeds exactly for an order the current user owns, with exactly its items; a missing order and another user's order give the same "Order not found" error |
| `OrderService.OrderItemAsWritten` | src/main/java/com/book/store/app/service/OrderServiceImpl.java:97-106 | "Item not found" for an unknown item and "Item not found in order" for an item of another order; there is no owner check |
| `OrderService.ForeignItemVisible` | src/main/java/com/book/store/app/service/OrderServiceImpl.java:97-106 | a user who cannot list an order's items can still read one of them |
| `OrderService.OwnedOrderItem` | src/main/java/com/book/store/app/service/OrderServiceImpl.java:86-106 | the item is returned only from an order of the current user that contains it; everything else fails like getOrderItems |
| `OrderService.ForeignItemHidden` | src/main/java/com/book/store/app/service/OrderServiceImpl.java:89-91 | with the owner check, another user's order gives "Order not found" |
| `OrderService.OrderServiceImpl.PlaceOrder` | src/main/java/com/book/store/app/service/OrderServiceImpl.java:46-73 | an unknown user fails, and a user without a cart fails with "Cart not found for user"; neither stores anything and no cart is created. Otherwise the tables become what `Placed` states for the visiting order `visit`: one PENDING order owned by the user, dated by the clock, with the request's address, the snapshot as its items, their sum as its total, and an empty cart |
| `OrderService.OrderServiceImpl.Checkout` | src/main/java/com/book/store/app/service/OrderServiceImpl.java:52-72 | the writes of placeOrder for a found cart and any visiting order of its lines, as `Placed` states |
| `OrderService.OrderServiceImpl.SnapshotLines` | src/main/java/com/book/store/app/service/OrderServiceImpl.java:57-64 | the forEach builds exactly `Snapshot` of the lines |
| `OrderService.OrderServiceImpl.UpdateOrderStatus` | src/main/java/com/book/store/app/service/OrderServiceImpl.java:108-116 | an unknown order fails with "Order not found" and an unknown name fails with valueOf's IllegalArgumentException; otherwise only that order's status changes, to the constant with that name |
| `OrderService.UpdateKeepsValid` | src/main/java/com/book/store/app/service/OrderServiceImpl.java:113-114 | rewriting an order under its own id keeps the tables consistent |
| `BookSpecification.FilterOn` | src/main/java/com/book/store/app/specification/BookSpecification.java:14-18 | a null or blank filter adds no conjunct; otherwise exactly one LIKE on the lower-cased column and filter |
| `BookSpecification.WithSearchParams` | src/main/java/com/book/store/app/specification/BookSpecification.java:9-33 | the first conjunct is `deleted = false`, followed by one conjunct per applied filter |
| `BookSpecification.SpecificationMeaning` | src/main/java/com/book/store/app/specification/BookSpecification.java:9-33 | a book satisfies the specification exactly when it is not deleted and each applied filter occurs in its field, ignoring case |
| `BookSpecification.DeletedNeverMatches` | src/main/java/com/book/store/app/specification/BookSpecification.java:10-12 | a deleted book never matches |
| `BookSpecification.NoFiltersMatchActive` | src/main/java/com/book/store/app/specification/BookSpecification.java:10-12 | with no filter, exactly the non-deleted books match |
| `BookSpecification.BlankAddsNothing` | src/main/java/com/book/store/app/specification/BookSpecification.java:14-30 | a blank filter gives the same specification as a null one |
| `BookSpecification.MoreFiltersFewerMatches` | src/main/java/com/book/store/app/specification/BookSpecification.java:15-29 | the conjuncts are ANDed, so more filters never select more books |
| `BookSpecification.CaseInsensitive` | src/main/java/com/book/store/app/specification/BookSpecification.java:16-28 | filters that agree once lower-cased give the same specification |
| `BookSpecification.MatchesOwnFields` | src/main/java/com/book/store/app/specification/BookSpecification.java:14-30 | a live book matches its own title, author and isbn as filters |
| `FieldMatch.GetProperty` | src/main/java/com/book/store/app/validation/FieldMatchValidator.java:23-24 | reading a property gives its value exactly when the bean has it, and throws otherwise |
| `FieldMatch.FieldsMatch` | src/main/java/com/book/store/app/validation/FieldMatchValidator.java:21-39 | true exactly when both properties can be read and the first is non-null and equal to the second |
| `FieldMatch.BothNullFails` | src/main/java/com/book/store/app/validation/FieldMatchValidator.java:26 | two null values do not match |
| `FieldMatch.MatchSymmetric` | src/main/java/com/book/store/app/validation/FieldMatchValidator.java:26 | with both values non-null the verdict does not depend on which field is first |
| `FieldMatch.ReadFailureFails` | src/main/java/com/book/store/app/validation/FieldMatchValidator.java:36-38 | a property that cannot be read gives false |
| `FieldMatch.ConstraintValidatorContext.DisableDefaultConstraintViolation` | src/main/java/com/book/store/app/validation/FieldMatchValidator.java:29 | the default violation is switched off |
| `FieldMatch.ConstraintValidatorContext.AddViolation` | src/main/java/com/book/store/app/validation/FieldMatchValidator.java:30-32 | exactly one violation, with that template and property node, is appended |
| `FieldMatch.FieldMatchValidator.Initialize` | src/main/java/com/book/store/app/validation/FieldMatchValidator.java:13-18 | the three annotation attributes are stored |
| `FieldMatch.FieldMatchValidator.IsValid` | src/main/java/com/book/store/app/validation/FieldMatchValidator.java:20-39 | returns `FieldsMatch`. A mismatch disables the default violation and records exactly one violation, with the message, on the second field. A match or a read failure leaves the context unchanged |
| `RequestValidation.NotBlankRule` | src/main/java/com/book/store/app/dto/CreateBookRequestDto.java:18 | no violation exactly when the value is non-null with a character above U+0020 |
| `RequestValidation.MaxSizeRule` | src/main/java/com/book/store/app/dto/CreateBookRequestDto.java:19 | no violation exactly when the value is null or within the bound |
| `RequestValidation.MinSizeRule` | src/main/java/com/book/store/app/dto/UserRegistrationRequestDto.java:18 | no violation exactly when the value is null or at least the bound long |
| `RequestValidation.PriceRule` | src/main/java/com/book/store/app/dto/CreateBookRequestDto.java:30-32 | the price must be present and at least 0, with 0 accepted |
| `RequestValidation.TitleViolations` | src/main/java/com/book/store/app/dto/CreateBookRequestDto.java:18-20 | the title's @NotBlank and @Size(max = 255), reported independently |
| `RequestValidation.AuthorViolations` | src/main/java/com/book/store/app/dto/CreateBookRequestDto.java:22-24 | the author's @NotBlank and @Size(max = 255) |
| `RequestValidation.IsbnViolations` | src/main/java/com/book/store/app/dto/CreateBookRequestDto.java:26-28 | the isbn's @NotBlank and @Size(max = 20) |
| `RequestValidation.BookViolations` | src/main/java/com/book/store/app/dto/CreateBookRequestDto.java:16-41 | the union of every field constraint's violations; `BookRequestValid` states when it is empty |
| `RequestValidation.BookRequestValid` | src/main/java/com/book/store/app/dto/CreateBookRequestDto.java:18-40 | valid exactly when title and author are non-blank and at most 255 characters, the isbn is non-blank and at most 20, the price is present and ≥ 0, and description and cover image are within 2000 and 255; categoryIds are free |
| `RequestValidation.LongBlankTitle` | src/main/java/com/book/store/app/dto/CreateBookRequestDto.java:18-20 | a long blank title violates both of its constraints |
| `RequestValidation.EmailRule` | src/main/java/com/book/store/app/dto/UserRegistrationRequestDto.java:14 | a null email passes; otherwise the email must satisfy the address grammar |
| `RequestValidation.PasswordsMatchRule` | src/main/java/com/book/store/app/dto/UserRegistrationRequestDto.java:9 | no violation exactly when the field-match validator accepts the request |
| `RequestValidation.RegistrationViolations` | src/main/java/com/book/store/app/dto/UserRegistrationRequestDto.java:9-31 | the union of every field and class constraint's violations; `RegistrationValid` states when it is empty |
| `RequestValidation.RegistrationValid` | src/main/java/com/book/store/app/dto/UserRegistrationRequestDto.java:9-31 | valid exactly when the email is non-blank and well formed, the password is non-blank, at least 8 characters and repeated identically, and both names are non-blank; the address is free |
| `RequestValidation.MismatchReported` | src/main/java/com/book/store/app/dto/UserRegistrationRequestDto.java:9 | different passwords report "Passwords do not match" on repeatPassword |
| `UserService.ToDto` | src/main/java/com/book/store/app/dto/UserResponseDto.java:8-13 | the response copies id, email, names and address; it has no password field |
| `UserService.Complete` | src/main/java/com/book/store/app/dto/UserRegistrationRequestDto.java:13-28 | email, password and both names are present, as their @NotBlank constraints guarantee before register runs |
| `UserService.NewUser` | src/main/java/com/book/store/app/service/UserServiceImpl.java:34-39 | the saved entity has the request's email, names and address, the encoded password and exactly one role |
| `UserService.RegisterKeepsValid` | src/main/java/com/book/store/app/service/UserServiceImpl.java:41 | inserting a user with an unused email and the next id keeps the tables consistent |
| `UserService.UserServiceImpl.Register` | src/main/java/com/book/store/app/service/UserServiceImpl.java:29-43 | a taken email gives "Email already in use" and a missing ROLE_USER gives "Default role USER not found", both storing nothing. Otherwise exactly one user is added, with the next id, encode(password) and roles {ROLE_USER}, and the result is its public DTO |
| `UserService.UserServiceImpl.RegisterTwice` | src/main/java/com/book/store/app/service/UserServiceImpl.java:30-32 | after a successful registration the same request fails with "Email already in use"; a first failure repeats itself |
| `CategoryService.ToDto` | src/main/java/com/book/store/app/mapper/CategoryMapper.java:12 | the DTO copies id, name and description |
| `CategoryService.FindAll` | src/main/java/com/book/store/app/service/CategoryServiceImpl.java:29-32 | one DTO per stored category, in table order |
| `CategoryService.GetById` | src/main/java/com/book/store/app/service/CategoryServiceImpl.java:36-41 | the DTO of the stored category with that id, or "Category not found with id: " + id exactly when there is none |
| `CategoryService.NotFound` | src/main/java/com/book/store/app/service/CategoryServiceImpl.java:38-39 | jakarta's EntityNotFoundException with "Category not found with id: " and the id |
| `CategoryService.BooksInCategory` | src/main/java/com/book/store/app/service/CategoryServiceImpl.java:70 | the non-deleted books filed under the category, and only those |
| `CategoryService.ToBookDto` | src/main/java/com/book/store/app/mapper/BookMapper.java:37 | the DTO copies the book's own columns, without categories |
| `CategoryService.GetBooksByCategoryId` | src/main/java/com/book/store/app/service/CategoryServiceImpl.java:69-74 | one DTO per book of the category, in repository order |
| `CategoryService.BooksOfCategoryExact` | src/main/java/com/book/store/app/service/CategoryServiceImpl.java:69-74 | every live book of the category is listed, and every listed DTO comes from one |
| `CategoryService.Updated` | src/main/java/com/book/store/app/service/CategoryServiceImpl.java:56-57 | update keeps the id and takes name and description from the request |
| `CategoryService.SaveThenGet` | src/main/java/com/book/store/app/service/CategoryServiceImpl.java:45-48 | a saved category is found by its new id |
| `CategoryService.UpdateThenGet` | src/main/java/com/book/store/app/service/CategoryServiceImpl.java:52-59 | after update, getById returns the new name and description under the same id |
| `CategoryService.DeleteThenGet` | src/main/java/com/book/store/app/service/CategoryServiceImpl.java:63-65 | after deleteById, getById of that id fails with not-found |
| `CategoryService.DeleteKeepsValid` | src/main/java/com/book/store/app/service/CategoryServiceImpl.java:63-65 | deleting a category keeps the category table consistent |
| `CategoryService.CategoryServiceImpl.Save` | src/main/java/com/book/store/app/service/CategoryServiceImpl.java:45-48 | the request's id is ignored; exactly one category with the next id is appended |
| `CategoryService.CategoryServiceImpl.Update` | src/main/java/com/book/store/app/service/CategoryServiceImpl.java:52-59 | a missing id fails with not-found and saves nothing; otherwise only the name and description of that row change |
| `CategoryService.CategoryServiceImpl.DeleteById` | src/main/java/com/book/store/app/service/CategoryServiceImpl.java:63-65 | removes the row with that id; an unknown id changes nothing; afterwards getById of that id fails |

## Left out

- **Controllers, routing and security.** Controllers, HTTP routing, `@PreAuthorize`, `SecurityConfig`, JWT and the exception-to-HTTP handler are not modelled. The current user is the email parameter that `SecurityContextHolder` would supply.
- **Outside inputs left abstract.** The clock is the `now` parameter. `PasswordEncoder.encode` is an uninterpreted function field of `UserServiceImpl`. The `@Email` address grammar is a function parameter of `EmailRule`.
- **Transactions.** `@Transactional` rollback is modelled by doing every check before the first write, which is observably the same.
  - addToCart calls getOrCreateCart before the book lookup, so an unknown book rolls back the new cart. The model shows this by leaving the state unchanged on that error.
  - getCartForCurrentUser runs in a read-only transaction but calls getOrCreateCart. The model stores the new cart, as that save asks.
  - Isolation and concurrent requests are not modelled.
- **Persistence details.**
  - JPA itself, lazy loading, pagination and sorting are not modelled.
  - Identity columns are one shared `nextId` counter.
  - `BookRepository.findAllByCategoryId` is not in the repository source. `BooksInCategory` models it as the non-deleted books whose category ids contain the id, following Book's `@Where(deleted = false)`.
  - The Category entity is not part of this model's sources, so deleteById is modelled as removal of the row, which is what the repository test checks.
- **The book catalog service.** BookServiceImpl, BookRepositoryImpl and the `BookMapper` conversions other than `toDtoWithoutCategories` are not part of this model: the service does not implement its interface. Books are a read-only table here.
- **Strings.**
  - SQL LIKE wildcards inside a filter (`%`, `_`) are taken literally.
  - Lower-casing covers ASCII letters only.
  - Lengths are counted in Dafny characters rather than UTF-16 units.
- **Money.** BigDecimal prices of scale 2 are integer cents.
- **Disagreements with the written specification**, where the model follows the code:
  - `register` performs no field validation itself. The request constraints are checked separately, by `RegistrationViolations`, before the service is called.
  - A duplicate email is a `RegistrationException`.
- **Iteration order of a cart's lines.** `getCartForCurrentUser` and `CartMapper.toDto` list a cart's lines in table order. `ToDtoPermutation` proves that any other order lists the same DTOs, each as often. `placeOrder` takes the visiting order as a parameter, so the order items, their ids and the order DTO's item list follow that parameter. How the HashSet chooses its order is not modelled.
- ShoppingCartService.ShoppingCartServiceImpl.AddToCart: requires that the merged quantity stays within `Integer.MAX_VALUE`. Java's int addition would wrap around for larger sums.
- UserService.UserServiceImpl.Register: requires email, password and both names to be non-null, as the request validation guarantees before the call. The database's NOT NULL failure for a null field is not modelled.
- The class-level `@FieldMatch` constraint catches any exception from the context as well as from the property reads; only a read failure is modelled.

## Findings

| source | as written | input that shows it | evidently intended | confidence | as-written member | corrected member |
|---|---|---|---|---|---|---|
| src/main/java/com/book/store/app/service/OrderServiceImpl.java:97-106 | getOrderItem checks only that the item belongs to the order id in the path, not that the order belongs to the current user | user 2 asks for item 4 of order 3, which user 1 owns: getOrderItems refuses user 2 that order, but getOrderItem returns the item | the same ownership rule as getOrderItems (lines 89-91), with the same "Order not found" error | not executed | `OrderService.ForeignItemVisible` | `OrderService.OwnedOrderItem` |
