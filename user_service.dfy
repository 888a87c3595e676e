// UserServiceImpl.register: a new user with the next id, the encoded password
// and exactly the default role, stored after an existence check on the email.
module UserService {
  import opened Common
  import opened Store
  import opened RequestValidation

  /** UserResponseDto: the user's public fields; there is no password among them. */
  datatype UserResponseDto = UserResponseDto(
    id: nat,
    email: string,
    firstName: string,
    lastName: string,
    shippingAddress: Option<string>)

  /** UserMapper.toDto. */
  function ToDto(u: User): (d: UserResponseDto)
    ensures d.id == u.id && d.email == u.email
    ensures d.firstName == u.firstName && d.lastName == u.lastName
    ensures d.shippingAddress == u.shippingAddress
  {
    UserResponseDto(u.id, u.email, u.firstName, u.lastName, u.shippingAddress)
  }

  /** The fields register needs: the ones the request validation makes non-null. */
  predicate Complete(request: UserRegistrationRequest)
  {
    request.email.Some? && request.password.Some? && request.firstName.Some? && request.lastName.Some?
  }

  /** The entity register saves: UserMapper.toEntity copies email, names and address and leaves
      id and password out; the service sets the encoded password and the one role. */
  function NewUser(request: UserRegistrationRequest, id: nat, password: string, role: Role): (u: User)
    requires Complete(request)
    ensures u.id == id && u.email == request.email.value && u.password == password
    ensures u.firstName == request.firstName.value && u.lastName == request.lastName.value
    ensures u.shippingAddress == request.shippingAddress && u.roles == {role}
  {
    User(id, request.email.value, password, request.firstName.value, request.lastName.value,
         request.shippingAddress, {role})
  }

  /** Adding a user with an unused email and the next id keeps the database consistent. */
  lemma RegisterKeepsValid(users: map<string, User>, roles: map<RoleName, Role>, books: seq<Book>,
                           categories: seq<Category>, carts: map<nat, ShoppingCart>, cartItems: seq<CartItem>,
                           orders: seq<Order>, orderItems: seq<OrderItem>, nextId: nat, user: User)
    requires OtherTablesValid(users, roles, books, categories, carts, orders, orderItems, nextId)
    requires CartItemsValid(cartItems, books, nextId)
    requires user.email !in users && user.id == nextId
    ensures OtherTablesValid(users[user.email := user], roles, books, categories, carts, orders, orderItems, nextId + 1)
    ensures CartItemsValid(cartItems, books, nextId + 1)
  {
    CounterGrows(users, roles, books, categories, carts, orders, orderItems, nextId, nextId + 1);
    UserAddedValid(users, nextId, user);
    ItemsCounterGrows(cartItems, books, nextId, nextId + 1);
  }

  class UserServiceImpl {
    const db: Db
    /** PasswordEncoder.encode, left uninterpreted. */
    const encode: string -> string

    constructor (db: Db, encode: string -> string)
      ensures this.db == db && this.encode == encode
    {
      this.db := db;
      this.encode := encode;
    }

    /** register: a taken email fails with "Email already in use" and a missing ROLE_USER with
        "Default role USER not found", both storing nothing; otherwise exactly one user is added
        under the request's email, with the next id, encode(password) and roles {ROLE_USER}, and
        the result carries its public fields. */
    method Register(request: UserRegistrationRequest) returns (r: Result<UserResponseDto>)
      requires db.Valid() && Complete(request)
      modifies db`users, db`nextId
      ensures db.Valid()
      ensures request.email.value in old(db.users) ==>
        && r == Err(Registration("Email already in use"))
        && db.users == old(db.users) && db.nextId == old(db.nextId)
      ensures request.email.value !in old(db.users) && ROLE_USER !in db.roles ==>
        && r == Err(Registration("Default role USER not found"))
        && db.users == old(db.users) && db.nextId == old(db.nextId)
      ensures request.email.value !in old(db.users) && ROLE_USER in db.roles ==>
        var user := NewUser(request, old(db.nextId), encode(request.password.value), db.roles[ROLE_USER]);
        && db.users == old(db.users)[user.email := user]
        && |db.users| == |old(db.users)| + 1
        && db.nextId == old(db.nextId) + 1
        && r == Ok(ToDto(user))
    {
      if request.email.value in db.users {
        return Err(Registration("Email already in use"));
      }
      var password := encode(request.password.value);
      if ROLE_USER !in db.roles {
        return Err(Registration("Default role USER not found"));
      }
      var users, id := db.users, db.nextId;
      var user := NewUser(request, id, password, db.roles[ROLE_USER]);
      RegisterKeepsValid(users, db.roles, db.books, db.categories, db.carts, db.cartItems,
                         db.orders, db.orderItems, id, user);
      db.SaveUsers(users[user.email := user], id + 1);
      r := Ok(ToDto(user));
    }

    /** Two registrations with the same request: once the first succeeds the second fails with
        "Email already in use" and stores nothing more; a first failure repeats itself. */
    method RegisterTwice(request: UserRegistrationRequest) returns (first: Result<UserResponseDto>, second: Result<UserResponseDto>)
      requires db.Valid() && Complete(request)
      modifies db`users, db`nextId
      ensures db.Valid()
      ensures first.Ok? ==> second == Err(Registration("Email already in use"))
      ensures first.Err? ==> second == first
      ensures first.Err? ==> db.users == old(db.users) && db.nextId == old(db.nextId)
      ensures first.Ok? ==>
        && ROLE_USER in db.roles
        && db.users == old(db.users)[request.email.value :=
             NewUser(request, old(db.nextId), encode(request.password.value), db.roles[ROLE_USER])]
        && db.nextId == old(db.nextId) + 1
    {
      first := Register(request);
      second := Register(request);
    }
  }
}
