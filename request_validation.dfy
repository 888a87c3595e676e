// The Bean Validation constraints of the two request bodies whose fields the
// core checks: CreateBookRequestDto and UserRegistrationRequestDto, as the set
// of violations (property, message) a validator reports for a request.
module RequestValidation {
  import opened Common
  import opened Text
  import opened FieldMatch

  /** A violation of a field constraint: the property path and the interpolated message. */
  datatype FieldViolation = FieldViolation(property: string, message: string)

  /** @NotBlank on a property, as a violation set. */
  function NotBlankRule(property: string, value: Option<string>, message: string): (r: set<FieldViolation>)
    ensures r == {} <==> NotBlank(value)
    ensures r != {} ==> r == {FieldViolation(property, message)}
  {
    if NotBlank(value) then {} else {FieldViolation(property, message)}
  }

  /** @Size(max = ...): a null value is valid. */
  function MaxSizeRule(property: string, value: Option<string>, max: nat, message: string): (r: set<FieldViolation>)
    ensures r == {} <==> AtMost(value, max)
    ensures r != {} ==> r == {FieldViolation(property, message)}
  {
    if AtMost(value, max) then {} else {FieldViolation(property, message)}
  }

  /** @Size(min = ...): a null value is valid. */
  function MinSizeRule(property: string, value: Option<string>, min: nat, message: string): (r: set<FieldViolation>)
    ensures r == {} <==> (value.None? || |value.value| >= min)
    ensures r != {} ==> r == {FieldViolation(property, message)}
  {
    if value.None? || |value.value| >= min then {} else {FieldViolation(property, message)}
  }

  // ---- CreateBookRequestDto ----

  /** The request body of book creation; `price` is the exact decimal value, if given. */
  datatype CreateBookRequest = CreateBookRequest(
    title: Option<string>,
    author: Option<string>,
    isbn: Option<string>,
    price: Option<real>,
    description: Option<string>,
    coverImage: Option<string>,
    categoryIds: Option<set<int>>)

  /** @NotNull and @DecimalMin("0.0") inclusive: zero is accepted. */
  function PriceRule(price: Option<real>): (r: set<FieldViolation>)
    ensures r == {} <==> (price.Some? && price.value >= 0.0)
    ensures price.Some? && price.value < 0.0 ==> r == {FieldViolation("price", "Price must be zero or greater")}
  {
    if price.None? then {FieldViolation("price", "Price is required")}
    else if price.value < 0.0 then {FieldViolation("price", "Price must be zero or greater")}
    else {}
  }

  /** title: @NotBlank and @Size(max = 255); both can be reported at once. */
  function TitleViolations(title: Option<string>): set<FieldViolation>
  {
    NotBlankRule("title", title, "Title is required")
    + MaxSizeRule("title", title, 255, "Title can't be longer than 255 characters")
  }

  /** author: @NotBlank and @Size(max = 255). */
  function AuthorViolations(author: Option<string>): set<FieldViolation>
  {
    NotBlankRule("author", author, "Author is required")
    + MaxSizeRule("author", author, 255, "Author can't be longer than 255 characters")
  }

  /** isbn: @NotBlank and @Size(max = 20). */
  function IsbnViolations(isbn: Option<string>): set<FieldViolation>
  {
    NotBlankRule("isbn", isbn, "ISBN is required")
    + MaxSizeRule("isbn", isbn, 20, "ISBN can't be longer than 20 characters")
  }

  /** Every violation the constraints of CreateBookRequestDto report. */
  function BookViolations(r: CreateBookRequest): set<FieldViolation>
  {
    TitleViolations(r.title) + AuthorViolations(r.author) + IsbnViolations(r.isbn)
    + PriceRule(r.price)
    + MaxSizeRule("description", r.description, 2000, "Description can't be longer than 2000 characters")
    + MaxSizeRule("coverImage", r.coverImage, 255, "Cover image URL can't be longer than 255 characters")
  }

  /** A book request is valid exactly when each field meets its rule: title and author are
      non-blank and at most 255 characters, the isbn non-blank and at most 20, the price given
      and not negative, the optional description and cover image within 2000 and 255; the
      category ids are free. */
  lemma BookRequestValid(r: CreateBookRequest)
    ensures BookViolations(r) == {} <==>
      && NotBlank(r.title) && AtMost(r.title, 255)
      && NotBlank(r.author) && AtMost(r.author, 255)
      && NotBlank(r.isbn) && AtMost(r.isbn, 20)
      && r.price.Some? && r.price.value >= 0.0
      && AtMost(r.description, 2000) && AtMost(r.coverImage, 255)
  {
  }

  /** A blank title longer than 255 characters is reported twice, once per constraint. */
  lemma LongBlankTitle(title: Option<string>)
    requires title.Some? && |title.value| > 255 && !NotBlank(title)
    ensures TitleViolations(title) == {
      FieldViolation("title", "Title is required"),
      FieldViolation("title", "Title can't be longer than 255 characters")}
  {
  }

  // ---- UserRegistrationRequestDto ----

  /** The request body of registration. */
  datatype UserRegistrationRequest = UserRegistrationRequest(
    email: Option<string>,
    password: Option<string>,
    repeatPassword: Option<string>,
    firstName: Option<string>,
    lastName: Option<string>,
    shippingAddress: Option<string>)

  /** The request as the @FieldMatch validator reads it, property by property. */
  function AsBean(r: UserRegistrationRequest): Bean
  {
    map["email" := r.email, "password" := r.password, "repeatPassword" := r.repeatPassword,
        "firstName" := r.firstName, "lastName" := r.lastName, "shippingAddress" := r.shippingAddress]
  }

  /** @Email, whose address grammar is a parameter: a null value is valid. */
  function EmailRule(email: Option<string>, isEmail: string -> bool): (r: set<FieldViolation>)
    ensures r == {} <==> (email.None? || isEmail(email.value))
  {
    if email.None? || isEmail(email.value) then {} else {FieldViolation("email", "Email should be valid")}
  }

  /** @FieldMatch(first = "password", second = "repeatPassword"), reported on repeatPassword. */
  function PasswordsMatchRule(r: UserRegistrationRequest): (vs: set<FieldViolation>)
    ensures vs == {} <==> FieldsMatch(AsBean(r), "password", "repeatPassword")
  {
    if FieldsMatch(AsBean(r), "password", "repeatPassword") then {}
    else {FieldViolation("repeatPassword", "Passwords do not match")}
  }

  /** Every violation the field and class constraints of UserRegistrationRequestDto report. */
  function RegistrationViolations(r: UserRegistrationRequest, isEmail: string -> bool): set<FieldViolation>
  {
    NotBlankRule("email", r.email, "Email is required")
    + EmailRule(r.email, isEmail)
    + NotBlankRule("password", r.password, "Password is required")
    + MinSizeRule("password", r.password, 8, "Password must be at least 8 characters")
    + NotBlankRule("repeatPassword", r.repeatPassword, "Repeat password is required")
    + NotBlankRule("firstName", r.firstName, "First name is required")
    + NotBlankRule("lastName", r.lastName, "Last name is required")
    + PasswordsMatchRule(r)
  }

  /** A registration is valid exactly when the email is non-blank and well formed, the password
      non-blank, at least 8 characters and repeated identically, and both names non-blank; the
      shipping address is free. */
  lemma RegistrationValid(r: UserRegistrationRequest, isEmail: string -> bool)
    ensures RegistrationViolations(r, isEmail) == {} <==>
      && NotBlank(r.email) && isEmail(r.email.value)
      && NotBlank(r.password) && |r.password.value| >= 8
      && NotBlank(r.repeatPassword)
      && NotBlank(r.firstName) && NotBlank(r.lastName)
      && r.password == r.repeatPassword
  {
    var bean := AsBean(r);
    assert "password" in bean && "repeatPassword" in bean;
    assert bean["password"] == r.password && bean["repeatPassword"] == r.repeatPassword;
  }

  /** Differing passwords are reported on repeatPassword with "Passwords do not match". */
  lemma MismatchReported(r: UserRegistrationRequest, isEmail: string -> bool)
    requires r.password != r.repeatPassword
    ensures FieldViolation("repeatPassword", "Passwords do not match") in RegistrationViolations(r, isEmail)
  {
    var bean := AsBean(r);
    assert bean["password"] == r.password && bean["repeatPassword"] == r.repeatPassword;
  }
}
