/** The request rule sets of middleware/validate.js and the `validate` wrapper that
    runs every rule of a set and either answers 400 with all failures or passes the
    request on. JSON numbers are modelled as `real`, a missing text field as "". */
module Validation {
  import opened Common
  import opened ObjectIds
  import opened Orders

  /** The request field a rule reports on. */
  datatype Field =
    | Name | Email | Password | CurrentPassword | NewPassword
    | Title | Description | Price | DiscountPrice | Categories | Authors | Publisher
    | BookIdField | Quantity
    | FullName | Phone | Address | City | Payment | Role

  /** One validator of a rule chain after it has run: its field and whether it held. */
  datatype Check = Check(field: Field, ok: bool)

  /** What the wrapper does: call the next handler, or answer 400 with the failures. */
  datatype Verdict = Next | Reject(errors: seq<Field>)

  const MinPasswordLength := 6

  /** The fields of the failed checks, in rule order. */
  function Failures(checks: seq<Check>): (r: seq<Field>)
    ensures |r| <= |checks|
    ensures r == [] <==> forall c :: c in checks ==> c.ok
    ensures forall f :: f in r ==> Check(f, false) in checks
    ensures forall c :: c in checks && !c.ok ==> c.field in r
  {
    if checks == [] then []
    else if checks[0].ok then Failures(checks[1..])
    else [checks[0].field] + Failures(checks[1..])
  }

  /** The `validate` wrapper: the request goes on exactly when every check holds;
      otherwise the answer carries every failure. */
  function Validate(checks: seq<Check>): (r: Verdict)
    ensures r.Next? <==> forall c :: c in checks ==> c.ok
    ensures r.Reject? ==> r.errors == Failures(checks) && r.errors != []
    ensures r.Reject? ==> forall c :: c in checks && !c.ok ==> c.field in r.errors
  {
    var failed := Failures(checks);
    if failed == [] then Next else Reject(failed)
  }

  /** The JSON type of a request value, for the rules that check it. */
  datatype JsonKind = StringValue | NumberValue | BooleanValue | NullValue | ArrayValue | ObjectValue

  /** `optional().isString()`: a missing value passes, a present one must be a string
      (`null` is present). */
  predicate OptionalString(v: Option<JsonKind>) {
    v.None? || v.value == StringValue
  }

  predicate IsWhole(x: real) { x.Floor as real == x }

  /** `isInt({ min })` on a JSON number; a missing value fails. */
  predicate IsIntAtLeast(v: Option<real>, min: int) {
    v.Some? && IsWhole(v.value) && v.value >= min as real
  }

  /** The password rule shared by registration, password reset, password update and
      user creation: `isLength({ min: 6 })`. */
  function PasswordCheck(field: Field, password: string): (c: Check)
    ensures c.ok <==> |password| >= MinPasswordLength
  {
    Check(field, |password| >= MinPasswordLength)
  }

  /** Registration: a name, an e-mail address (the `isEmail` test is a parameter), a
      password of at least 6 characters, and a phone that, when sent, is a string. */
  function ValidateRegister(name: string, email: string, password: string, phone: Option<JsonKind>,
                            isEmail: string -> bool): (r: Verdict)
    ensures r.Next? <==>
      name != "" && isEmail(email) && |password| >= MinPasswordLength
      && (phone.None? || phone.value == StringValue)
    ensures r.Reject? && phone.Some? && phone.value != StringValue ==> Phone in r.errors
  {
    Validate([Check(Name, name != ""), Check(Email, isEmail(email)), PasswordCheck(Password, password),
              Check(Phone, OptionalString(phone))])
  }

  function ValidateResetPassword(password: string): (r: Verdict)
    ensures r.Next? <==> |password| >= MinPasswordLength
    ensures r.Reject? ==> r.errors == [Password]
  {
    Validate([PasswordCheck(Password, password)])
  }

  function ValidateUpdatePassword(currentPassword: string, newPassword: string): (r: Verdict)
    ensures r.Next? <==> currentPassword != "" && |newPassword| >= MinPasswordLength
  {
    Validate([Check(CurrentPassword, currentPassword != ""), PasswordCheck(NewPassword, newPassword)])
  }

  datatype BookRequest = BookRequest(
    title: string,
    description: string,
    price: Option<real>,
    discountPrice: Option<real>,
    categories: Option<seq<string>>,
    authors: Option<seq<string>>,
    publisher: string)

  /** The checks of the book rule set. The price must be a number and at least 0 (a
      missing price fails both). The optional discount is checked only when present,
      and fails only when it is non-zero (truthy) and not below a given price. */
  function BookChecks(req: BookRequest): seq<Check> {
    var priceNumeric := req.price.Some?;
    var priceNonNegative := req.price.Some? && req.price.value >= 0.0;
    var discountChecks :=
      match req.discountPrice
      case None => []
      case Some(d) =>
        [Check(DiscountPrice, true),
         Check(DiscountPrice, !(d != 0.0 && req.price.Some? && d >= req.price.value))];
    [Check(Title, req.title != ""), Check(Description, req.description != ""),
     Check(Price, priceNumeric), Check(Price, priceNonNegative)]
    + discountChecks
    + [Check(Categories, req.categories.Some? && |req.categories.value| >= 1),
       Check(Authors, req.authors.Some? && |req.authors.value| >= 1),
       Check(Publisher, req.publisher != "")]
  }

  function ValidateBookCreate(req: BookRequest): (r: Verdict)
    ensures r.Next? <==>
      && req.title != "" && req.description != ""
      && req.price.Some? && req.price.value >= 0.0
      && ((req.discountPrice.Some? && req.discountPrice.value != 0.0 && req.price.Some?)
            ==> req.discountPrice.value < req.price.value)
      && req.categories.Some? && |req.categories.value| >= 1
      && req.authors.Some? && |req.authors.value| >= 1
      && req.publisher != ""
  {
    var checks := BookChecks(req);
    assert req.discountPrice.Some? ==> checks[5].field == DiscountPrice;
    Validate(checks)
  }

  /** The two cart rule sets, `validateAddToCart` (book id from the body) and
      `validateUpdateQuantity` (book id from the path): a well-formed book id and an
      integer quantity of at least 1. */
  function ValidateCartItem(bookId: string, quantity: Option<real>): (r: Verdict)
    ensures r.Next? <==> IsMongoId(bookId) && quantity.Some? && IsWhole(quantity.value) && quantity.value >= 1.0
    ensures r.Reject? ==> forall f :: f in r.errors ==> f == BookIdField || f == Quantity
  {
    Validate([Check(BookIdField, IsMongoId(bookId)), Check(Quantity, IsIntAtLeast(quantity, 1))])
  }

  /** Order creation: the four address fields present and a known payment method. A
      request that passes yields an address and payment method the Order schema accepts. */
  function ValidateOrderCreate(address: AddressInput, paymentMethod: string): (r: Verdict)
    ensures r.Next? <==>
      address.fullName != "" && address.phone != "" && address.address != "" && address.city != ""
      && paymentMethod in {"COD", "Card", "VNPay", "PayPal"}
    ensures r.Next? ==> AddressAccepted(ToShippingAddress(address)) && ParsePayment(paymentMethod).Some?
  {
    Validate([
      Check(FullName, address.fullName != ""),
      Check(Phone, address.phone != ""),
      Check(Address, address.address != ""),
      Check(City, address.city != ""),
      Check(Payment, ParsePayment(paymentMethod).Some?)])
  }

  /** User creation (and update): a name, an e-mail, a password of at least 6
      characters, and a role that, when given, is "user" or "admin". */
  function ValidateUserCreate(name: string, email: string, password: string, role: Option<string>,
                              isEmail: string -> bool): (r: Verdict)
    ensures r.Next? <==>
      name != "" && isEmail(email) && |password| >= MinPasswordLength
      && (role.Some? ==> role.value == "user" || role.value == "admin")
  {
    var roleChecks := if role.Some? then [Check(Role, role.value == "user" || role.value == "admin")] else [];
    Validate([Check(Name, name != ""), Check(Email, isEmail(email)), PasswordCheck(Password, password)] + roleChecks)
  }
}
