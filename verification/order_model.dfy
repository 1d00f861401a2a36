/** The Order schema of models/Order.js: the status and payment enumerations, the
    shipping address, the item snapshot and the `totalPriceCalculated` virtual. */
module Orders {
  import opened Common

  datatype OrderStatus = Pending | Processing | Shipped | Delivered | Cancelled

  datatype PaymentMethod = COD | Card | VNPay | PayPal

  const DefaultStatus := Pending
  const DefaultCountry := "Việt Nam"

  function StatusName(s: OrderStatus): string {
    match s
    case Pending => "Pending"
    case Processing => "Processing"
    case Shipped => "Shipped"
    case Delivered => "Delivered"
    case Cancelled => "Cancelled"
  }

  /** The status enumeration check: a string names a status exactly when it is one
      of the five names. */
  function ParseStatus(s: string): (r: Option<OrderStatus>)
    ensures r.Some? ==> StatusName(r.value) == s
    ensures forall st :: StatusName(st) == s ==> r == Some(st)
  {
    if s == "Pending" then Some(Pending)
    else if s == "Processing" then Some(Processing)
    else if s == "Shipped" then Some(Shipped)
    else if s == "Delivered" then Some(Delivered)
    else if s == "Cancelled" then Some(Cancelled)
    else None
  }

  function PaymentName(p: PaymentMethod): string {
    match p
    case COD => "COD"
    case Card => "Card"
    case VNPay => "VNPay"
    case PayPal => "PayPal"
  }

  /** The payment enumeration check: COD, Card, VNPay or PayPal, nothing else. */
  function ParsePayment(s: string): (r: Option<PaymentMethod>)
    ensures r.Some? ==> PaymentName(r.value) == s
    ensures forall p :: PaymentName(p) == s ==> r == Some(p)
  {
    if s == "COD" then Some(COD)
    else if s == "Card" then Some(Card)
    else if s == "VNPay" then Some(VNPay)
    else if s == "PayPal" then Some(PayPal)
    else None
  }

  datatype ShippingAddress = ShippingAddress(
    fullName: string, phone: string, address: string, city: string, country: string)

  /** A shipping address as a request supplies it: the country may be missing. */
  datatype AddressInput = AddressInput(
    fullName: string, phone: string, address: string, city: string, country: Option<string>)

  /** The stored address: every given field copied, a missing country defaulted. */
  function ToShippingAddress(a: AddressInput): (r: ShippingAddress)
    ensures r.fullName == a.fullName && r.phone == a.phone
    ensures r.address == a.address && r.city == a.city
    ensures a.country.None? ==> r.country == DefaultCountry
    ensures a.country.Some? ==> r.country == a.country.value
  {
    ShippingAddress(a.fullName, a.phone, a.address, a.city, a.country.GetOr(DefaultCountry))
  }

  /** The `required` constraints of the address sub-document (an empty string fails them). */
  predicate AddressAccepted(a: ShippingAddress) {
    a.fullName != "" && a.phone != "" && a.address != "" && a.city != ""
  }

  /** A line of the order: copies of the book's id, title and cover image, the unit
      price at purchase time, and the quantity. */
  datatype OrderItem = OrderItem(book: BookId, title: string, coverImage: string, price: int, quantity: int)

  predicate ValidOrderItem(it: OrderItem) {
    it.title != "" && it.quantity >= 1
  }

  datatype Order = Order(
    user: UserId,
    items: seq<OrderItem>,
    shippingAddress: Option<ShippingAddress>,
    paymentMethod: PaymentMethod,
    itemsPrice: int,
    shippingPrice: int,
    taxPrice: real,
    totalPrice: real,
    orderStatus: OrderStatus,
    notes: string,
    deliveredAt: Option<int>,
    cancelledAt: Option<int>)

  /** The schema constraints of an order: every line valid, and a given address
      complete. A valid order holds no book a negative number of times, so restoring
      its lines never takes stock away. */
  predicate ValidOrder(o: Order)
    ensures ValidOrder(o) ==> forall id :: OrderQuantityOf(o.items, id) >= 0
  {
    var ok :=
      && (forall i :: 0 <= i < |o.items| ==> ValidOrderItem(o.items[i]))
      && (o.shippingAddress.Some? ==> AddressAccepted(o.shippingAddress.value));
    if ok then OrderQuantitiesNonNegative(o.items); ok else ok
  }

  /** Sum of price times quantity over the order lines. */
  function LinesTotal(items: seq<OrderItem>): (r: int)
    ensures items == [] ==> r == 0
    ensures (forall i :: 0 <= i < |items| ==> items[i].price >= 0 && items[i].quantity >= 0) ==> r >= 0
  {
    if items == [] then 0
    else
      assert items[0].price >= 0 ==> items[0].quantity >= 0 ==> items[0].price * items[0].quantity >= 0;
      items[0].price * items[0].quantity + LinesTotal(items[1..])
  }

  /** The `totalPriceCalculated` virtual: the lines' total plus shipping and tax. It
      is never below the lines' total when shipping and tax are not negative, and
      never negative when the lines are not either. */
  function TotalPriceCalculated(o: Order): (r: real)
    ensures o.shippingPrice >= 0 && o.taxPrice >= 0.0 ==> r >= LinesTotal(o.items) as real
    ensures ((forall i :: 0 <= i < |o.items| ==> o.items[i].price >= 0 && o.items[i].quantity >= 0)
             && o.shippingPrice >= 0 && o.taxPrice >= 0.0) ==> r >= 0.0
  {
    LinesTotal(o.items) as real + o.shippingPrice as real + o.taxPrice
  }

  /** Total quantity of one book over the order lines. */
  function OrderQuantityOf(items: seq<OrderItem>, id: BookId): int {
    if items == [] then 0
    else (if items[0].book == id then items[0].quantity else 0) + OrderQuantityOf(items[1..], id)
  }

  /** Order lines with positive quantities hold no book negatively. */
  lemma {:induction false} OrderQuantitiesNonNegative(items: seq<OrderItem>)
    requires forall i :: 0 <= i < |items| ==> ValidOrderItem(items[i])
    ensures forall id :: OrderQuantityOf(items, id) >= 0
  {
    if items != [] {
      OrderQuantitiesNonNegative(items[1..]);
    }
  }
}
