/** The order handlers of controllers/order.controller.js: `createOrder` (pricing, the
    item snapshot, the stock decrement and the cart reset), `getSingleOrder`'s
    owner-or-admin check, `updateOrderStatus` and `cancelOrder`. The order collection is
    the `OrderStore` object's sequence, an order's id being its position. The stock
    loops are methods specified against `Reserved` and `Restored`, whose lemmas state
    that cancelling undoes creating. */
module OrderController {
  import opened Common
  import opened Books
  import opened Carts
  import opened Orders
  import BookController
  import CartController

  /** The error responses of the order handlers. `MissingBook` is the failure of
      reading a line item whose book the catalog no longer holds; `OrderRejected` is
      the order document failing its schema; `StockRejected` is a book save refused
      by `stock >= 0` in the middle of the stock loop, after the order was stored. */
  datatype OrderError =
    | EmptyCart
    | MissingBook
    | OrderRejected
    | StockRejected(order: OrderId, book: BookId)
    | InvalidStatus
    | NotFound
    | Forbidden
    | AlreadyCancelled
    | AlreadyDelivered

  const FreeShippingThreshold := 500000
  const FlatShippingFee := 30000
  const AdminRole := "admin"

  /** The four price fields of a new order. */
  datatype Pricing = Pricing(itemsPrice: int, shippingPrice: int, taxPrice: real, totalPrice: real)

  /** Shipping is free above 500000 and 30000 otherwise; the tax is a tenth of the
      items price, kept exact; the total is the sum of the three. */
  function PriceOrder(itemsPrice: int): (p: Pricing)
    ensures p.itemsPrice == itemsPrice
    ensures p.shippingPrice == 0 <==> itemsPrice > FreeShippingThreshold
    ensures p.shippingPrice != 0 ==> p.shippingPrice == FlatShippingFee
    ensures 10.0 * p.taxPrice == itemsPrice as real
    ensures p.totalPrice == itemsPrice as real + p.shippingPrice as real + p.taxPrice
    ensures itemsPrice >= 0 ==> p.totalPrice >= itemsPrice as real
  {
    var shipping := if itemsPrice > FreeShippingThreshold then 0 else FlatShippingFee;
    var tax := itemsPrice as real / 10.0;
    Pricing(itemsPrice, shipping, tax, itemsPrice as real + shipping as real + tax)
  }

  /** The order line for one cart entry: the book's id, title and cover image, the
      unit price `discountPrice || price`, and the cart quantity. */
  function Line(x: CartItem, books: map<BookId, Book>): OrderItem
    requires x.book in books
  {
    var b := books[x.book];
    OrderItem(x.book, b.title, b.coverImage, UnitPrice(b), x.quantity)
  }

  /** The item snapshot: one order line per cart entry, in cart order. */
  function Snapshot(s: seq<CartItem>, books: map<BookId, Book>): (r: seq<OrderItem>)
    requires AllListed(s, books)
    ensures |r| == |s|
    ensures forall i :: 0 <= i < |s| ==>
      && r[i].book == s[i].book
      && r[i].quantity == s[i].quantity
      && r[i].title == books[s[i].book].title
      && r[i].coverImage == books[s[i].book].coverImage
      && r[i].price == UnitPrice(books[s[i].book])
  {
    if s == [] then [] else [Line(s[0], books)] + Snapshot(s[1..], books)
  }

  /** The items price (the cart's `totalPrice` virtual over the same entries) is the
      sum of price times quantity over the snapshot lines. */
  lemma {:induction false} SnapshotTotal(s: seq<CartItem>, books: map<BookId, Book>)
    requires AllListed(s, books)
    ensures LinesTotal(Snapshot(s, books)) == TotalPrice(s, books)
  {
    if s != [] {
      var r := Snapshot(s, books);
      assert r[1..] == Snapshot(s[1..], books);
      SnapshotTotal(s[1..], books);
    }
  }

  /** The snapshot holds each book in the quantity the cart holds. */
  lemma {:induction false} SnapshotQuantity(s: seq<CartItem>, books: map<BookId, Book>, id: BookId)
    requires AllListed(s, books)
    ensures OrderQuantityOf(Snapshot(s, books), id) == QuantityOf(s, id)
  {
    if s != [] {
      var r := Snapshot(s, books);
      assert r[1..] == Snapshot(s[1..], books);
      SnapshotQuantity(s[1..], books, id);
    }
  }

  /** The order document `createOrder` stores, before the schema checks. */
  function BuildOrder(user: UserId, s: seq<CartItem>, books: map<BookId, Book>,
                      address: Option<AddressInput>, payment: PaymentMethod, notes: string): (o: Order)
    requires AllListed(s, books)
    ensures o.user == user && o.paymentMethod == payment && o.notes == notes
    ensures o.items == Snapshot(s, books) && |o.items| == |s|
    ensures o.itemsPrice == TotalPrice(s, books)
    ensures o.shippingAddress == (if address.Some? then Some(ToShippingAddress(address.value)) else None)
    ensures var p := PriceOrder(TotalPrice(s, books));
      o.shippingPrice == p.shippingPrice && o.taxPrice == p.taxPrice && o.totalPrice == p.totalPrice
    ensures o.orderStatus == DefaultStatus && o.deliveredAt.None? && o.cancelledAt.None?
  {
    var p := PriceOrder(TotalPrice(s, books));
    Order(user, Snapshot(s, books),
          if address.Some? then Some(ToShippingAddress(address.value)) else None,
          payment, p.itemsPrice, p.shippingPrice, p.taxPrice, p.totalPrice,
          DefaultStatus, notes, None, None)
  }

  /** A new order starts Pending with no timestamps, its `itemsPrice` is the sum over
      its lines, and its `totalPriceCalculated` virtual equals its stored total. */
  lemma {:induction false} BuildOrderTotals(user: UserId, s: seq<CartItem>, books: map<BookId, Book>,
                         address: Option<AddressInput>, payment: PaymentMethod, notes: string)
    requires AllListed(s, books)
    ensures var o := BuildOrder(user, s, books, address, payment, notes);
      && o.orderStatus == Pending && o.deliveredAt.None? && o.cancelledAt.None?
      && o.itemsPrice == LinesTotal(o.items)
      && TotalPriceCalculated(o) == o.totalPrice
  {
    SnapshotTotal(s, books);
  }

  /** From a well-formed cart of valid books the order schema can only reject the
      shipping address. */
  lemma {:induction false} BuildOrderValid(user: UserId, s: seq<CartItem>, books: map<BookId, Book>,
                        address: Option<AddressInput>, payment: PaymentMethod, notes: string)
    requires AllListed(s, books) && QuantitiesPositive(s)
    requires forall id :: id in books ==> ValidBook(books[id])
    ensures ValidOrder(BuildOrder(user, s, books, address, payment, notes)) <==>
      address.None? || AddressAccepted(ToShippingAddress(address.value))
  {
  }

  /** One copy sold: stock down and soldCount up by `q`. */
  function Take(b: Book, q: int): Book {
    b.(stock := b.stock - q, soldCount := b.soldCount + q)
  }

  /** One copy returned: stock up and soldCount down by `q`. */
  function Give(b: Book, q: int): Book {
    b.(stock := b.stock + q, soldCount := b.soldCount - q)
  }

  /** The catalog after the creation loop over entries `s`: each book present loses
      its cart quantity from stock and gains it in soldCount; absent books are skipped. */
  function Reserved(books: map<BookId, Book>, s: seq<CartItem>): (r: map<BookId, Book>)
    ensures r.Keys == books.Keys
  {
    map id | id in books :: Take(books[id], QuantityOf(s, id))
  }

  /** The catalog after the restoring loop over order lines `items`. */
  function Restored(books: map<BookId, Book>, items: seq<OrderItem>): (r: map<BookId, Book>)
    ensures r.Keys == books.Keys
  {
    map id | id in books :: Give(books[id], OrderQuantityOf(items, id))
  }

  /** What the two loops do to one book: the creation loop moves its cart quantity
      from stock to soldCount and the restoring loop moves its order quantity back;
      stock plus soldCount is unchanged, and so is every other field. */
  lemma {:induction false} StockMoves(books: map<BookId, Book>, s: seq<CartItem>, items: seq<OrderItem>, id: BookId)
    requires id in books
    ensures var b, r := books[id], Reserved(books, s)[id];
      && r.stock == b.stock - QuantityOf(s, id)
      && r.stock + r.soldCount == b.stock + b.soldCount
      && r.(stock := b.stock, soldCount := b.soldCount) == b
    ensures var b, r := books[id], Restored(books, items)[id];
      && r.stock == b.stock + OrderQuantityOf(items, id)
      && r.stock + r.soldCount == b.stock + b.soldCount
      && r.(stock := b.stock, soldCount := b.soldCount) == b
  {
  }

  /** The round trip: restoring the lines of the order made from a cart puts back
      exactly the stock and soldCount its creation took, for every book. */
  lemma {:induction false} CancelUndoesCreate(books: map<BookId, Book>, s: seq<CartItem>, snapshotBooks: map<BookId, Book>)
    requires AllListed(s, snapshotBooks)
    ensures Restored(Reserved(books, s), Snapshot(s, snapshotBooks)) == books
  {
    var items := Snapshot(s, snapshotBooks);
    forall id | id in books
      ensures Restored(Reserved(books, s), items)[id] == books[id]
    {
      SnapshotQuantity(s, snapshotBooks, id);
    }
  }

  /** `updateOrderStatus` restores stock on every move to Cancelled, so cancelling an
      order twice returns its copies twice: every book of the order ends up above the
      stock it had before the order was created. */
  lemma {:induction false} RecancelOverRestores(books: map<BookId, Book>, s: seq<CartItem>, k: nat)
    requires AllListed(s, books) && WellFormed(s) && k < |s|
    ensures var items := Snapshot(s, books);
      Restored(Restored(Reserved(books, s), items), items)[s[k].book].stock
        == books[s[k].book].stock + s[k].quantity
  {
    var items := Snapshot(s, books);
    SnapshotQuantity(s, books, s[k].book);
    QuantityOfUnique(s, k);
  }

  /** The save of a book is refused when taking `x.quantity` copies drives its stock
      below zero. */
  predicate Shortfall(books: map<BookId, Book>, x: CartItem) {
    x.book in books && books[x.book].stock < x.quantity
  }

  /** Without duplicate entries the stock invariant survives the creation loop exactly
      when no entry asks for more copies than its book has. */
  lemma {:induction false} ReservedValid(books: map<BookId, Book>, s: seq<CartItem>)
    requires NoDuplicateBooks(s)
    requires forall id :: id in books ==> ValidBook(books[id])
    ensures (forall id :: id in books ==> ValidBook(Reserved(books, s)[id])) <==>
      (forall i :: 0 <= i < |s| ==> !Shortfall(books, s[i]))
  {
    var r := Reserved(books, s);
    if forall id :: id in books ==> ValidBook(r[id]) {
      forall i | 0 <= i < |s|
        ensures !Shortfall(books, s[i])
      {
        if s[i].book in books {
          QuantityOfUnique(s, i);
          assert ValidBook(r[s[i].book]);
        }
      }
    }
    if forall i :: 0 <= i < |s| ==> !Shortfall(books, s[i]) {
      forall id | id in books
        ensures ValidBook(r[id])
      {
        CartController.CartQuantity(s, id);
        var k := CartController.IndexOf(s, id);
        if k >= 0 {
          assert !Shortfall(books, s[k]);
        }
      }
    }
  }

  /** One more loop step of the creation loop. */
  lemma {:induction false} ReservedStep(books: map<BookId, Book>, s: seq<CartItem>, i: nat)
    requires i < |s|
    ensures var before := Reserved(books, s[..i]);
      Reserved(books, s[..i + 1]) ==
        if s[i].book in books then before[s[i].book := Take(before[s[i].book], s[i].quantity)] else before
  {
    var before := Reserved(books, s[..i]);
    var after := if s[i].book in books then before[s[i].book := Take(before[s[i].book], s[i].quantity)] else before;
    assert s[..i + 1] == s[..i] + [s[i]];
    forall id | id in books
      ensures Reserved(books, s[..i + 1])[id] == after[id]
    {
      QuantityOfConcat(s[..i], [s[i]], id);
    }
  }

  lemma {:induction false} OrderQuantityOfConcat(a: seq<OrderItem>, b: seq<OrderItem>, id: BookId)
    ensures OrderQuantityOf(a + b, id) == OrderQuantityOf(a, id) + OrderQuantityOf(b, id)
  {
    if a == [] {
      assert a + b == b;
    } else {
      assert (a + b)[1..] == a[1..] + b;
      OrderQuantityOfConcat(a[1..], b, id);
    }
  }

  /** One more loop step of the restoring loop. */
  lemma {:induction false} RestoredStep(books: map<BookId, Book>, items: seq<OrderItem>, i: nat)
    requires i < |items|
    ensures var before := Restored(books, items[..i]);
      Restored(books, items[..i + 1]) ==
        if items[i].book in books then before[items[i].book := Give(before[items[i].book], items[i].quantity)] else before
  {
    var before := Restored(books, items[..i]);
    var after := if items[i].book in books then before[items[i].book := Give(before[items[i].book], items[i].quantity)] else before;
    assert items[..i + 1] == items[..i] + [items[i]];
    forall id | id in books
      ensures Restored(books, items[..i + 1])[id] == after[id]
    {
      OrderQuantityOfConcat(items[..i], [items[i]], id);
    }
  }

  /** Without duplicates, the loop reaches each book with its stock untouched. */
  lemma {:induction false} ReservedAt(books: map<BookId, Book>, s: seq<CartItem>, i: nat)
    requires NoDuplicateBooks(s) && i < |s| && s[i].book in books
    ensures Reserved(books, s[..i])[s[i].book] == books[s[i].book]
  {
    QuantityOfAbsent(s[..i], s[i].book);
  }

  /** The creation loop (order.controller.js:50-57): for each entry whose book exists,
      take its quantity and save. The first save refused by `stock >= 0` stops the loop
      with the earlier books already saved; `failed` is that entry's index. */
  method ReserveStock(catalog: BookController.Catalog, s: seq<CartItem>) returns (failed: Option<nat>)
    requires catalog.Valid() && NoDuplicateBooks(s)
    modifies catalog
    ensures catalog.Valid()
    ensures failed.None? ==>
      && (forall i :: 0 <= i < |s| ==> !Shortfall(old(catalog.books), s[i]))
      && catalog.books == Reserved(old(catalog.books), s)
    ensures failed.Some? ==>
      && failed.value < |s|
      && Shortfall(old(catalog.books), s[failed.value])
      && (forall i :: 0 <= i < failed.value ==> !Shortfall(old(catalog.books), s[i]))
      && catalog.books == Reserved(old(catalog.books), s[..failed.value])
  {
    ghost var books0 := catalog.books;
    assert s[..0] == [];
    assert Reserved(books0, s[..0]) == books0;
    var i := 0;
    while i < |s|
      invariant 0 <= i <= |s|
      invariant catalog.Valid()
      invariant catalog.books == Reserved(books0, s[..i])
      invariant forall j :: 0 <= j < i ==> !Shortfall(books0, s[j])
    {
      var x := s[i];
      ReservedStep(books0, s, i);
      if x.book in catalog.books {
        assert x.book in books0;
        ReservedAt(books0, s, i);
        var book := catalog.books[x.book];
        if book.stock - x.quantity < 0 {
          return Some(i);
        }
        assert ValidBook(Take(book, x.quantity));
        catalog.books := catalog.books[x.book := Take(book, x.quantity)];
      }
      i := i + 1;
    }
    assert s[..i] == s;
    failed := None;
  }

  /** The restoring loop (order.controller.js:196-203 and 265-272): for each line whose
      book exists, give its quantity back. */
  method RestoreStock(catalog: BookController.Catalog, items: seq<OrderItem>)
    requires catalog.Valid()
    requires forall i :: 0 <= i < |items| ==> ValidOrderItem(items[i])
    modifies catalog
    ensures catalog.Valid()
    ensures catalog.books == Restored(old(catalog.books), items)
  {
    ghost var books0 := catalog.books;
    assert items[..0] == [];
    assert Restored(books0, items[..0]) == books0;
    var i := 0;
    while i < |items|
      invariant 0 <= i <= |items|
      invariant catalog.Valid()
      invariant catalog.books == Restored(books0, items[..i])
    {
      var x := items[i];
      RestoredStep(books0, items, i);
      if x.book in catalog.books {
        var book := catalog.books[x.book];
        catalog.books := catalog.books[x.book := Give(book, x.quantity)];
      }
      i := i + 1;
    }
    assert items[..i] == items;
  }

  /** Who may read or cancel an order: its owner, or an admin. */
  predicate MayAccess(o: Order, caller: UserId, role: string)
    ensures role == AdminRole ==> MayAccess(o, caller, role)
    ensures role != AdminRole ==> (MayAccess(o, caller, role) <==> o.user == caller)
  {
    o.user == caller || role == AdminRole
  }

  /** The order after `updateOrderStatus` sets `status` at time `now`. */
  function WithStatus(o: Order, status: OrderStatus, now: int): (r: Order)
    ensures r.orderStatus == status
    ensures r.deliveredAt == if status == Delivered then Some(now) else o.deliveredAt
    ensures r.cancelledAt == if status == Cancelled then Some(now) else o.cancelledAt
    ensures r.(orderStatus := o.orderStatus, deliveredAt := o.deliveredAt, cancelledAt := o.cancelledAt) == o
    ensures ValidOrder(o) ==> ValidOrder(r)
  {
    var o' := o.(orderStatus := status);
    if status == Delivered then o'.(deliveredAt := Some(now))
    else if status == Cancelled then o'.(cancelledAt := Some(now))
    else o'
  }

  /** The order collection. */
  class OrderStore {
    var orders: seq<Order>

    ghost predicate Valid()
      reads this
    {
      forall i :: 0 <= i < |orders| ==> ValidOrder(orders[i])
    }

    constructor ()
      ensures Valid() && orders == []
    {
      orders := [];
    }

    /** `createOrder` for `user`. An empty or missing cart, a line item whose book is
        gone, or an order document the schema refuses changes nothing. Otherwise the
        order is stored, the stock loop runs, and only when every save went through is
        the cart emptied. */
    method CreateOrder(user: UserId, address: Option<AddressInput>, payment: string, notes: string,
                       catalog: BookController.Catalog, carts: CartController.CartStore)
      returns (r: Result<OrderId, OrderError>)
      requires Valid() && catalog.Valid() && carts.Valid()
      modifies this, catalog, carts
      ensures Valid() && catalog.Valid() && carts.Valid()
      ensures var s := CartController.ItemsOf(old(carts.carts), user);
        s == [] ==> r == Err(EmptyCart)
      ensures var s := CartController.ItemsOf(old(carts.carts), user);
        s != [] && !AllListed(s, old(catalog.books)) ==> r == Err(MissingBook)
      ensures var s := CartController.ItemsOf(old(carts.carts), user);
        s != [] && AllListed(s, old(catalog.books)) &&
        (ParsePayment(payment).None? ||
         !ValidOrder(BuildOrder(user, s, old(catalog.books), address, ParsePayment(payment).value, notes)))
        ==> r == Err(OrderRejected)
      ensures r.Err? && !r.error.StockRejected? ==>
        orders == old(orders) && catalog.books == old(catalog.books) && carts.carts == old(carts.carts)
      ensures r.Ok? || r.error.StockRejected? ==>
        var s := CartController.ItemsOf(old(carts.carts), user);
        && s != [] && AllListed(s, old(catalog.books))
        && ParsePayment(payment).Some?
        && orders == old(orders) + [BuildOrder(user, s, old(catalog.books), address, ParsePayment(payment).value, notes)]
      ensures r.Ok? ==>
        var s := CartController.ItemsOf(old(carts.carts), user);
        && r.value == |old(orders)|
        && (forall i :: 0 <= i < |s| ==> !Shortfall(old(catalog.books), s[i]))
        && catalog.books == Reserved(old(catalog.books), s)
        && carts.carts == old(carts.carts)[user := []]
      ensures r.Err? && r.error.StockRejected? ==>
        var s := CartController.ItemsOf(old(carts.carts), user);
        exists k :: 0 <= k < |s|
          && r.error == StockRejected(|old(orders)|, s[k].book)
          && Shortfall(old(catalog.books), s[k])
          && (forall i :: 0 <= i < k ==> !Shortfall(old(catalog.books), s[i]))
          && catalog.books == Reserved(old(catalog.books), s[..k])
          && carts.carts == old(carts.carts)
    {
      var s := CartController.ItemsOf(carts.carts, user);
      if s == [] {
        return Err(EmptyCart);
      }
      if !AllListed(s, catalog.books) {
        return Err(MissingBook);
      }
      var payment' := ParsePayment(payment);
      if payment'.None? {
        return Err(OrderRejected);
      }
      var order := BuildOrder(user, s, catalog.books, address, payment'.value, notes);
      if !ValidOrder(order) {
        return Err(OrderRejected);
      }
      var id := |orders|;
      orders := orders + [order];
      var failed := ReserveStock(catalog, s);
      if failed.Some? {
        return Err(StockRejected(id, s[failed.value].book));
      }
      var _ := carts.ClearCart(user);
      r := Ok(id);
    }

    /** `getSingleOrder`: a missing order answers 404, a caller who is neither its
        owner nor an admin 403; nothing changes. */
    method GetSingleOrder(id: OrderId, caller: UserId, role: string) returns (r: Result<Order, OrderError>)
      ensures id >= |orders| ==> r == Err(NotFound)
      ensures id < |orders| && !MayAccess(orders[id], caller, role) ==> r == Err(Forbidden)
      ensures r.Ok? <==> id < |orders| && MayAccess(orders[id], caller, role)
      ensures r.Ok? ==> r.value == orders[id]
    {
      if id >= |orders| {
        return Err(NotFound);
      }
      if orders[id].user != caller && role != AdminRole {
        return Err(Forbidden);
      }
      r := Ok(orders[id]);
    }

    /** `updateOrderStatus`: an unknown status is refused before the order is looked
        up, then a missing order; otherwise the status is set, Delivered stamps
        `deliveredAt`, and Cancelled stamps `cancelledAt` and restores the stock of
        every line whatever the previous status was. */
    method UpdateOrderStatus(id: OrderId, status: string, now: int, catalog: BookController.Catalog)
      returns (r: Result<Order, OrderError>)
      requires Valid() && catalog.Valid()
      modifies this, catalog
      ensures Valid() && catalog.Valid()
      ensures ParseStatus(status).None? ==> r == Err(InvalidStatus)
      ensures ParseStatus(status).Some? && id >= |old(orders)| ==> r == Err(NotFound)
      ensures r.Err? ==> orders == old(orders) && catalog.books == old(catalog.books)
      ensures r.Ok? <==> ParseStatus(status).Some? && id < |old(orders)|
      ensures r.Ok? ==>
        var st := ParseStatus(status).value;
        && r.value == WithStatus(old(orders)[id], st, now)
        && orders == old(orders)[id := r.value]
        && catalog.books == if st == Cancelled then Restored(old(catalog.books), old(orders)[id].items)
                            else old(catalog.books)
    {
      var st := ParseStatus(status);
      if st.None? {
        return Err(InvalidStatus);
      }
      if id >= |orders| {
        return Err(NotFound);
      }
      var order := orders[id];
      var updated := order.(orderStatus := st.value);
      if st.value == Delivered {
        updated := updated.(deliveredAt := Some(now));
      } else if st.value == Cancelled {
        updated := updated.(cancelledAt := Some(now));
        RestoreStock(catalog, order.items);
      }
      orders := orders[id := updated];
      r := Ok(updated);
    }

    /** `cancelOrder`: a missing order, a caller who is neither owner nor admin, an
        order already cancelled and an order delivered are refused with nothing
        changed; otherwise the order becomes Cancelled, `cancelledAt` is stamped and
        every line's stock is restored. */
    method CancelOrder(id: OrderId, caller: UserId, role: string, now: int, catalog: BookController.Catalog)
      returns (r: Result<Order, OrderError>)
      requires Valid() && catalog.Valid()
      modifies this, catalog
      ensures Valid() && catalog.Valid()
      ensures id >= |old(orders)| ==> r == Err(NotFound)
      ensures id < |old(orders)| ==>
        var o := old(orders)[id];
        && (!MayAccess(o, caller, role) ==> r == Err(Forbidden))
        && (MayAccess(o, caller, role) && o.orderStatus == Cancelled ==> r == Err(AlreadyCancelled))
        && (MayAccess(o, caller, role) && o.orderStatus == Delivered ==> r == Err(AlreadyDelivered))
      ensures r.Err? ==> orders == old(orders) && catalog.books == old(catalog.books)
      ensures r.Ok? <==>
        && id < |old(orders)|
        && MayAccess(old(orders)[id], caller, role)
        && old(orders)[id].orderStatus !in {Cancelled, Delivered}
      ensures r.Ok? ==>
        && r.value == old(orders)[id].(orderStatus := Cancelled, cancelledAt := Some(now))
        && orders == old(orders)[id := r.value]
        && catalog.books == Restored(old(catalog.books), old(orders)[id].items)
    {
      if id >= |orders| {
        return Err(NotFound);
      }
      var order := orders[id];
      if order.user != caller && role != AdminRole {
        return Err(Forbidden);
      }
      if order.orderStatus == Cancelled {
        return Err(AlreadyCancelled);
      }
      if order.orderStatus == Delivered {
        return Err(AlreadyDelivered);
      }
      var updated := order.(orderStatus := Cancelled, cancelledAt := Some(now));
      RestoreStock(catalog, order.items);
      orders := orders[id := updated];
      r := Ok(updated);
    }
  }
}
