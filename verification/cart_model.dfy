/** The Cart schema of models/Cart.js: line items, their constraints, and the
    `totalPrice` virtual. One cart per user is kept by the cart store's map. */
module Carts {
  import opened Common
  import opened Books

  /** A line item: a book reference and a quantity (default 1). */
  datatype CartItem = CartItem(book: BookId, quantity: int)

  /** Schema constraint `min: 1` on every line item's quantity; the custom quantity
      validator accepts every value, so no stock bound is checked here. */
  predicate QuantitiesPositive(items: seq<CartItem>) {
    forall i :: 0 <= i < |items| ==> items[i].quantity >= 1
  }

  /** No book has two line items. The cart handlers keep this when they match line
      items by the book the request names; matching by the request's text, as the
      handlers are written, can break it (see `CartController.CaseMismatchDuplicates`). */
  predicate NoDuplicateBooks(items: seq<CartItem>) {
    forall i, j :: 0 <= i < j < |items| ==> items[i].book != items[j].book
  }

  predicate WellFormed(items: seq<CartItem>) {
    QuantitiesPositive(items) && NoDuplicateBooks(items)
  }

  /** Every line item references a book the catalog holds, so populating it succeeds. */
  predicate AllListed(items: seq<CartItem>, books: map<BookId, Book>) {
    forall i :: 0 <= i < |items| ==> items[i].book in books
  }

  /** Total quantity of one book over the line items. */
  function QuantityOf(items: seq<CartItem>, id: BookId): int {
    if items == [] then 0
    else (if items[0].book == id then items[0].quantity else 0) + QuantityOf(items[1..], id)
  }

  lemma {:induction false} QuantityOfConcat(a: seq<CartItem>, b: seq<CartItem>, id: BookId)
    ensures QuantityOf(a + b, id) == QuantityOf(a, id) + QuantityOf(b, id)
  {
    if a == [] {
      assert a + b == b;
    } else {
      assert (a + b)[1..] == a[1..] + b;
      QuantityOfConcat(a[1..], b, id);
    }
  }

  /** A book with no line item has total quantity 0. */
  lemma {:induction false} QuantityOfAbsent(items: seq<CartItem>, id: BookId)
    requires forall i :: 0 <= i < |items| ==> items[i].book != id
    ensures QuantityOf(items, id) == 0
  {
    if items != [] {
      QuantityOfAbsent(items[1..], id);
    }
  }

  /** Without duplicates, a book's total quantity is the quantity of its one line item. */
  lemma {:induction false} QuantityOfUnique(items: seq<CartItem>, k: nat)
    requires NoDuplicateBooks(items) && k < |items|
    ensures QuantityOf(items, items[k].book) == items[k].quantity
  {
    var id := items[k].book;
    if k == 0 {
      QuantityOfAbsent(items[1..], id);
    } else {
      QuantityOfUnique(items[1..], k - 1);
    }
  }

  /** The `totalPrice` virtual: the sum of unit price times quantity over the line
      items, each book read from the catalog. */
  function TotalPrice(items: seq<CartItem>, books: map<BookId, Book>): (r: int)
    requires AllListed(items, books)
    ensures items == [] ==> r == 0
    ensures (QuantitiesPositive(items) &&
             forall i :: 0 <= i < |items| ==> ValidBook(books[items[i].book])) ==> r >= 0
  {
    if items == [] then 0
    else
      var p := UnitPrice(books[items[0].book]);
      assert p >= 0 ==> items[0].quantity >= 1 ==> p * items[0].quantity >= 0;
      p * items[0].quantity + TotalPrice(items[1..], books)
  }
}
