/** The cart handlers of controllers/cart.controller.js. Each user's cart is the
    line-item sequence stored under that user in the `CartStore` object's map (the
    schema's unique `user` key makes it a map). Every handler that changes a cart is
    specified against a pure function on line items (`AddToItems`, `UpdateItems`,
    `RemoveBook`), whose lemmas state what the handler keeps.

    The handlers receive the book id as request text. The handlers as written find a
    line item by comparing each stored id's text with that request text, which misses
    the line item when the request spells the hexadecimal digits in upper case
    (`AddToItemsAsWritten`, `UpdateItemsAsWritten`, `RemoveText` and the lemmas
    `CaseMismatchDuplicates` and `CaseMismatchMissesLine`). The
    `CartStore` methods model the evident intent instead: the request text is cast to
    the ObjectId it names, as `findById` casts it, and line items are matched by that
    id. */
module CartController {
  import opened Common
  import opened Books
  import opened Carts
  import opened ObjectIds
  import BookController

  /** The error responses of the cart handlers: 404 for a missing or inactive book, a
      missing cart or a missing line item; 400 for a non-positive quantity or
      insufficient stock (reporting the stock left); 500 when the book id does not
      cast to an ObjectId and `findById` throws. */
  datatype CartError = InvalidId | BookNotFound | CartNotFound | ItemNotFound | InvalidQuantity | OutOfStock(available: int)

  /** The quantity `addToCart` adds when the request gives none. */
  const DefaultAddQuantity := 1

  /** `findIndex` on the book reference: the first line item for the book, or -1. */
  function IndexOf(items: seq<CartItem>, id: BookId): (k: int)
    ensures -1 <= k < |items|
    ensures k == -1 <==> forall i :: 0 <= i < |items| ==> items[i].book != id
    ensures k >= 0 ==> items[k].book == id && forall i :: 0 <= i < k ==> items[i].book != id
  {
    if items == [] then -1
    else if items[0].book == id then 0
    else
      var k := IndexOf(items[1..], id);
      if k == -1 then -1 else k + 1
  }

  /** `filter` on the book reference: every line item except those for the book, in order. */
  function RemoveBook(items: seq<CartItem>, id: BookId): (r: seq<CartItem>)
    ensures |r| <= |items|
    ensures forall i :: 0 <= i < |r| ==> r[i].book != id
  {
    if items == [] then []
    else (if items[0].book == id then [] else [items[0]]) + RemoveBook(items[1..], id)
  }

  /** Filtering keeps exactly the line items for other books. */
  lemma {:induction false} RemoveBookMembers(items: seq<CartItem>, id: BookId)
    ensures forall x :: x in RemoveBook(items, id) <==> x in items && x.book != id
  {
    if items != [] {
      RemoveBookMembers(items[1..], id);
      assert forall x :: x in items <==> x == items[0] || x in items[1..];
    }
  }

  /** The line items of a user's cart; a user without a cart has none. */
  function ItemsOf(carts: map<UserId, seq<CartItem>>, user: UserId): seq<CartItem> {
    if user in carts then carts[user] else []
  }

  /** The catalog lookup of `Book.findById`. */
  function FindBook(books: map<BookId, Book>, id: BookId): (r: Option<Book>)
    ensures r.Some? <==> id in books
    ensures r.Some? ==> r.value == books[id]
  {
    if id in books then Some(books[id]) else None
  }

  lemma {:induction false} RemoveBookConcat(a: seq<CartItem>, b: seq<CartItem>, id: BookId)
    ensures RemoveBook(a + b, id) == RemoveBook(a, id) + RemoveBook(b, id)
  {
    if a == [] {
      assert a + b == b;
    } else {
      assert (a + b)[1..] == a[1..] + b;
      RemoveBookConcat(a[1..], b, id);
    }
  }

  /** Filtering out a book the items do not hold changes nothing. */
  lemma {:induction false} RemoveBookAbsent(items: seq<CartItem>, id: BookId)
    requires forall i :: 0 <= i < |items| ==> items[i].book != id
    ensures RemoveBook(items, id) == items
  {
    if items != [] {
      RemoveBookAbsent(items[1..], id);
    }
  }

  /** Filtering is idempotent. */
  lemma {:induction false} RemoveBookTwice(items: seq<CartItem>, id: BookId)
    ensures RemoveBook(RemoveBook(items, id), id) == RemoveBook(items, id)
  {
    RemoveBookAbsent(RemoveBook(items, id), id);
  }

  /** Filtering a book out of `pre + [x] + post`, where `x` is for that book. */
  lemma {:induction false} RemoveAround(pre: seq<CartItem>, x: CartItem, post: seq<CartItem>)
    ensures RemoveBook(pre + [x] + post, x.book) == RemoveBook(pre, x.book) + RemoveBook(post, x.book)
  {
    var id := x.book;
    RemoveBookConcat(pre + [x], post, id);
    RemoveBookConcat(pre, [x], id);
    assert RemoveBook([x], id) == [] by {
      assert [x][1..] == [];
    }
    assert RemoveBook(pre, id) + [] == RemoveBook(pre, id);
  }

  /** Without duplicates, filtering a book out is the `splice` of its one line item. */
  lemma {:induction false} RemoveBookSplice(items: seq<CartItem>, k: nat)
    requires NoDuplicateBooks(items) && k < |items|
    ensures RemoveBook(items, items[k].book) == items[..k] + items[k + 1..]
  {
    var id := items[k].book;
    var pre, post := items[..k], items[k + 1..];
    assert items == pre + [items[k]] + post;
    RemoveAround(pre, items[k], post);
    forall i | 0 <= i < |pre|
      ensures pre[i].book != id
    {
      assert pre[i] == items[i];
    }
    forall i | 0 <= i < |post|
      ensures post[i].book != id
    {
      assert post[i] == items[k + 1 + i];
    }
    RemoveBookAbsent(pre, id);
    RemoveBookAbsent(post, id);
  }

  /** Filtering a book out leaves every other book's quantity and zeroes its own. */
  lemma {:induction false} QuantityOfRemoved(items: seq<CartItem>, id: BookId, other: BookId)
    ensures QuantityOf(RemoveBook(items, id), other) == if other == id then 0 else QuantityOf(items, other)
  {
    if items != [] {
      var head := if items[0].book == id then [] else [items[0]];
      QuantityOfConcat(head, RemoveBook(items[1..], id), other);
      QuantityOfRemoved(items[1..], id, other);
    }
  }

  /** Filtering keeps a cart well formed. */
  lemma {:induction false} RemoveBookWellFormed(items: seq<CartItem>, id: BookId)
    requires WellFormed(items)
    ensures WellFormed(RemoveBook(items, id))
  {
    if items != [] {
      var rest := RemoveBook(items[1..], id);
      RemoveBookWellFormed(items[1..], id);
      if items[0].book != id {
        var r := [items[0]] + rest;
        forall i, j | 0 <= i < j < |r|
          ensures r[i].book != r[j].book
        {
          if i == 0 {
            RemoveBookMembers(items[1..], id);
            assert r[j] in rest;
          }
        }
      }
    }
  }

  /** The line-item update of `addToCart` for an active book with `stock` copies left:
      an existing line item gets `delta` more copies and is spliced out when its
      quantity drops to zero or below; a new book is pushed when `delta` is positive.
      A quantity above the stock is refused. */
  function AddToItems(s: seq<CartItem>, bookId: BookId, delta: int, stock: int): (r: Result<seq<CartItem>, CartError>)
    ensures r.Err? ==> r == Err(OutOfStock(stock))
    ensures r.Ok? ==> |r.value| <= |s| + 1
    ensures r.Ok? ==> forall i :: 0 <= i < |r.value| ==> r.value[i] in s || r.value[i].book == bookId
  {
    var k := IndexOf(s, bookId);
    if k >= 0 then
      var newQ := s[k].quantity + delta;
      if newQ <= 0 then
        var r := s[..k] + s[k + 1..];
        assert forall i :: 0 <= i < |r| ==> r[i] == s[if i < k then i else i + 1];
        Ok(r)
      else if stock < newQ then Err(OutOfStock(stock))
      else
        var r := s[k := CartItem(bookId, newQ)];
        assert forall i :: 0 <= i < |r| && i != k ==> r[i] == s[i];
        Ok(r)
    else if stock < delta then Err(OutOfStock(stock))
    else if delta > 0 then
      var r := s + [CartItem(bookId, delta)];
      assert forall i :: 0 <= i < |s| ==> r[i] == s[i];
      Ok(r)
    else Ok(s)
  }

  /** `findIndex` as written: each stored id's text compared with the request text. */
  function IndexOfText(items: seq<CartItem>, text: string): (k: int)
    ensures -1 <= k < |items|
    ensures k == -1 <==> forall i :: 0 <= i < |items| ==> IdText(items[i].book) != text
    ensures k >= 0 ==> IdText(items[k].book) == text && forall i :: 0 <= i < k ==> IdText(items[i].book) != text
  {
    if items == [] then -1
    else if IdText(items[0].book) == text then 0
    else
      var k := IndexOfText(items[1..], text);
      if k == -1 then -1 else k + 1
  }

  /** `filter` as written: drops the line items whose id's text equals the request text. */
  function RemoveText(items: seq<CartItem>, text: string): (r: seq<CartItem>)
    ensures |r| <= |items|
    ensures forall i :: 0 <= i < |r| ==> IdText(r[i].book) != text
  {
    if items == [] then []
    else (if IdText(items[0].book) == text then [] else [items[0]]) + RemoveText(items[1..], text)
  }

  /** Stored book references are ObjectId values. */
  predicate IdsInRange(items: seq<CartItem>) {
    forall i :: 0 <= i < |items| ==> items[i].book < ObjectIdBound
  }

  /** Comparing text finds what comparing the cast id finds when the request text is in
      lower case, and finds nothing when it is not. */
  lemma {:induction false} IndexOfTextMatches(items: seq<CartItem>, text: string)
    requires IdsInRange(items)
    ensures IndexOfText(items, text) ==
      if IsObjectIdText(text) then IndexOf(items, CastObjectId(text).value) else -1
  {
    if items != [] {
      TextMatchesId(items[0].book, text);
      IndexOfTextMatches(items[1..], text);
    }
  }

  /** Filtering by text removes what filtering by the cast id removes when the request
      text is in lower case, and removes nothing when it is not. */
  lemma {:induction false} RemoveTextMatches(items: seq<CartItem>, text: string)
    requires IdsInRange(items)
    ensures RemoveText(items, text) ==
      if IsObjectIdText(text) then RemoveBook(items, CastObjectId(text).value) else items
  {
    if items != [] {
      TextMatchesId(items[0].book, text);
      RemoveTextMatches(items[1..], text);
      assert items == [items[0]] + items[1..];
    }
  }

  /** `addToCart` as written: the line item is found by text, while the book lookup and
      the pushed line item use the ObjectId the text casts to. With the request text in
      lower case this is `AddToItems` for that id; otherwise the book is always pushed
      as a new line item, whatever the cart holds. */
  function AddToItemsAsWritten(s: seq<CartItem>, text: string, delta: int, stock: int): (r: Result<seq<CartItem>, CartError>)
    requires IsObjectIdHex(text)
    ensures IdsInRange(s) && IsObjectIdText(text) ==> r == AddToItems(s, CastObjectId(text).value, delta, stock)
    ensures (IdsInRange(s) && !IsObjectIdText(text) && 0 < delta <= stock) ==>
      r == Ok(s + [CartItem(CastObjectId(text).value, delta)])
  {
    var id := CastObjectId(text).value;
    var k := IndexOfText(s, text);
    var r :=
      if k >= 0 then
        var newQ := s[k].quantity + delta;
        if newQ <= 0 then Ok(s[..k] + s[k + 1..])
        else if stock < newQ then Err(OutOfStock(stock))
        else Ok(s[k := s[k].(quantity := newQ)])
      else if stock < delta then Err(OutOfStock(stock))
      else if delta > 0 then Ok(s + [CartItem(id, delta)])
      else Ok(s);
    if IdsInRange(s) then IndexOfTextMatches(s, text); r else r
  }

  /** `updateCartItemQuantity` as written: the line item is found by text. With the
      request text in lower case this is `UpdateItems` for the id it casts to;
      otherwise every positive quantity is answered with a missing line item. */
  function UpdateItemsAsWritten(s: seq<CartItem>, text: string, quantity: int, book: Option<Book>): (r: Result<seq<CartItem>, CartError>)
    ensures IdsInRange(s) && IsObjectIdText(text) ==> r == UpdateItems(s, CastObjectId(text).value, quantity, book)
    ensures IdsInRange(s) && !IsObjectIdText(text) && quantity > 0 ==> r == Err(ItemNotFound)
  {
    var r :=
      if quantity <= 0 then Err(InvalidQuantity)
      else
        var k := IndexOfText(s, text);
        if k == -1 then Err(ItemNotFound)
        else if book.None? || !book.value.isActive || book.value.stock < quantity then
          Err(OutOfStock(if book.Some? then book.value.stock else 0))
        else Ok(s[k := s[k].(quantity := quantity)]);
    if IdsInRange(s) then IndexOfTextMatches(s, text); r else r
  }

  /** The stored id 10, whose text ends in "a", and the same id spelled with an
      upper-case final digit. */
  function StoredId(): BookId { 10 }
  function UpperSpelling(): string { Zeros(MongoIdLength - 1) + ['A'] }

  lemma {:induction false} UpperSpellingCasts()
    ensures IdText(StoredId()) == Zeros(MongoIdLength - 1) + ['a']
    ensures IsMongoId(UpperSpelling()) && IsObjectIdHex(UpperSpelling()) && !IsObjectIdText(UpperSpelling())
    ensures CastObjectId(UpperSpelling()) == Some(StoredId())
  {
    var u := UpperSpelling();
    assert u[..MongoIdLength - 1] == Zeros(MongoIdLength - 1);
    assert !IsLowerHexDigit(u[MongoIdLength - 1]);
    ParseZeros(MongoIdLength - 1);
    RenderZero(MongoIdLength - 1);
  }

  /** Adding a book already in the cart, its id spelled with an upper-case digit: as
      written the handler pushes a second line item for the book, where matching by
      the cast id raises the quantity of the one line item. */
  lemma {:induction false} CaseMismatchDuplicates()
    ensures var s := [CartItem(StoredId(), 1)];
      && WellFormed(s)
      && AddToItemsAsWritten(s, UpperSpelling(), 1, 5) == Ok([CartItem(StoredId(), 1), CartItem(StoredId(), 1)])
      && !NoDuplicateBooks(AddToItemsAsWritten(s, UpperSpelling(), 1, 5).value)
      && AddToItems(s, StoredId(), 1, 5) == Ok([CartItem(StoredId(), 2)])
  {
    var s := [CartItem(StoredId(), 1)];
    UpperSpellingCasts();
    assert IdsInRange(s);
    var r := s + [CartItem(StoredId(), 1)];
    assert r == [CartItem(StoredId(), 1), CartItem(StoredId(), 1)];
    assert r[0].book == r[1].book;
    assert IndexOf(s, StoredId()) == 0;
    assert s[0 := CartItem(StoredId(), 2)] == [CartItem(StoredId(), 2)];
  }

  /** Updating or removing a book in the cart, its id spelled with an upper-case
      digit: as written the update answers 404 and the filter removes nothing, where
      matching by the cast id updates and removes the line item. */
  lemma {:induction false} CaseMismatchMissesLine(b: Book)
    requires b.isActive && b.stock >= 2
    ensures var s := [CartItem(StoredId(), 1)];
      && UpdateItemsAsWritten(s, UpperSpelling(), 2, Some(b)) == Err(ItemNotFound)
      && UpdateItems(s, StoredId(), 2, Some(b)) == Ok([CartItem(StoredId(), 2)])
      && RemoveText(s, UpperSpelling()) == s
      && RemoveBook(s, StoredId()) == []
  {
    var s := [CartItem(StoredId(), 1)];
    UpperSpellingCasts();
    assert IdsInRange(s);
    RemoveTextMatches(s, UpperSpelling());
    assert s[1..] == [];
    assert IndexOf(s, StoredId()) == 0;
    assert s[0 := CartItem(StoredId(), 2)] == [CartItem(StoredId(), 2)];
  }

  /** A book's quantity in a well-formed cart is that of its line item, or 0. */
  lemma {:induction false} CartQuantity(s: seq<CartItem>, id: BookId)
    requires NoDuplicateBooks(s)
    ensures IndexOf(s, id) >= 0 ==> QuantityOf(s, id) == s[IndexOf(s, id)].quantity
    ensures IndexOf(s, id) == -1 ==> QuantityOf(s, id) == 0
  {
    var k := IndexOf(s, id);
    if k >= 0 {
      QuantityOfUnique(s, k);
    } else {
      QuantityOfAbsent(s, id);
    }
  }

  /** `addToCart` refuses exactly when the book's new quantity would be positive and
      above the stock, and then reports the stock. */
  lemma {:induction false} AddToItemsRefusal(s: seq<CartItem>, bookId: BookId, delta: int, stock: int)
    requires WellFormed(s) && stock >= 0
    ensures var q := QuantityOf(s, bookId);
      AddToItems(s, bookId, delta, stock).Err? <==> q + delta > 0 && stock < q + delta
    ensures AddToItems(s, bookId, delta, stock).Err? ==>
      AddToItems(s, bookId, delta, stock).error == OutOfStock(stock)
  {
    CartQuantity(s, bookId);
  }

  /** A successful `addToCart` keeps the cart well formed, sets the book's quantity to
      its old quantity plus `delta` (0 meaning the line item is gone), and leaves the
      other line items as they were, in the same order. */
  lemma {:induction false} AddToItemsUpdate(s: seq<CartItem>, bookId: BookId, delta: int, stock: int)
    requires WellFormed(s)
    requires AddToItems(s, bookId, delta, stock).Ok?
    ensures var r := AddToItems(s, bookId, delta, stock).value;
      var q := QuantityOf(s, bookId);
      && WellFormed(r)
      && QuantityOf(r, bookId) == (if q + delta > 0 then q + delta else 0)
      && RemoveBook(r, bookId) == RemoveBook(s, bookId)
  {
    CartQuantity(s, bookId);
    var k := IndexOf(s, bookId);
    if k == -1 {
      AddNew(s, bookId, delta);
    } else if s[k].quantity + delta <= 0 {
      DropExisting(s, k);
    } else {
      RaiseExisting(s, k, s[k].quantity + delta);
    }
  }

  /** The splice branch of `addToCart`. */
  lemma {:induction false} DropExisting(s: seq<CartItem>, k: nat)
    requires WellFormed(s) && k < |s|
    ensures var r := s[..k] + s[k + 1..];
      && WellFormed(r)
      && QuantityOf(r, s[k].book) == 0
      && RemoveBook(r, s[k].book) == RemoveBook(s, s[k].book)
  {
    var id := s[k].book;
    RemoveBookSplice(s, k);
    RemoveBookWellFormed(s, id);
    QuantityOfRemoved(s, id, id);
    RemoveBookTwice(s, id);
  }

  /** The in-place branch of `addToCart` (and of `updateCartItemQuantity`). */
  lemma {:induction false} RaiseExisting(s: seq<CartItem>, k: nat, q: int)
    requires WellFormed(s) && k < |s| && q >= 1
    ensures var r := s[k := CartItem(s[k].book, q)];
      && WellFormed(r)
      && QuantityOf(r, s[k].book) == q
      && RemoveBook(r, s[k].book) == RemoveBook(s, s[k].book)
  {
    var r := s[k := CartItem(s[k].book, q)];
    assert WellFormed(r);
    QuantityOfUnique(r, k);
    assert s == s[..k] + [s[k]] + s[k + 1..];
    assert r == s[..k] + [r[k]] + s[k + 1..];
    RemoveAround(s[..k], s[k], s[k + 1..]);
    RemoveAround(s[..k], r[k], s[k + 1..]);
  }

  /** The push branch of `addToCart`, and its silent no-op. */
  lemma {:induction false} AddNew(s: seq<CartItem>, bookId: BookId, delta: int)
    requires WellFormed(s) && IndexOf(s, bookId) == -1
    ensures var r := if delta > 0 then s + [CartItem(bookId, delta)] else s;
      && WellFormed(r)
      && QuantityOf(r, bookId) == (if delta > 0 then delta else 0)
      && RemoveBook(r, bookId) == RemoveBook(s, bookId)
  {
    QuantityOfAbsent(s, bookId);
    if delta > 0 {
      var x := CartItem(bookId, delta);
      QuantityOfConcat(s, [x], bookId);
      RemoveBookConcat(s, [x], bookId);
      assert RemoveBook([x], bookId) == [];
    }
  }

  /** Where the book lands: an existing line item keeps its position when its quantity
      stays positive; a new book goes at the end. */
  lemma {:induction false} AddToItemsPosition(s: seq<CartItem>, bookId: BookId, delta: int, stock: int)
    requires AddToItems(s, bookId, delta, stock).Ok?
    ensures var r := AddToItems(s, bookId, delta, stock).value; var k := IndexOf(s, bookId);
      && (k >= 0 && s[k].quantity + delta > 0 ==> |r| == |s| && r[k] == CartItem(bookId, s[k].quantity + delta))
      && (k == -1 && delta > 0 ==> r == s + [CartItem(bookId, delta)])
  {
  }

  /** The line-item update of `updateCartItemQuantity`: the quantity must be positive,
      the book must have a line item, and the book must exist, be active and have at
      least that many copies; the line item then gets exactly that quantity. */
  function UpdateItems(s: seq<CartItem>, bookId: BookId, quantity: int, book: Option<Book>): (r: Result<seq<CartItem>, CartError>)
    ensures quantity <= 0 ==> r == Err(InvalidQuantity)
    ensures r.Ok? ==> |r.value| == |s|
    ensures r.Ok? ==> forall i :: 0 <= i < |s| ==> r.value[i] == s[i] || r.value[i] == CartItem(bookId, quantity)
  {
    if quantity <= 0 then Err(InvalidQuantity)
    else
      var k := IndexOf(s, bookId);
      if k == -1 then Err(ItemNotFound)
      else if book.None? || !book.value.isActive || book.value.stock < quantity then
        Err(OutOfStock(if book.Some? then book.value.stock else 0))
      else Ok(s[k := CartItem(bookId, quantity)])
  }

  /** `updateCartItemQuantity` succeeds exactly when the quantity is positive, the book
      is in the cart, active and in stock; it then sets that book's quantity and keeps
      the cart well formed with every other line item in place. */
  lemma {:induction false} UpdateItemsSpec(s: seq<CartItem>, bookId: BookId, quantity: int, book: Option<Book>)
    requires WellFormed(s)
    ensures UpdateItems(s, bookId, quantity, book).Ok? <==>
      && quantity > 0
      && QuantityOf(s, bookId) > 0
      && book.Some? && book.value.isActive && book.value.stock >= quantity
    ensures UpdateItems(s, bookId, quantity, book).Ok? ==>
      var r := UpdateItems(s, bookId, quantity, book).value;
      && WellFormed(r)
      && QuantityOf(r, bookId) == quantity
      && RemoveBook(r, bookId) == RemoveBook(s, bookId)
  {
    CartQuantity(s, bookId);
    var k := IndexOf(s, bookId);
    if UpdateItems(s, bookId, quantity, book).Ok? {
      RaiseExisting(s, k, quantity);
    }
  }

  /** `findIndex` as the loop it performs. */
  method FindIndex(items: seq<CartItem>, id: BookId) returns (k: int)
    ensures k == IndexOf(items, id)
  {
    var i := 0;
    while i < |items|
      invariant 0 <= i <= |items|
      invariant forall j :: 0 <= j < i ==> items[j].book != id
    {
      if items[i].book == id {
        return i;
      }
      i := i + 1;
    }
    return -1;
  }

  /** The cart collection, one cart per user. */
  class CartStore {
    var carts: map<UserId, seq<CartItem>>

    ghost predicate Valid()
      reads this
    {
      forall u :: u in carts ==> WellFormed(carts[u])
    }

    constructor ()
      ensures Valid() && carts == map[]
    {
      carts := map[];
    }

    /** `getCart`: the user's cart, created empty on first access. */
    method GetCart(user: UserId) returns (items: seq<CartItem>)
      requires Valid()
      modifies this
      ensures Valid()
      ensures carts == old(carts)[user := ItemsOf(old(carts), user)]
      ensures items == ItemsOf(old(carts), user)
    {
      if user !in carts {
        carts := carts[user := []];
      }
      items := carts[user];
    }

    /** `addToCart`: text that does not cast to an ObjectId, or a missing or inactive
        book, is refused before the cart is touched; otherwise the cart is created if
        needed (and stays created even when the stock check then refuses) and updated
        as `AddToItems` says for the book the text names, adding 1 copy when the
        request gives no quantity. */
    method AddToCart(user: UserId, bookText: string, quantity: Option<int>, catalog: BookController.Catalog)
      returns (r: Result<seq<CartItem>, CartError>)
      requires Valid()
      modifies this
      ensures Valid()
      ensures CastObjectId(bookText).None? ==> r == Err(InvalidId) && carts == old(carts)
      ensures CastObjectId(bookText).Some? ==>
        var bookId := CastObjectId(bookText).value;
        && ((bookId !in catalog.books || !catalog.books[bookId].isActive) ==>
              r == Err(BookNotFound) && carts == old(carts))
        && (bookId in catalog.books && catalog.books[bookId].isActive ==>
              var s := ItemsOf(old(carts), user);
              var out := AddToItems(s, bookId, quantity.GetOr(DefaultAddQuantity), catalog.books[bookId].stock);
              r == out && carts == old(carts)[user := if out.Ok? then out.value else s])
    {
      var cast := CastObjectId(bookText);
      if cast.None? {
        return Err(InvalidId);
      }
      var bookId := cast.value;
      if bookId !in catalog.books || !catalog.books[bookId].isActive {
        return Err(BookNotFound);
      }
      var delta := quantity.GetOr(DefaultAddQuantity);
      var book := catalog.books[bookId];
      var items := GetCart(user);
      ghost var s := items;
      ghost var out := AddToItems(s, bookId, delta, book.stock);
      var k := FindIndex(items, bookId);
      if k > -1 {
        var newQ := items[k].quantity + delta;
        if newQ <= 0 {
          items := items[..k] + items[k + 1..];
        } else if book.stock < newQ {
          assert out == Err(OutOfStock(book.stock));
          return Err(OutOfStock(book.stock));
        } else {
          items := items[k := CartItem(bookId, newQ)];
        }
      } else {
        if book.stock < delta {
          assert out == Err(OutOfStock(book.stock));
          return Err(OutOfStock(book.stock));
        }
        if delta > 0 {
          items := items + [CartItem(bookId, delta)];
        }
      }
      assert out == Ok(items);
      assert WellFormed(items) by {
        AddToItemsUpdate(s, bookId, delta, book.stock);
      }
      carts := carts[user := items];
      r := Ok(items);
    }

    /** `updateCartItemQuantity`: a non-positive quantity is refused first, then a
        missing cart; text that casts to no ObjectId matches no line item; otherwise
        the cart changes as `UpdateItems` says for the book the text names. */
    method UpdateCartItemQuantity(user: UserId, bookText: string, quantity: int, catalog: BookController.Catalog)
      returns (r: Result<seq<CartItem>, CartError>)
      requires Valid()
      modifies this
      ensures Valid()
      ensures quantity <= 0 ==> r == Err(InvalidQuantity) && carts == old(carts)
      ensures quantity > 0 && user !in old(carts) ==> r == Err(CartNotFound) && carts == old(carts)
      ensures quantity > 0 && user in old(carts) && CastObjectId(bookText).None? ==>
        r == Err(ItemNotFound) && carts == old(carts)
      ensures user in old(carts) && CastObjectId(bookText).Some? ==>
        var bookId := CastObjectId(bookText).value;
        && r == UpdateItems(old(carts)[user], bookId, quantity, FindBook(catalog.books, bookId))
        && carts == (if r.Ok? then old(carts)[user := r.value] else old(carts))
    {
      if quantity <= 0 {
        return Err(InvalidQuantity);
      }
      if user !in carts {
        return Err(CartNotFound);
      }
      var cast := CastObjectId(bookText);
      if cast.None? {
        return Err(ItemNotFound);
      }
      var bookId := cast.value;
      var items := carts[user];
      var k := FindIndex(items, bookId);
      if k == -1 {
        return Err(ItemNotFound);
      }
      if bookId !in catalog.books || !catalog.books[bookId].isActive || catalog.books[bookId].stock < quantity {
        return Err(OutOfStock(if bookId in catalog.books then catalog.books[bookId].stock else 0));
      }
      UpdateItemsSpec(items, bookId, quantity, FindBook(catalog.books, bookId));
      items := items[k := CartItem(bookId, quantity)];
      carts := carts[user := items];
      r := Ok(items);
    }

    /** `removeFromCart`: a missing cart is refused; otherwise every line item for the
        book the text names is filtered out, and text that casts to no ObjectId
        removes nothing. */
    method RemoveFromCart(user: UserId, bookText: string) returns (r: Result<seq<CartItem>, CartError>)
      requires Valid()
      modifies this
      ensures Valid()
      ensures user !in old(carts) ==> r == Err(CartNotFound) && carts == old(carts)
      ensures user in old(carts) && CastObjectId(bookText).None? ==>
        r == Ok(old(carts)[user]) && carts == old(carts)
      ensures user in old(carts) && CastObjectId(bookText).Some? ==>
        var items := RemoveBook(old(carts)[user], CastObjectId(bookText).value);
        r == Ok(items) && carts == old(carts)[user := items]
    {
      if user !in carts {
        return Err(CartNotFound);
      }
      var cast := CastObjectId(bookText);
      if cast.None? {
        return Ok(carts[user]);
      }
      var bookId := cast.value;
      var items := RemoveBook(carts[user], bookId);
      RemoveBookWellFormed(carts[user], bookId);
      carts := carts[user := items];
      r := Ok(items);
    }

    /** `clearCart`: a missing cart is refused; otherwise the cart is emptied. */
    method ClearCart(user: UserId) returns (r: Result<seq<CartItem>, CartError>)
      requires Valid()
      modifies this
      ensures Valid()
      ensures user !in old(carts) ==> r == Err(CartNotFound) && carts == old(carts)
      ensures user in old(carts) ==> r == Ok([]) && carts == old(carts)[user := []]
    {
      if user !in carts {
        return Err(CartNotFound);
      }
      carts := carts[user := []];
      r := Ok([]);
    }
  }
}
