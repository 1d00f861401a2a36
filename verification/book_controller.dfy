/** The book handlers of controllers/book.controller.js: the listing query and its
    pagination, the view counter of the detail handler and the soft delete. The book
    collection is the `Catalog` object's map from id to document. */
module BookController {
  import opened Common
  import opened Books

  /** A price clause: `$gte` and `$lte`, each present or not. */
  datatype PriceRange = PriceRange(gte: Option<int>, lte: Option<int>)

  /** The listing query document. */
  datatype BookQuery = BookQuery(
    isActive: bool,
    textSearch: Option<string>,
    categories: Option<string>,
    authors: Option<string>,
    publisher: Option<string>,
    price: Option<PriceRange>,
    isFeatured: Option<bool>)

  /** The listing's query-string parameters. A text parameter that is missing or
      empty is "" (both are falsy); a price bound is the number it parses to, or None
      when missing or empty. */
  datatype ListingParams = ListingParams(
    page: Option<int>,
    limit: Option<nat>,
    search: string,
    category: string,
    author: string,
    publisher: string,
    minPrice: Option<int>,
    maxPrice: Option<int>,
    featured: string)

  const DefaultPage := 1
  const DefaultLimit := 12

  /** The listing query, built field by field as the handler builds it. It always
      restricts to active books; each filter is present exactly when its parameter is
      given; a price clause exists exactly when a bound is given, with the given bounds. */
  method BuildQuery(p: ListingParams) returns (q: BookQuery)
    ensures q.isActive
    ensures q.textSearch == (if p.search != "" then Some(p.search) else None)
    ensures q.categories == (if p.category != "" then Some(p.category) else None)
    ensures q.authors == (if p.author != "" then Some(p.author) else None)
    ensures q.publisher == (if p.publisher != "" then Some(p.publisher) else None)
    ensures q.price.Some? <==> p.minPrice.Some? || p.maxPrice.Some?
    ensures q.price.Some? ==> q.price.value == PriceRange(p.minPrice, p.maxPrice)
    ensures q.isFeatured == (if p.featured != "" then Some(p.featured == "true") else None)
  {
    q := BookQuery(true, None, None, None, None, None, None);
    if p.search != "" {
      q := q.(textSearch := Some(p.search));
    }
    if p.category != "" {
      q := q.(categories := Some(p.category));
    }
    if p.author != "" {
      q := q.(authors := Some(p.author));
    }
    if p.publisher != "" {
      q := q.(publisher := Some(p.publisher));
    }
    if p.minPrice.Some? || p.maxPrice.Some? {
      var range := PriceRange(None, None);
      if p.minPrice.Some? {
        range := range.(gte := p.minPrice);
      }
      if p.maxPrice.Some? {
        range := range.(lte := p.maxPrice);
      }
      q := q.(price := Some(range));
    }
    if p.featured != "" {
      q := q.(isFeatured := Some(p.featured == "true"));
    }
  }

  /** The number of documents the listing skips: all those on the earlier pages. */
  function Skip(page: int, limit: nat): (r: int)
    ensures page >= 1 ==> r >= 0
  {
    (page - 1) * limit
  }

  /** `Math.ceil(total / limit)`; a zero limit gives a non-finite value, None here. */
  function PageCount(total: nat, limit: nat): (r: Option<nat>)
    ensures r.None? <==> limit == 0
    ensures r.Some? ==> (r.value - 1) * limit < total <= r.value * limit
  {
    if limit == 0 then None
    else
      var n := total + limit - 1;
      var c := n / limit;
      assert n == c * limit + n % limit;
      Some(c)
  }

  /** The pages numbered 1 to `PageCount` are exactly those that start before the end
      of the result: page p is non-empty iff p is at most the page count. */
  lemma {:induction false} PagesCoverResult(total: nat, limit: nat, page: int)
    requires limit > 0 && page >= 1
    ensures Skip(page, limit) < total <==> page <= PageCount(total, limit).value
  {
  }

  /** The pagination the listing applies and reports back. */
  datatype Pagination = Pagination(page: int, limit: nat, skip: int, pages: Option<nat>)

  /** The listing's pagination for a result of `total` books: `page` defaults to 1 and
      `limit` to 12; the skip and the page count follow from those two. */
  function Paginate(p: ListingParams, total: nat): (r: Pagination)
    ensures r.page == p.page.GetOr(DefaultPage) && r.limit == p.limit.GetOr(DefaultLimit)
    ensures r.skip == Skip(r.page, r.limit) && r.pages == PageCount(total, r.limit)
    ensures p.page.None? ==> r.skip == 0
    ensures p.limit.None? ==>
      r.pages.Some? && (r.pages.value - 1) * DefaultLimit < total <= r.pages.value * DefaultLimit
    ensures r.limit > 0 && r.page >= 1 ==> (r.skip < total <==> r.page <= r.pages.value)
  {
    var page := p.page.GetOr(DefaultPage);
    var limit := p.limit.GetOr(DefaultLimit);
    var r := Pagination(page, limit, Skip(page, limit), PageCount(total, limit));
    if limit > 0 && page >= 1 then PagesCoverResult(total, limit, page); r else r
  }

  /** The book collection. */
  class Catalog {
    var books: map<BookId, Book>

    ghost predicate Valid()
      reads this
    {
      forall id :: id in books ==> ValidBook(books[id])
    }

    constructor (initial: map<BookId, Book>)
      requires forall id :: id in initial ==> ValidBook(initial[id])
      ensures Valid() && books == initial
    {
      books := initial;
    }

    /** `getBook`: a missing book answers 404; otherwise its view count goes up by
        exactly one (inactive books included) and the updated book is returned. */
    method GetBook(id: BookId) returns (r: Option<Book>)
      requires Valid()
      modifies this
      ensures Valid()
      ensures id !in old(books) ==> r == None && books == old(books)
      ensures id in old(books) ==>
        && books == old(books)[id := old(books)[id].(views := old(books)[id].views + 1)]
        && r == Some(books[id])
    {
      if id !in books {
        return None;
      }
      var book := books[id];
      book := book.(views := book.views + 1);
      books := books[id := book];
      r := Some(book);
    }

    /** `deleteBook`: a soft delete. A missing book answers 404; otherwise only
        `isActive` becomes false. */
    method DeleteBook(id: BookId) returns (found: bool)
      requires Valid()
      modifies this
      ensures Valid()
      ensures found <==> id in old(books)
      ensures !found ==> books == old(books)
      ensures found ==> books == old(books)[id := old(books)[id].(isActive := false)]
    {
      if id !in books {
        return false;
      }
      books := books[id := books[id].(isActive := false)];
      found := true;
    }
  }
}
