/** The Book schema of models/Book.js: the fields the core reads, their constraints and defaults. */
module Books {
  import opened Common

  /** A book document. Fields the core never reads (description, slug, images,
      categories, authors, publisher, publishedYear, numReviews) are not modelled. */
  datatype Book = Book(
    title: string,
    coverImage: string,
    price: int,
    discountPrice: Option<int>,
    stock: int,
    soldCount: int,
    views: int,
    rating: real,
    isFeatured: bool,
    isActive: bool)

  const MaxTitleLength := 200
  const DefaultCoverImage := "default-book.jpg"

  /** The constraints on `discountPrice`: `null` (the default), or a number that is
      at least 0 and strictly below the book's price. */
  predicate DiscountAccepted(discount: Option<int>, price: int) {
    match discount
    case None => true
    case Some(d) => 0 <= d < price
  }

  /** Every constraint the schema places on the modelled fields. */
  predicate ValidBook(b: Book)
    ensures ValidBook(b) ==> b.stock >= 0 && 0 <= b.price
    ensures ValidBook(b) && b.discountPrice.Some? ==> b.price > 0 && b.discountPrice.value < b.price
  {
    && b.title != []
    && |b.title| <= MaxTitleLength
    && b.price >= 0
    && DiscountAccepted(b.discountPrice, b.price)
    && b.stock >= 0
    && 0.0 <= b.rating <= 5.0
  }

  /** A book created from its required fields, every other field at its default. */
  function NewBook(title: string, price: int, stock: Option<int>): (b: Book)
    ensures b.title == title && b.price == price
    ensures b.discountPrice == None && b.stock == stock.GetOr(0)
    ensures b.soldCount == 0 && b.views == 0 && b.rating == 0.0
    ensures b.isActive && !b.isFeatured && b.coverImage == DefaultCoverImage
    ensures ValidBook(b) <==>
      title != [] && |title| <= MaxTitleLength && price >= 0 && stock.GetOr(0) >= 0
  {
    Book(title, DefaultCoverImage, price, None, stock.GetOr(0), 0, 0, 0.0, false, true)
  }

  /** The unit price an order charges: `discountPrice || price`, so a null or zero
      discount falls back to the list price. */
  function UnitPrice(b: Book): (r: int)
    ensures r == b.price || Some(r) == b.discountPrice
    ensures b.discountPrice == None || b.discountPrice == Some(0) ==> r == b.price
    ensures ValidBook(b) ==> 0 <= r <= b.price
    ensures ValidBook(b) && b.discountPrice.Some? && b.discountPrice.value != 0 ==> r < b.price
  {
    if b.discountPrice.Some? && b.discountPrice.value != 0 then b.discountPrice.value else b.price
  }
}
