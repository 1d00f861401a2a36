# Bookstore backend: the cart → order → cancellation workflow, in Dafny

This project models the core of an Express/Mongoose bookstore backend and proves
properties of that model. Its centre is the workflow that turns a user's cart into an
order and can cancel that order again. Three collections make up the state:

- the book catalog, a map from book id to book (`BookController.Catalog`);
- one cart per user, a map from user id to a sequence of `(book, quantity)` line items
  (`CartController.CartStore`);
- the orders, a sequence indexed by order id (`OrderController.OrderStore`).

Ids are ObjectId values. The cart handlers receive a book id as request text, and
`ObjectIds` relates the two: the cast that `findById` applies reads the hexadecimal
digits in either case, while `toString()` writes them in lower case.

Each request handler is one method on these objects. Every method is specified against
a pure function of the old state:

- `AddToItems`, `UpdateItems` and `RemoveBook` for the cart;
- `Reserved` for the stock loop of order creation;
- `Restored` for the stock loop of cancellation.

Lemmas about those functions carry the workflow's invariants:

- every cart quantity is at least 1, and no book appears twice in a cart as long as
  line items are matched by the book the request names (the handlers as written
  compare text instead, and then a book can appear twice: see "Findings");
- `stock >= 0` survives order creation exactly when no line asks for more than the stock;
- the order's `itemsPrice` equals the cart's `totalPrice` and the sum over the order lines;
- `totalPriceCalculated` equals the stored `totalPrice`;
- cancelling restores exactly the stock and soldCount that creation took.

Around the workflow sit smaller pure pieces:

- the schema constraints, as `ValidBook` and `ValidOrder`, and the cart invariant
  `WellFormed` (the Cart schema itself only asks for quantities of at least 1);
- the request validator rule sets and the `validate` wrapper;
- the category slug transform;
- bearer-token extraction, the `protect` gate and `authorize`;
- the error classifier;
- the book-listing query builder and its pagination arithmetic;
- the user-update whitelists.

One module per source file:

| file | module | source |
|---|---|---|
| common.dfy | `Common` | shared `Option`, `Result`, id types |
| object_id.dfy | `ObjectIds` | `isMongoId`, the ObjectId cast and `toString()` |
| book_model.dfy | `Books` | models/Book.js |
| cart_model.dfy | `Carts` | models/Cart.js |
| order_model.dfy | `Orders` | models/Order.js |
| category_model.dfy | `Categories` | models/Category.js |
| validate.dfy | `Validation` | middleware/validate.js |
| auth.dfy | `Auth` | middleware/auth.middleware.js |
| error_handler.dfy | `ErrorHandling` | middleware/error.middleware.js |
| book_controller.dfy | `BookController` | controllers/book.controller.js |
| cart_controller.dfy | `CartController` | controllers/cart.controller.js |
| order_controller.dfy | `OrderController` | controllers/order.controller.js |
| user_controller.dfy | `UserController` | controllers/user.controller.js |

Where a handler can fail, the model keeps the failure and what it leaves behind.
`createOrder` has three such points:

- A line item whose book is gone fails when the item is read. Nothing has changed at that point.
- The order document can fail its schema: an unknown payment method, or an empty
  address field. Nothing has changed at that point either.
- A book save can be refused by `stock >= 0` in the middle of the stock loop. By then
  the order is stored and the earlier books are decremented, but the cart is not
  cleared. `OrderStore.CreateOrder` states that partial state exactly.

`updateOrderStatus` restores stock whenever the new status is Cancelled, whatever the
old status was. The model keeps that behaviour. `RecancelOverRestores` shows what it
leads to: cancelling the same order twice returns its copies twice.

## Model

| member | source | states |
|---|---|---|
| Books.NewBook | models/Book.js:5-94 | a new book has a null discount, stock defaulting to 0, zero soldCount, views and rating, is active and not featured; it is valid iff its title is non-empty and at most 200 characters, its price is at least 0 and its stock at least 0 |
| Books.ValidBook | models/Book.js:6-82 | the schema constraints on the modelled fields: a title of 1 to 200 characters, a price and a stock of at least 0, a discount that is null or at least 0 and below the price, a rating from 0 to 5; a valid book with a discount has a positive price |
| Books.UnitPrice | models/Book.js:27-37 | the price an order charges is the list price or the discount; a null or zero discount gives the list price; for a valid book it lies between 0 and the list price, strictly below when a non-zero discount is set |
| Carts.QuantityOfUnique | models/Cart.js:5-26 | in a cart without duplicate books, a book's total quantity is its one line item's quantity |
| Carts.QuantityOfConcat | models/Cart.js:36 | a book's quantity over two item lists is the sum of its quantities over each |
| Carts.TotalPrice | models/Cart.js:42-44 | the `totalPrice` virtual is 0 for an empty cart and never negative for positive quantities of valid books |
| Orders.TotalPriceCalculated | models/Order.js:85-87 | the `totalPriceCalculated` virtual is at least the lines' total when shipping and tax are not negative, and never negative when the lines are not either; its partner `OrderController.BuildOrderTotals` proves it equals a new order's stored `totalPrice` |
| ObjectIds.CastObjectId | controllers/cart.controller.js:39 | request text casts to an ObjectId iff it is 24 hexadecimal digits in either case, and then to a value below 2^96 |
| ObjectIds.CastableIsMongoId | middleware/validate.js:75 | every text the cast reads passes the `isMongoId` rule |
| ObjectIds.PrefixedIdDoesNotCast | middleware/validate.js:75 | `0x` followed by 22 zeros passes `isMongoId` (an optional `0x`/`0h` prefix, then hexadecimal digits, 24 characters in all) yet does not cast, so `addToCart` fails in `findById` |
| ObjectIds.IdText | controllers/cart.controller.js:51 | `toString()` of an id is 24 hexadecimal digits, all in lower case |
| ObjectIds.ParseHex | controllers/cart.controller.js:39 | n hexadecimal digits, read in either case, give a value below 16^n |
| ObjectIds.RenderHex | controllers/cart.controller.js:51 | writing a value out gives exactly the requested number of lower-case digits |
| ObjectIds.ParseRender | controllers/cart.controller.js:51 | reading back the digits of a value that fits them gives the value |
| ObjectIds.RenderParse | controllers/cart.controller.js:51 | writing out the value of lower-case digits gives the same digits |
| ObjectIds.TextMatchesId | controllers/cart.controller.js:51 | request text equals an id's `toString()` iff the text is in lower case and casts to that id |
| Orders.ParseStatus | models/Order.js:64-68 | a string names a status iff it is one of the five status names, and then it names exactly that status |
| Orders.ParsePayment | models/Order.js:39-43 | a string names a payment method iff it is COD, Card, VNPay or PayPal |
| Orders.ToShippingAddress | models/Order.js:5-13 | the stored address copies every given field and defaults a missing country to 'Việt Nam' |
| Orders.ValidOrder | models/Order.js:5-28 | the schema constraints of an order: every line has a title and a quantity of at least 1, and a given address has all four required fields; a valid order holds no book a negative number of times |
| Orders.OrderQuantitiesNonNegative | models/Order.js:25 | order lines with quantities of at least 1 hold every book a non-negative number of times |
| Orders.LinesTotal | models/Order.js:85-87 | the sum over order lines is 0 for no lines and never negative for non-negative prices and quantities |
| Categories.Lower | models/Category.js:35 | lower-casing keeps the length and lower-cases each character |
| Categories.SkipSpaces | models/Category.js:35 | skipping a white-space run returns the suffix that starts at its first non-space |
| Categories.CollapseSpaces | models/Category.js:35 | after collapsing, no white space remains and every character is '-' or came from the input |
| Categories.KeepSlugChars | models/Category.js:35 | only `[A-Za-z0-9_-]` characters remain, all from the input; a single character is kept iff it is a slug character |
| Categories.KeepSlugCharsConcat | models/Category.js:35 | the filter of a concatenation is the concatenation of the filtered parts, so with the one-character case it keeps exactly the slug characters, in order |
| Categories.Slug | models/Category.js:35 | a slug holds only `[a-z0-9_-]` |
| Categories.CollapseRun | models/Category.js:35 | a maximal run of white space between two pieces of text becomes exactly one '-' |
| Categories.SlugJoinsWords | models/Category.js:35 | two words of `[A-Za-z0-9_-]` separated by any non-empty run of white space give the two words lower-cased and joined by one '-' |
| Categories.SlugIdempotent | models/Category.js:35 | applying the slug transform to a slug returns the slug |
| Categories.SlugKeepsAlnums | models/Category.js:35 | the slug keeps every ASCII letter and digit of the name, lower-cased, in their original order |
| Categories.PreSave | models/Category.js:33-38 | the slug is re-derived from the name exactly when the name was modified, and no other field changes |
| Validation.Failures | middleware/validate.js:8 | the failures list is empty iff every check held; it lists the field of every failed check and only fields of failed checks |
| Validation.Validate | middleware/validate.js:4-19 | the request goes on iff every check held; otherwise the 400 answer carries the non-empty list of failures, holding the field of every failed check |
| Validation.PasswordCheck | middleware/validate.js:25 | the password rule holds iff the password has at least 6 characters |
| Validation.ValidateRegister | middleware/validate.js:22-27 | registration passes iff there is a name, a valid e-mail, a password of at least 6 characters, and no phone or a phone that is a string; a phone of another JSON type is reported |
| Validation.ValidateResetPassword | middleware/validate.js:36-38 | a reset passes iff the password has at least 6 characters, and otherwise reports only the password |
| Validation.ValidateUpdatePassword | middleware/validate.js:41-44 | an update passes iff the current password is given and the new one has at least 6 characters |
| Validation.ValidateBookCreate | middleware/validate.js:56-69 | book creation passes iff there are a title and a description, the price is a number at least 0, a present non-zero discount lies below the price, there is at least one category and one author, and a publisher is given |
| Validation.ValidateCartItem | middleware/validate.js:73-83 | both cart rule sets, adding (book id from the body) and quantity update (book id from the path), pass iff the book id passes `isMongoId` (an optional `0x`/`0h` prefix, then hexadecimal digits, 24 characters in all) and the quantity is an integer of at least 1, and report only those two fields |
| Validation.ValidateOrderCreate | middleware/validate.js:103-109 | order creation passes iff the four address fields are non-empty and the payment method is one of the four; a passing request satisfies the Order schema's address and payment constraints |
| Validation.ValidateUserCreate | middleware/validate.js:112-117 | user creation passes iff there are a name, a valid e-mail and a password of at least 6 characters, and a given role is 'user' or 'admin' |
| Auth.Split | middleware/auth.middleware.js:19 | splitting yields at least one piece, no piece holds the separator, and joining the pieces restores the string |
| Auth.BearerToken | middleware/auth.middleware.js:18-20 | a token is found only in a header starting with "Bearer"; it is non-empty and holds no space |
| Auth.BearerTokenOfHeader | middleware/auth.middleware.js:18-20 | the header "Bearer <token>" yields exactly that token |
| Auth.Protect | middleware/auth.middleware.js:6-59 | a missing secret answers 500 before anything else; a missing token, a token that does not verify and a token naming no user each answer 401; the request proceeds, with the user attached, iff the token verifies to a known active user; a known inactive user answers 403; every denial's status matches its reason |
| Auth.Authorize | middleware/auth.middleware.js:62-72 | the request passes iff a user is attached and its role is listed, and otherwise answers 403 |
| ErrorHandling.RunRulesSnoc | middleware/error.middleware.js:11-51 | a later matching rule overrides everything before it, and a rule that does not match changes nothing |
| ErrorHandling.RunFiveRules | middleware/error.middleware.js:11-51 | over the five rules, the last matching one decides |
| ErrorHandling.HandleError | middleware/error.middleware.js:2-58 | the handler's result is the in-order, last-match-wins run of the five rules from the error's own status and message; a CastError answers 400; duplicate key code 11000 answers 400 naming the first key field and its value unless a later rule matches; a ValidationError answers 400 with the field messages joined by ", "; the two token errors answer 401; an error no rule matches keeps its own status code (500 when none) and its message (the generic server message when none) |
| BookController.BuildQuery | controllers/book.controller.js:22-55 | the query always restricts to active books; each of search, category, author and publisher appears iff given; a price clause exists iff a bound is given, holding exactly the given bounds; a given `featured` sets `isFeatured` to whether it is 'true' |
| BookController.Skip | controllers/book.controller.js:58 | from page 1 on, the number of skipped books is never negative |
| BookController.PageCount | controllers/book.controller.js:77 | the page count is the least number of pages of `limit` books covering the total, and undefined for a zero limit |
| BookController.PagesCoverResult | controllers/book.controller.js:58-77 | a page starts before the end of the result iff its number is at most the page count |
| BookController.Paginate | controllers/book.controller.js:10-77 | `page` defaults to 1 and `limit` to 12; the skip and page count are those of the chosen page and limit; with no page the listing skips nothing, with no limit the page count covers the total in pages of 12, and a page starts before the end of the result iff it is at most the page count |
| BookController.Catalog.GetBook | controllers/book.controller.js:92-113 | a missing book answers 404 and nothing changes; otherwise the book's view count goes up by exactly one and nothing else changes |
| BookController.Catalog.DeleteBook | controllers/book.controller.js:182-195 | a missing book answers 404; otherwise only its `isActive` becomes false |
| CartController.IndexOf | controllers/cart.controller.js:51 | the index is -1 iff no line item holds the book, and otherwise the first line item that does |
| CartController.IndexOfText | controllers/cart.controller.js:51 | as written: -1 iff no stored id's text equals the request text, and otherwise the first line item whose id text does |
| CartController.IndexOfTextMatches | controllers/cart.controller.js:51 | for stored ObjectId values, the text search finds what the search for the cast id finds when the text is in lower case, and finds nothing otherwise |
| CartController.RemoveText | controllers/cart.controller.js:160 | as written: the filter leaves no line item whose id text equals the request text |
| CartController.RemoveTextMatches | controllers/cart.controller.js:160 | for stored ObjectId values, filtering by text is filtering by the cast id when the text is in lower case, and removes nothing otherwise |
| CartController.AddToItemsAsWritten | controllers/cart.controller.js:51-74 | as written: with lower-case request text it is `AddToItems` for the cast id; otherwise a positive quantity within the stock always appends a new line item for the cast id, whatever the cart holds |
| CartController.UpdateItemsAsWritten | controllers/cart.controller.js:106-125 | as written: with lower-case request text it is `UpdateItems` for the cast id; otherwise every positive quantity is answered with a missing line item |
| CartController.UpperSpellingCasts | controllers/cart.controller.js:39 | the id 10 has text `00…0a`; the spelling `00…0A` passes `isMongoId`, is not `toString()` text, and casts to the same id |
| CartController.CaseMismatchDuplicates | controllers/cart.controller.js:51-72 | for a cart holding the id 10 once and a request spelling it `00…0A`, the handler as written pushes a second line item for the book, so the cart has a duplicate; matching by the cast id raises the one line item to 2 |
| CartController.CaseMismatchMissesLine | controllers/cart.controller.js:115-117 | for the same cart and spelling, the update as written answers 404 and the filter of line 160 removes nothing, where matching by the cast id updates and removes the line item |
| CartController.FindIndex | controllers/cart.controller.js:51 | the search loop returns exactly `IndexOf` |
| CartController.RemoveBook | controllers/cart.controller.js:160 | the filter leaves no line item for the book and is never longer than its input |
| CartController.RemoveBookMembers | controllers/cart.controller.js:160 | the filter keeps exactly the line items for other books |
| CartController.RemoveBookTwice | controllers/cart.controller.js:160 | removing a book twice is the same as removing it once |
| CartController.RemoveBookSplice | controllers/cart.controller.js:55-60 | in a cart without duplicates, splicing out a book's line item is the same as filtering the book out, so the others keep their order |
| CartController.QuantityOfRemoved | controllers/cart.controller.js:160 | after the filter the book's quantity is 0 and every other book's quantity is unchanged |
| CartController.RemoveBookWellFormed | controllers/cart.controller.js:160 | the filter keeps the cart free of duplicates and of non-positive quantities |
| CartController.AddToItems | controllers/cart.controller.js:51-74 | the line-item update of `addToCart`: a refusal is always out of stock with the stock left; a success adds at most one line item, and every line item in it is an old one or the book's |
| CartController.AddToItemsRefusal | controllers/cart.controller.js:53-74 | `addToCart` on an active book refuses iff the book's new quantity would be positive and above the stock, and then reports the stock left |
| CartController.AddToItemsUpdate | controllers/cart.controller.js:51-74 | a successful `addToCart` keeps the cart free of duplicates and non-positive quantities; the book's quantity becomes its old quantity plus the delta, or 0 (no line item) when that is not positive; every other line item is unchanged and in order |
| CartController.DropExisting | controllers/cart.controller.js:58-60 | splicing out a line item keeps the cart well formed, zeroes that book and leaves the rest in order |
| CartController.RaiseExisting | controllers/cart.controller.js:64 | setting a line item's quantity in place keeps the cart well formed, gives the book that quantity and leaves the rest in order |
| CartController.AddNew | controllers/cart.controller.js:66-73 | for a book not in the cart, a positive delta appends a line item with that quantity and a non-positive one changes nothing |
| CartController.AddToItemsPosition | controllers/cart.controller.js:53-73 | a kept line item stays at its index with the new quantity; a new book goes at the end |
| CartController.UpdateItems | controllers/cart.controller.js:106-125 | the line-item update of `updateCartItemQuantity`: a non-positive quantity is refused first; a success keeps the length, and each line item is the old one or the book's with the new quantity |
| CartController.UpdateItemsSpec | controllers/cart.controller.js:106-125 | `updateCartItemQuantity` succeeds iff the quantity is positive, the book is in the cart, and the book exists, is active and has that many copies; it then sets exactly that book's quantity and keeps the rest in order |
| CartController.CartStore.GetCart | controllers/cart.controller.js:8-29 | the user's cart is returned, created empty if there was none |
| CartController.CartStore.AddToCart | controllers/cart.controller.js:34-96 | text that does not cast answers 500 and a missing or inactive book 404, both with no change; otherwise the cart is created if needed and changes as `AddToItems` says for the id the text casts to, with the given quantity or 1 when none is given, staying created when the stock check refuses; every cart stays well formed |
| CartController.CartStore.UpdateCartItemQuantity | controllers/cart.controller.js:101-145 | a non-positive quantity is refused first, then a missing cart, both with no change; text that casts to no id matches no line item; otherwise the cart changes as `UpdateItems` says for the cast id, and only on success |
| CartController.CartStore.RemoveFromCart | controllers/cart.controller.js:150-177 | a missing cart is refused; text that casts to no id removes nothing; otherwise the line items of the cast id are filtered out |
| CartController.CartStore.ClearCart | controllers/cart.controller.js:182-196 | a missing cart is refused; otherwise the cart is left empty |
| OrderController.PriceOrder | controllers/order.controller.js:25-27 | shipping is 0 iff the items price exceeds 500000 and 30000 otherwise; ten times the tax is the items price; the total is the sum of the three and, for a non-negative items price, at least the items price |
| OrderController.Snapshot | controllers/order.controller.js:29-35 | there is one order line per cart entry, in cart order, copying the book id, title, cover image and quantity, priced `discountPrice || price` |
| OrderController.SnapshotTotal | controllers/order.controller.js:21-24 | the items price, which is the cart's `totalPrice`, equals the sum of price times quantity over the order lines |
| OrderController.SnapshotQuantity | controllers/order.controller.js:29-35 | the order lines hold each book in the quantity the cart held |
| OrderController.BuildOrder | controllers/order.controller.js:37-47 | the new order belongs to the user and carries the payment method and notes; its lines are the cart's snapshot, one per cart entry; its address is the given one with the default country, or none; its items price is the cart's total, and its shipping, tax and total prices are those the pricing rule gives for it; it starts Pending with no delivery or cancellation time |
| OrderController.BuildOrderTotals | controllers/order.controller.js:21-47 | a new order is Pending without timestamps, its `itemsPrice` is the sum over its lines, and its `totalPriceCalculated` equals its stored `totalPrice` |
| OrderController.BuildOrderValid | controllers/order.controller.js:37-47 | from a well-formed cart of valid books, the order schema rejects the new order only for an empty field of a given address |
| OrderController.Reserved | controllers/order.controller.js:50-57 | the catalog after the creation loop holds the same books |
| OrderController.Restored | controllers/order.controller.js:196-203 | the catalog after the restoring loop holds the same books |
| OrderController.StockMoves | controllers/order.controller.js:50-57 | the creation loop lowers a book's stock by its cart quantity and the restoring loop raises it by its order quantity; each moves copies between stock and soldCount, keeping their sum, and changes no other field |
| OrderController.CancelUndoesCreate | controllers/order.controller.js:50-57 | restoring the lines of the order made from a cart gives back exactly the catalog from before the stock loop |
| OrderController.RecancelOverRestores | controllers/order.controller.js:189-204 | cancelling an order twice leaves each of its books with its cart quantity more stock than it had before the order |
| OrderController.ReservedValid | controllers/order.controller.js:50-57 | without duplicate entries, every book stays at `stock >= 0` after the stock loop iff no entry asks for more copies than its book's stock |
| OrderController.ReservedStep | controllers/order.controller.js:50-57 | one more step of the stock loop takes one entry's quantity from its book, if the book exists |
| OrderController.RestoredStep | controllers/order.controller.js:196-203 | one more step of the restoring loop gives one line's quantity back to its book, if the book exists |
| OrderController.ReserveStock | controllers/order.controller.js:50-57 | the loop either takes every entry's quantity, with no entry short of stock, or stops at the first entry short of stock with only the earlier entries taken; the catalog stays valid |
| OrderController.RestoreStock | controllers/order.controller.js:196-203 | the loop gives every line's quantity back to its book and keeps the catalog valid |
| OrderController.WithStatus | controllers/order.controller.js:190-194 | the new status is set; Delivered stamps `deliveredAt`; Cancelled stamps `cancelledAt`; no other field changes, and a valid order stays valid |
| OrderController.MayAccess | controllers/order.controller.js:121 | an admin may read and cancel any order; anyone else only their own |
| OrderController.OrderStore.CreateOrder | controllers/order.controller.js:9-78 | an empty or missing cart, a line item whose book is gone and an order the schema refuses all fail with no change; otherwise the order built from the cart is appended, and either every entry's stock is taken and the cart is emptied, or the first entry short of stock stops the loop after the earlier books were taken and the cart is kept |
| OrderController.OrderStore.GetSingleOrder | controllers/order.controller.js:107-139 | a missing order answers 404; the order is returned iff the caller owns it or is an admin, and otherwise the answer is 403 |
| OrderController.OrderStore.UpdateOrderStatus | controllers/order.controller.js:168-224 | an unknown status is refused before the lookup, then a missing order, both with no change; otherwise the order changes as `WithStatus` says, and a move to Cancelled restores the stock of every line whatever the old status |
| OrderController.OrderStore.CancelOrder | controllers/order.controller.js:229-292 | a missing order, a caller who is neither owner nor admin, a cancelled order and a delivered order are refused with no change; otherwise the order becomes Cancelled, `cancelledAt` is stamped, and every line's stock is restored |
| UserController.ProfileUpdate | controllers/user.controller.js:57-62 | the profile update has exactly the keys name, phone, address and avatar, each holding the body's value or nothing |
| UserController.StripProtected | controllers/user.controller.js:81 | the admin update as written is the body without password, resetPasswordToken and resetPasswordExpire, with every other key and value kept, operator keys included |
| UserController.StripForUpdate | controllers/user.controller.js:81 | the corrected admin update keeps exactly the body keys that are neither protected nor update operators, with their values |
| UserController.SetFields | controllers/user.controller.js:83-86 | `findByIdAndUpdate` sets every plain key of the update to its value, and the fields of an object under `$set` where no plain key names them; an update without operator keys sets exactly its own keys |
| UserController.Apply | controllers/user.controller.js:83-86 | the updated document holds the stored fields and the fields the update sets; a set field takes the update's value and every other stored field keeps its value |
| UserController.PlainUpdate | controllers/user.controller.js:83-86 | an update without operator keys is merged into the document key by key |
| UserController.ProfileUpdateConfined | controllers/user.controller.js:57-67 | a profile update changes no field outside the four profile fields, and sets each profile field the body supplies |
| UserController.SetOperatorOverwritesPassword | controllers/user.controller.js:81-86 | as written, a body whose `$set` key holds an object naming the password makes the stored password that value, whatever it was |
| UserController.UpdateUserKeepsSecrets | controllers/user.controller.js:81-86 | the corrected admin update leaves the password and reset-token fields as they were, takes every plain body field that is not protected, and keeps every field the body does not name |
| UserController.SafeUser | controllers/user.controller.js:40-41 | the returned user document is the created one without its password |
| UserController.CreateUserReply | controllers/user.controller.js:36-50 | a created user answers 201 without the password; duplicate key code 11000 answers 400; any other failure answers 500 |
| UserController.UserDirectory.DeleteUser | controllers/user.controller.js:100-115 | a missing user answers 404; otherwise only its `isActive` becomes false |
| UserController.DeletedUserLockedOut | controllers/user.controller.js:108 | a soft-deleted user whose token still verifies is refused by `protect` with 403 |

## Left out

- Database I/O. `find`, `populate`, `save`, `findOneAndUpdate`, sorting, `skip`/`limit`
  and the `$text` search are replaced by maps and sequences. The listing query is
  built but not run.
- Schema checks on `save`. Only the checks that can fail in the modelled handlers are
  modelled: `stock >= 0` on a book save, and the order schema on `Order.create`.
- Unique indexes. Only the unique user key of a cart is modelled, as the cart map.
- Concurrency. Each handler is one atomic step, so the read-then-write race on stock
  between concurrent orders is not modelled.
- Floating point. Prices are integers and the 10% tax is an exact `real`. The JS double
  product `itemsPrice * 0.1` and its rounding are not modelled.
- Time. `Date.now()` is the `now` parameter.
- Foreign libraries become parameters:
  - `jwt.verify` is a function from token to user id, and the user lookup is a map;
  - `isEmail` is a predicate;
  - bcrypt is left out;
  - `slugify` in the Book pre-save hook is left out.
- Category schema limits. The name (at most 100 characters) and description (at most
  500) limits are not modelled; no modelled operation creates or edits a category's
  text.
- Default values. `addToCart` adds 1 copy without a quantity, and the listing uses page 1
  and limit 12 by default; the model has these. The schema defaults of fields no
  modelled handler writes are not modelled.
- JSON types in the validators. Text fields are strings, and express-validator's string
  rules read a number or boolean as its string form; only the phone rule of registration checks a
  type, and it is modelled.
- UserController.ProfileUpdateConfined: assumes the update drops keys whose value is
  `undefined`. Mongoose 6 and later behave that way. server.js:24-27 passes 5.x-era
  connect options, and under 5.x defaults an absent profile field is set to null; the
  model does not capture that.
- Input coercion. String-to-number coercion of query and body values is not modelled.
  Quantities and prices arrive as numbers; `page` and `limit` arrive as parsed numbers.
  A negative or non-numeric `limit` is not modelled.
- BookController.Skip: states only non-negativity. The value `(page − 1) × limit` is its
  definition.
- Categories.Lower: lower-cases ASCII letters only, so it differs from `toLowerCase` on
  every non-ASCII capital. The slug drops those letters either way, except where the
  lower case contains an ASCII letter: U+0130 becomes 'i' plus a combining mark, and
  U+212A becomes 'k'. For those two the model's slug lacks the letter.
- CartController.CartStore.AddToCart, CartController.CartStore.UpdateCartItemQuantity,
  CartController.CartStore.RemoveFromCart: match line items by the ObjectId the request
  text casts to, the evident intent, and not by the text comparison of
  controllers/cart.controller.js:51, :115 and :160. The as-written matching is
  `AddToItemsAsWritten`, `UpdateItemsAsWritten` and `RemoveText`; see "Findings".
- ObjectIds.CastObjectId: only 24-digit hexadecimal text casts. Mongoose also casts any
  12-character string, byte by byte. `addToCart` and `updateCartItemQuantity` are
  reached only after `isMongoId` accepted the id, which requires 24 characters, and
  `removeFromCart` never casts, so no modelled handler meets 12-character text. Text
  that passes `isMongoId` and does not cast (a `0x` prefix) is modelled: `addToCart`
  answers `InvalidId`, the 500 of its catch block, and `updateCartItemQuantity`
  finds no line item.
- Validation.ValidateCartItem: takes `isMongoId` as validator.js 13 defines it,
  `isHexadecimal` (an optional `0x` or `0h` prefix, then hexadecimal digits, in either
  case) and length 24. The validator version is not pinned here; a version whose
  `isHexadecimal` has no prefix would make the rule equal to `IsObjectIdHex`.
- UserController.SetFields: models the `$set` operator only. `$unset`, `$inc`, `$push`
  and the other operators, and nested operator keys, are not modelled; under the
  corrected `StripForUpdate` no operator reaches the update. models/User.js is not part
  of this model, so its update validators and hooks are not modelled either.
- Trimming of the category name, the book title and the order notes is not modelled.
- Response shaping is not modelled: populated documents, field selection, the localized
  messages, and the generic 500 catch blocks. Outcomes are error tags.
- Wiring files are not modelled. server.js, the routes, seeder.js, the Author and
  Publisher controllers and models, and the Category controller are not part of this model. The routes
  put `validateAddToCart` in front of `addToCart`, so the handler's negative-delta
  branch cannot be reached over HTTP; the model still covers it.
- The `Order` import. controllers/order.controller.js:2 binds the whole module object,
  while models/Order.js exports `{ Order, orderSchema }`. The model follows the intended
  behaviour, with `Order` being the model.
- `paymentInfo`, `numReviews`, `images`, `publishedYear` and the other fields that no
  modelled handler reads are not modelled.
- The read-only handlers are not modelled: `getUserOrders`, `getAllOrders`, `getUsers`,
  `getUser`, `getFeaturedBooks` and `getBestsellers`. Only the owner-or-admin check of
  `getSingleOrder` is modelled. `createBook` and `updateBook` are ORM pass-through.

## Findings

| source | as written | input that shows it | evidently intended | confidence | as-written member | corrected member |
|---|---|---|---|---|---|---|
| controllers/cart.controller.js:51 | `addToCart` looks for the line item by comparing each stored id's `toString()` with the request's `bookId` text, and pushes `{ book: bookId }` when none is equal | a cart holding book `00000000000000000000000a` once and a request with `bookId` `00000000000000000000000A`: `isMongoId` and `findById` accept the text, no stored text equals it, and a second line item for the same book is pushed | the line item of the book the id names is found whatever the case of the digits, so a book has at most one line item | not executed | CartController.CaseMismatchDuplicates | CartController.CartStore.AddToCart |
| controllers/cart.controller.js:115 | `updateCartItemQuantity`, and the filter of `removeFromCart` at line 160, compare the same way | the same cart and `PUT` or `DELETE /api/cart/items/00000000000000000000000A` with quantity 2: the update answers 404 and the delete leaves the line item | the update and the delete act on the line item of the book the id names | not executed | CartController.CaseMismatchMissesLine | CartController.CartStore.UpdateCartItemQuantity |
| controllers/user.controller.js:81 | `updateUser` strips only password, resetPasswordToken and resetPasswordExpire from the body and passes the rest to `findByIdAndUpdate`, which reads a top-level `$set` key as an update operator; no sanitizer is installed among the middleware of server.js:14-21, and the update rule set (validate.js:112-126) allows extra keys | an admin `PUT /api/users/:id` with body `{"name":"n","email":"a@b.c","password":"xxxxxx","$set":{"password":"pppppp"}}`: the rules pass, the top-level password is stripped, and the update sets the stored password to `pppppp` | the admin update never changes the password or reset-token fields, so operator keys are dropped along with the protected fields | not executed | UserController.SetOperatorOverwritesPassword | UserController.UpdateUserKeepsSecrets |
