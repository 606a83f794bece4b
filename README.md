# SellMate-BE controllers and schema, modelled in Dafny

SellMate-BE is the HTTP back end of a second-hand marketplace. Signed-in
users list products for sale, keep a cart, a wishlist and an address, review
products and place orders. Anyone can browse, search and see the
best-selling products. This project models:

- the request handlers under `src/controllers/`;
- the database tables they work on (`src/db/schema.ts`).

Each handler becomes one Dafny member over a model of the database:

- **The database** is the class `Store.Db`.
  - It holds one sequence of rows per table.
  - `Valid()` is every schema constraint the handlers can reach:
    - primary keys;
    - the unique email;
    - the rating CHECK;
    - the foreign keys to `products` and `orders`.
- **Handlers that write** are methods.
  - Each takes the database, the optional signed-in user and the request values.
  - Each returns the HTTP status.
  - Each states the new contents of the table it changes (its `modifies`
    frame names only that table).
  - Each keeps `Valid()`.
- **Handlers that only read** are functions.
  - They take the table contents and return a `Response` (status, payload).
  - The payload is `None` where the handler sends none.
- **Request values** that JavaScript tests for truthiness (`!x`, `x || d`)
  are `Option`s. `Common.Truthy` and `Common.TruthyNumber` decide them as
  JavaScript does: the empty string and 0 are falsy.
- **Values the handler draws itself** are parameters:
  - the payment decision (`Math.random() < 0.98`);
  - the current time;
  - ids from `uuidv4()` or `gen_random_uuid()`, as ids not yet in the table.
- **Money** (numeric(10,2)) is an integer count of cents.

The modules are:

| module | file | handlers |
|---|---|---|
| `Common` | common.dfy | JavaScript truthiness; filtering and updating rows by a predicate |
| `Schema` | schema.dfy | row types, defaults, constraints, cascading deletes |
| `Store` | store.dfy | the database object |
| `OrderController` | orders.dfy | getUserOrders, getOrderById, getOrderHistoryById, placeOrder |
| `CartController` | cart.dfy | addToCart, removeFromCart, getCart, updateCartQuantity |
| `WishlistController` | wishlist.dfy | addToWishlist, getWishlist, updateWishlist, removeFromWishlist |
| `AddressController` | address.dfy | getAddress, addAddress, updateAddress |
| `ReviewController` | reviews.dfy | addReview, getReviewsByProduct, updateReview, deleteReview |
| `UserProductController` | seller_products.dfy | addProduct (both copies), showMyProducts, deleteProduct, updateProduct |
| `Pagination` | pagination.dfy | page number, page size, offset and page count of the listings |
| `ProductSearch` | product_search.dfy | allProducts, keySearch (both copies) |
| `PublicProductController` | public_products.dfy | getById, getTopSellingProducts |
| `ProfileController` | profile.dfy | getUserProfile, updateUserProfile |

### placeOrder

`placeOrder` is modelled as written, in the order of its writes:

1. It writes the order row with its final status ("confirmed" or "failed").
2. On a declined payment it records a "failed" event and stops.
3. Otherwise it inserts one item per cart line.
4. Then it walks the cart. For each line it re-reads the product and writes
   the lowered quantity, stopping at the first line whose quantity would go
   negative.
5. Every write before the stop stays.

Everything after the payment decision runs only when the payment is approved
(steps 3 to 5 and the final "confirmed" event).

`OrderController.StockAfter` and `OrderController.Debited` state what the
products table holds afterwards.

## Model

| member | source | states |
|---|---|---|
| `Common.First` | src/controllers/user.address.Controller.ts:17-21 | `LIMIT 1` / `result[0]`: some row is returned exactly when some row matches, and the returned row matches and is in the table |
| `Schema.DeleteOrder` | src/db/schema.ts:114-154 | deleting an order removes exactly the rows of orders, order_items and order_history with its id (ON DELETE CASCADE), leaves the other tables equal, and keeps every constraint |
| `Schema.DeleteProduct` | src/db/schema.ts:114-217 | deleting a product removes exactly it and the order_items, reviews, wishlist and cart rows naming it (ON DELETE CASCADE), leaves users, orders, history and addresses equal, and keeps every constraint |
| `Schema.FindProduct` | src/controllers/user.order.Controllers.ts:166-170 | the lookup by id finds a row exactly when the id is in the table, and the row has that id |
| `OrderController.OrdersOf` | src/controllers/user.order.Controllers.ts:16-19 | the selected rows are exactly the orders whose user_id is the caller |
| `OrderController.GetUserOrders` | src/controllers/user.order.Controllers.ts:9-36 | 401 exactly without a user; 404 exactly when the caller has no order; otherwise 200 with exactly the caller's orders |
| `OrderController.ItemsOf` | src/controllers/user.order.Controllers.ts:56-59 | the selected items are exactly those with that order_id |
| `OrderController.GetOrderById` | src/controllers/user.order.Controllers.ts:38-69 | 401 without a user; 200 exactly when an order with that id belongs to the caller, with that order and exactly its items; 404 otherwise (also for another user's order) |
| `OrderController.HistoryOf` | src/controllers/user.order.Controllers.ts:79-82 | the selected events are exactly those with that order_id |
| `OrderController.GetOrderHistoryById` | src/controllers/user.order.Controllers.ts:71-99 | 401 without a user; 404 exactly when the order has no events; otherwise 200 with exactly its events |
| `OrderController.HistoryIgnoresOwner` | src/controllers/user.order.Controllers.ts:79-86 | any two signed-in users get the same answer: there is no ownership check |
| `OrderController.TotalIsSumOfSubtotals` | src/controllers/user.order.Controllers.ts:117-120 | the order's total equals the sum of its items' subtotals, each subtotal being price × quantity of its line |
| `OrderController.NewItemsAddUp` | src/controllers/user.order.Controllers.ts:153-162 | the items inserted for a new order are the only items with its id, and they add up to the order's total |
| `OrderController.ShortLine` | src/controllers/user.order.Controllers.ts:181-190 | names the first cart line whose re-read stock, less the earlier lines' take, is below its quantity; None exactly when every line is covered |
| `OrderController.DebitedKeepsKeys` | src/controllers/user.order.Controllers.ts:192-195 | lowering quantities keeps every product id, so primary key and foreign keys survive |
| `OrderController.StockAfterDebit` | src/controllers/user.order.Controllers.ts:165-195 | after the debit a product's stock is its starting stock less the total quantity the lines ask of it |
| `OrderController.DebitNextLine` | src/controllers/user.order.Controllers.ts:192-195 | one turn of the loop, writing the re-read quantity less the line's, extends the debit by that line |
| `OrderController.DemandWithinStock` | src/controllers/user.order.Controllers.ts:181-190 | when every line was covered, no product is asked for more than its stock |
| `OrderController.DebitedNeverNegative` | src/controllers/user.order.Controllers.ts:181-195 | when every line was covered, no product named in the cart ends negative |
| `OrderController.CoveredPrefix` | src/controllers/user.order.Controllers.ts:165-196 | the lines before the first short one are covered on their own |
| `OrderController.NewOrderKeepsConsistent` | src/controllers/user.order.Controllers.ts:125-131 | inserting an order with a fresh id keeps every constraint and adds exactly that id |
| `OrderController.NewItemsKeepConsistent` | src/controllers/user.order.Controllers.ts:153-162 | inserting items for an existing order whose products all exist keeps every constraint |
| `OrderController.DebitKeepsConsistent` | src/controllers/user.order.Controllers.ts:192-195 | lowering quantities keeps every constraint |
| `OrderController.NewEventKeepsConsistent` | src/controllers/user.order.Controllers.ts:199-204 | a history event for an existing order keeps every constraint |
| `OrderController.DemandAbsent` | src/controllers/user.order.Controllers.ts:165-196 | a product no line names is asked for nothing and keeps its stock |
| `OrderController.DebitedPrefixBounded` | src/controllers/user.order.Controllers.ts:181-195 | while the loop runs, every quantity is either untouched or non-negative |
| `OrderController.FirstShortLine` | src/controllers/user.order.Controllers.ts:181-190 | the line where the loop stops is the one ShortLine names |
| `OrderController.ReRead` | src/controllers/user.order.Controllers.ts:166-181 | what the loop re-reads for line i, less its quantity, is the starting stock less what lines 0..i ask of that product |
| `OrderController.StockStep` | src/controllers/user.order.Controllers.ts:181-195 | one turn: the new quantity is non-negative exactly when the line is covered, and then writing it extends the debit and the coverage |
| `OrderController.StockAfterBounded` | src/controllers/user.order.Controllers.ts:181-195 | the stock loop never writes a negative quantity: each row keeps its quantity or ends non-negative |
| `OrderController.TakeStock` | src/controllers/user.order.Controllers.ts:165-196 | the loop ends with all lines taken exactly when ShortLine is None, or stops at the line ShortLine names; the products table is then StockAfter of the old one |
| `OrderController.PlaceOrder` | src/controllers/user.order.Controllers.ts:102-213 | 401 or 400 (missing or empty cart) with every table unchanged. Otherwise exactly one order row with the caller's total and status "confirmed" iff approved, never "pending". Decline: 402 with the id, one "failed" event, no items, no stock change. Unknown product: 500, order row kept. Else one item per line adding up to the total, and either 201 with every product lowered by its demand and one "confirmed" event, or 400 with lines before the short one debited, later ones untouched, no event. Users, reviews, wishlist, cart and addresses are never touched; no written quantity is negative |
| `OrderController.FulfilOrder` | src/controllers/user.order.Controllers.ts:152-208 | after an approved payment: 500 with nothing written for an unknown product; otherwise the items, then 201 with the full debit and a "confirmed" event, or 400 with the partial debit and no event |
| `OrderController.DebitAndConfirm` | src/controllers/user.order.Controllers.ts:165-208 | the stock loop followed by the "confirmed" event exactly when every line had stock |
| `CartController.CartLineOf` | src/controllers/user.cart.Controllers.ts:22-26 | a line is found exactly when the caller has a row for the product, and it is such a row |
| `CartController.WithCartQuantityShape` | src/controllers/user.cart.Controllers.ts:112-117 | the update sets the quantity of the caller's rows for the product and changes no other row or column |
| `CartController.UpdateOverwrites` | src/controllers/user.cart.Controllers.ts:112-117 | updateCartQuantity overwrites (does not add to) the held quantity, and creates no line when there is none |
| `CartController.UpdateIdempotent` | src/controllers/user.cart.Controllers.ts:112-117 | repeating the update changes nothing more |
| `CartController.UpdateKeepsPairsUnique` | src/controllers/user.cart.Controllers.ts:112-117 | the update keeps each (user, product) pair on at most one row |
| `CartController.RemoveDeletesExactly` | src/controllers/user.cart.Controllers.ts:65-69 | removeFromCart deletes all and only the caller's rows for the product |
| `CartController.RemoveIdempotent` | src/controllers/user.cart.Controllers.ts:65-69 | removing twice is removing once |
| `CartController.RemoveKeepsPairsUnique` | src/controllers/user.cart.Controllers.ts:65-69 | deleting keeps each pair on at most one row |
| `CartController.AppendLine` | src/controllers/user.cart.Controllers.ts:37-43 | a new line holds the requested quantity |
| `CartController.AddMerges` | src/controllers/user.cart.Controllers.ts:22-43 | after addToCart the caller holds the old quantity plus the requested one, or the requested one for a new line |
| `CartController.AddShape` | src/controllers/user.cart.Controllers.ts:22-43 | addToCart adds a row only when there was no line, and leaves every other row as it was |
| `CartController.AddKeepsPairsUnique` | src/controllers/user.cart.Controllers.ts:22-43 | repeated addToCart calls never create a second row for a (user, product) pair |
| `CartController.GetCart` | src/controllers/user.cart.Controllers.ts:76-95 | 401 exactly without a user; otherwise 200 with exactly the caller's rows |
| `CartController.CartKeepsConsistent` | src/db/schema.ts:205-217 | a cart whose rows name existing products keeps every constraint |
| `CartController.UpdateKeepsConsistent` | src/controllers/user.cart.Controllers.ts:112-117 | updating quantities keeps every constraint |
| `CartController.AddToCart` | src/controllers/user.cart.Controllers.ts:7-48 | 401; 400 with no change for a missing product id or a quantity that is falsy or below 1; 200 and a merged quantity for an existing line; 201 and one new row otherwise, or 500 with no change if the product does not exist; pairs stay unique |
| `CartController.AddLine` | src/controllers/user.cart.Controllers.ts:22-43 | the merge-or-insert after validation: 200 with the merge, 201 with the insert, 500 with no change for an unknown product |
| `CartController.RemoveFromCart` | src/controllers/user.cart.Controllers.ts:50-74 | 401; 400 without a product id; otherwise 200, even when nothing matched, with exactly the caller's rows for the product gone |
| `CartController.UpdateCartQuantity` | src/controllers/user.cart.Controllers.ts:97-122 | 401; 400 with no change for an invalid request; otherwise 200, even when nothing matched, with the quantity overwritten |
| `WishlistController.JoinRow` | src/controllers/user.wishlist.Controllers.ts:49-61 | one joined entry per product row with the wishlist row's product id |
| `WishlistController.Join` | src/controllers/user.wishlist.Controllers.ts:49-61 | the inner join gives exactly the caller's rows paired with an existing product |
| `WishlistController.GetWishlist` | src/controllers/user.wishlist.Controllers.ts:41-68 | 401 exactly without a user; otherwise 200 with the join |
| `WishlistController.GetWishlistComplete` | src/controllers/user.wishlist.Controllers.ts:49-61 | with the foreign key, every wishlist row of the caller appears in the join, and every joined entry comes from one |
| `WishlistController.AddKeepsPairsUnique` | src/controllers/user.wishlist.Controllers.ts:18-34 | adding after the duplicate check keeps (user, product) pairs unique |
| `WishlistController.WithProductShape` | src/controllers/user.wishlist.Controllers.ts:90-95 | updateWishlist changes only the product_id of the caller's row with that id |
| `WishlistController.WithProductKeepsConsistent` | src/controllers/user.wishlist.Controllers.ts:90-95 | pointing a row at an existing product keeps every constraint |
| `WishlistController.UpdateCanDuplicate` | src/controllers/user.wishlist.Controllers.ts:90-95 | updateWishlist has no duplicate check: a wishlist with unique pairs can get two rows for one product |
| `WishlistController.RemoveDeletesExactly` | src/controllers/user.wishlist.Controllers.ts:126-130 | removeFromWishlist deletes all and only the caller's rows for the product, and keeps pairs unique |
| `WishlistController.WithoutKeepsConsistent` | src/controllers/user.wishlist.Controllers.ts:126-130 | deleting keeps every constraint |
| `WishlistController.AddToWishlist` | src/controllers/user.wishlist.Controllers.ts:7-39 | 401; 400 with no change when the pair exists; otherwise 201 with exactly one new row, or 500 with no change for an unknown product; pairs stay unique |
| `WishlistController.UpdateWishlist` | src/controllers/user.wishlist.Controllers.ts:70-102 | 401; 404 with no change unless a row with that id belongs to the caller; otherwise 200 with only that row's product changed, or 500 for an unknown product |
| `WishlistController.RemoveFromWishlist` | src/controllers/user.wishlist.Controllers.ts:104-142 | 401; 404 with no change when the pair is absent; otherwise 200 with all and only the caller's rows for the product gone |
| `AddressController.GetAddress` | src/controllers/user.address.Controller.ts:7-38 | 401 exactly without a user; 404 exactly when the caller has no address; otherwise 200 with one of the caller's addresses |
| `AddressController.UpdateFieldCount` | src/controllers/user.address.Controller.ts:103-110 | updateFields always has at least one key (updated_at), so the 400 at line 130 is unreachable |
| `AddressController.PatchSetsTruthyFields` | src/controllers/user.address.Controller.ts:103-110 | the update sets exactly the truthy fields, keeps the others, the owner and the creation time, and refreshes updated_at |
| `AddressController.PatchIdempotent` | src/controllers/user.address.Controller.ts:103-110 | the same update twice gives the same row as once |
| `AddressController.EmptyPatchTouchesOnlyTime` | src/controllers/user.address.Controller.ts:103-110 | a body with no truthy field only refreshes updated_at |
| `AddressController.PatchedRowsShape` | src/controllers/user.address.Controller.ts:121-127 | only the caller's rows change, each patched; one address per user is kept |
| `AddressController.AddKeepsOnePerUser` | src/controllers/user.address.Controller.ts:57-81 | adding only when the caller has none never gives a user two addresses |
| `AddressController.AddAddress` | src/controllers/user.address.Controller.ts:40-86 | 401; 400 with no write when country, city or address is missing; 409 with no write when the caller has an address; otherwise 201 with exactly one new row; one address per user is kept |
| `AddressController.UpdateAddress` | src/controllers/user.address.Controller.ts:88-135 | 401; 400 for an empty or null body; 404 with no change when the caller has no address; otherwise 200 with the caller's rows patched; one address per user is kept |
| `ReviewController.FindReview` | src/controllers/user.review.Controllers.ts:60-64 | the lookup finds a review exactly when the id is in the table |
| `ReviewController.MayChangeIffOwned` | src/controllers/user.review.Controllers.ts:60-67 | the guard passes exactly when a review with that id belongs to the caller |
| `ReviewController.ReviseRowsShape` | src/controllers/user.review.Controllers.ts:69-76 | the update changes only that review: new rating and comment where given, fresh updated_at, the rest kept |
| `ReviewController.ReviseKeepsConsistent` | src/controllers/user.review.Controllers.ts:69-76 | an update whose rating satisfies the CHECK keeps every constraint |
| `ReviewController.DeleteRemovesExactly` | src/controllers/user.review.Controllers.ts:105 | deleteReview removes exactly that review |
| `ReviewController.DeleteKeepsConsistent` | src/controllers/user.review.Controllers.ts:105 | deleting keeps every constraint |
| `ReviewController.GetReviewsByProduct` | src/controllers/user.review.Controllers.ts:32-47 | 201 with exactly the reviews of the product; no user is needed |
| `ReviewController.AddReview` | src/controllers/user.review.Controllers.ts:7-30 | 401; 500 with no change when the rating is missing or outside 1..5 (the CHECK at src/db/schema.ts:176) or the product does not exist; otherwise 201 with one new row whose author is the caller |
| `ReviewController.UpdateReview` | src/controllers/user.review.Controllers.ts:49-83 | 401; 403 with no change when the review is absent or another user's; 500 for a rating outside 1..5; otherwise 200 with only that review revised |
| `ReviewController.DeleteReview` | src/controllers/user.review.Controllers.ts:85-112 | 401; 403 with no change when the review is absent or another user's; otherwise 200 with exactly that review gone |
| `UserProductController.NewProductDefaults` | src/controllers/user.product.Controllers.ts:41-60 | the new row's seller is the session user, status is "available" unless a truthy one is given, quantity defaults to 1, and the auction columns are null unless it is an auction |
| `UserProductController.AppliedKeepsId` | src/controllers/user.product.Controllers.ts:154-170 | the id is never part of the update set; a patch naming no column changes nothing |
| `UserProductController.AppliedIdempotent` | src/controllers/user.product.Controllers.ts:160-170 | applying the same update twice is applying it once |
| `UserProductController.ApplyToOwnedShape` | src/controllers/user.product.Controllers.ts:160-170 | the update changes only the caller's product with that id |
| `UserProductController.ApplyKeepsIds` | src/controllers/user.product.Controllers.ts:160-170 | the update keeps the set of product ids |
| `UserProductController.ApplyKeepsKeyed` | src/controllers/user.product.Controllers.ts:160-170 | the update keeps ids unique |
| `UserProductController.ApplyKeepsConsistent` | src/controllers/user.product.Controllers.ts:160-170 | the update keeps every constraint |
| `UserProductController.OwnedIsTheRow` | src/controllers/user.product.Controllers.ts:116-124 | with ids as primary key, deleting by (seller, id) is deleting by id |
| `UserProductController.ShowMyProducts` | src/controllers/user.product.Controllers.ts:73-100 | always 200; with a user exactly the products whose seller is the caller; without one no payload |
| `UserProductController.AddProduct` | src/controllers/user.product.Controllers.ts:7-71 | 401 with no insert; 400 with no insert when title, condition or price is falsy; otherwise 201 with exactly one new row, the one NewProduct builds; src/controllers/userControllers.ts:5-69 is the same handler line for line |
| `UserProductController.DeleteProduct` | src/controllers/user.product.Controllers.ts:102-137 | 401; 400 without an id; 404 with nothing changed unless the caller sells a product with that id; otherwise 200 and the product with everything that references it is gone |
| `UserProductController.UpdateProduct` | src/controllers/user.product.Controllers.ts:139-188 | 401; 400 without an id or with no other key; 500 when no key names a column; 404 with no change unless the caller sells that product; otherwise 200 with the updated row and only that row changed |
| `Pagination.PageNumber` | src/controllers/product.public.Controller.ts:13 | the parsed page, or 1 when parsing gives NaN or 0; never 0 |
| `Pagination.PageSize` | src/controllers/product.public.Controller.ts:14 | the parsed limit, or 10 when parsing gives NaN or 0; never 0 |
| `Pagination.CeilDiv` | src/controllers/product.public.Controller.ts:29 | the page count r is the least with count ≤ r × size |
| `Pagination.Window` | src/controllers/product.public.Controller.ts:18-22 | LIMIT/OFFSET gives at most size rows, the ones from the offset on, as many as remain |
| `Pagination.Paginate` | src/controllers/product.public.Controller.ts:13-40 | 200 with a page exactly when the parsed page number and page size are both at least 1; otherwise 500 with no page |
| `Pagination.AcceptedIsPositive` | src/controllers/product.public.Controller.ts:15-22 | Postgres accepts the LIMIT/OFFSET exactly when page number and size are both at least 1 |
| `Pagination.PaginateWindow` | src/controllers/product.public.Controller.ts:13-35 | an accepted page holds at most pageSize rows, row i being row offset + i; totalCount counts every row and totalPages is its ceiling over pageSize |
| `Pagination.NonEmptyIffInRange` | src/controllers/product.public.Controller.ts:15-29 | a page has rows exactly when its number is at most totalPages |
| `Pagination.EveryRowOnItsPage` | src/controllers/product.public.Controller.ts:15-29 | every row appears on page i / size + 1, which is within totalPages |
| `ProductSearch.AllProducts` | src/controllers/product.public.Controller.ts:8-41 | 200 exactly when page number and page size are at least 1, else 500 with no payload. A 200 carries the parsed page number, at most pageSize products, namely those from offset (page − 1) × size on, as many as remain, totalCount equal to the number of products, and totalPages its ceiling over pageSize. src/controllers/productController.ts:8-40 is the same handler with payload key `data` |
| `ProductSearch.KeySearch` | src/controllers/product.public.Controller.ts:43-109 | 200 exactly when page number and page size are at least 1, else 500 with no payload. A 200 carries the same page as allProducts, taken from the matching products only, with totalCount the number of matching products and totalPages its ceiling; every returned row matches the keyword. src/controllers/productController.ts:42-107 is the same handler with payload key `data` |
| `ProductSearch.KeySearchRowsCounted` | src/controllers/product.public.Controller.ts:53-94 | page and count share one predicate: every returned row is a counted row, at its offset |
| `ProductSearch.EmptyKeywordListsAll` | src/controllers/product.public.Controller.ts:47-73 | with no keyword the pattern matches every row, so keySearch answers as allProducts |
| `ProductSearch.NoMatchNoRows` | src/controllers/product.public.Controller.ts:53-97 | when nothing matches, the page is empty and totalCount and totalPages are 0 |
| `PublicProductController.GetById` | src/controllers/product.public.Controller.ts:110-129 | 400 exactly without an id; 404 exactly when no row has it; otherwise 200 with that row |
| `PublicProductController.Dedup` | src/controllers/product.public.Controller.ts:142-147 | GROUP BY: the same members, each once |
| `PublicProductController.Rank` | src/controllers/product.public.Controller.ts:133-148 | each group paired with sum(order_items.quantity) of its product |
| `PublicProductController.Insert` | src/controllers/product.public.Controller.ts:148 | inserting into a non-increasing ranking keeps it non-increasing and adds exactly that group |
| `PublicProductController.SortDesc` | src/controllers/product.public.Controller.ts:148 | ORDER BY sum DESC: non-increasing, same length and members |
| `PublicProductController.InsertPermutes` | src/controllers/product.public.Controller.ts:148 | insertion adds exactly one occurrence |
| `PublicProductController.SortPermutes` | src/controllers/product.public.Controller.ts:148 | the ordering is a permutation of the groups |
| `PublicProductController.SortKeepsDistinct` | src/controllers/product.public.Controller.ts:148 | sorting keeps distinct groups distinct |
| `PublicProductController.GetTopSellingProducts` | src/controllers/product.public.Controller.ts:131-166 | 200 with at most 10 rows; this is the result the grouping is meant to give (see "## Left out" on the json grouping column) |
| `PublicProductController.GroupsHaveDistinctIds` | src/controllers/product.public.Controller.ts:141-147 | with ids as primary key, the groups have distinct product ids |
| `PublicProductController.TopRankedMembers` | src/controllers/product.public.Controller.ts:140-148 | every ranked row is an existing product some order item names, with its summed quantity |
| `PublicProductController.TopSellingSize` | src/controllers/product.public.Controller.ts:149-153 | the answer has min(10, number of ordered products) rows, and is empty exactly when no order item names an existing product |
| `PublicProductController.TopSellingSorted` | src/controllers/product.public.Controller.ts:148 | the answer is ordered by summed quantity, highest first |
| `PublicProductController.TopSellingDistinct` | src/controllers/product.public.Controller.ts:142-147 | the answer names each product once |
| `PublicProductController.LeftOutRanksBelow` | src/controllers/product.public.Controller.ts:148-149 | in a sorted ranking, an entry past the first k ranks no higher than any of them |
| `PublicProductController.TopSellingIsTop` | src/controllers/product.public.Controller.ts:148-149 | it is a top ten: an ordered product left out sold no more than any product listed |
| `ProfileController.GetUserProfile` | src/controllers/user.profile.Controllers.ts:7-35 | 401 exactly without a user; 404 exactly when the caller has no row; otherwise 200 with the caller's row |
| `ProfileController.ProfiledSetsTruthyFields` | src/controllers/user.profile.Controllers.ts:51-57 | the update sets exactly the truthy name and image, always sets updatedAt, and keeps id, email and creation time |
| `ProfileController.ProfiledIdempotent` | src/controllers/user.profile.Controllers.ts:51-57 | the same update twice gives the same row as once |
| `ProfileController.ProfileRowsShape` | src/controllers/user.profile.Controllers.ts:51-57 | only the caller's row changes |
| `ProfileController.ProfileKeepsEmailsUnique` | src/controllers/user.profile.Controllers.ts:51-57 | the update keeps emails unique |
| `ProfileController.UpdateUserProfile` | src/controllers/user.profile.Controllers.ts:37-64 | 401 with no change; 400 with no change when neither name nor image is truthy; otherwise 200 with only the caller's row updated |

## Left out

- Authentication, sessions and routing: the caller is an optional user id, or the session's (id, name) for addProduct. The middleware, better-auth and the route files only bind and authenticate.
- The session, account, verification and jwks tables, including the uniqueness of session.token: no modelled handler reads or writes them.
- The payments table: no handler uses it.
- Response helpers, JSON body parsing and logging: a result is a status with an optional payload. Success messages, the `success` flag and the `data` vs `result` payload key are not modelled.
- Concurrency: every handler is one sequential step. There are no transactions, and the read-then-write races of placeOrder and addToCart are not modelled.
- Floating point: money is integer cents, totalPages is integer ceiling division, and numeric(10,2) overflow is not modelled.
- Randomness and generated ids: the payment decision and every uuid are parameters; fresh ids are required not to be in the table already.
- ILIKE: its case folding and `%`/`_` wildcard rules are the abstract parameter `ilike`.
- Row order: rows come back in table order where SQL gives no ORDER BY. Ties in the top-selling ranking are broken by insertion order, which SQL leaves unspecified.
- getTopSellingProducts groups by products.images, a `json` column (src/db/schema.ts:78). Postgres has no equality operator for `json` and rejects that GROUP BY, so the query fails and the handler answers 500 on every call. The model gives the result the grouping was meant to produce: one group per ordered product, which is what grouping by product_id, title, images and price gives when product ids are a primary key.
- keySearch returns its totalCount as the string Postgres gives for COUNT(*); the model gives the number.
- NOT NULL and type mismatches are not modelled as database errors:
  - the cart and wishlist inserts omit columns the schema requires (title, price, image at src/db/schema.ts:200-202 and 213-216);
  - getWishlist selects a created_at column that the wishlist table lacks;
  - orders.user_id is a uuid while user ids are text;
  - addresses.phone is NOT NULL but optional in addAddress;
  - product ids that are not uuids;
  - JSON null for NOT NULL columns in updateProduct;
  - strings in place of numbers or timestamps.

  The handlers' own logic is modelled over abstract rows.
- Two request cases are merged: an absent key and JSON null both read as None. In addProduct, null for negotiable or is_auction would store NULL where the model stores the default false.
- The price "0" sent as a string is truthy in JavaScript; prices are modelled as numbers, where 0 is falsy.
- Foreign keys to user (products.seller_id, reviews.user_id, cart, wishlist and address owners) are not checked: every caller is a signed-in user, and no modelled handler deletes users.
- Quantity ≥ 0 is not an invariant of the products table: addProduct and updateProduct copy a quantity unchecked. Only the stock loop's writes are proved non-negative.
- Column defaults the handlers always override: the order status default "pending" (placeOrder writes the final status) and the cart quantity default 1 (addToCart always supplies one).
- The 404 in placeOrder's stock loop (src/controllers/user.order.Controllers.ts:172-179) cannot be reached: an unknown product id already fails the order_items insert, whose foreign key answers 500 first.
- Ids of cart, address, order_items and order_history rows: no handler reads them.
- Common.First: states only that some matching row is returned, not that it is the first in table order, because SQL without ORDER BY gives no order either.
