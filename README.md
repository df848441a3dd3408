# Plant nursery shop: order and inventory bookkeeping in Dafny

This project models the bookkeeping under the HTTP handlers of a small plant
nursery web shop written in JavaScript, and proves properties of that model.

- **Catalogue.** Plants are filtered by category, `featured` flag and search
  text, looked up by id, and an admin-added plant gets the next id.
- **Orders.** A placed order is built with status `pending`, and its id is
  linked to the ordering user. Statuses are updated against the six-value
  vocabulary. The small in-memory order store keeps the orders.
- **Statistics.** The admin dashboard reports counts by status and by
  category, revenue without cancelled orders, and the ten most recent
  orders (the stored orders are sorted in place to get them).
- **Stock ledger.** In the service layer, a stock change is a sale or a
  restock. Every accepted change appends one transaction, and stock never
  goes negative. Checkout validates every line and then sells line by line.
  The product search filters, sorts and pages the catalogue.
- **Helpers.** The shipping fee, the pagination record, the e-mail and
  phone patterns, price text, and input sanitizing (trimming, then removing
  `<script>` blocks).
- **Browser cart.** Merging on add, removing, the item count and the
  checkout total.
- **Error middleware.** Classifies an error into a status code and message.

Both Express servers are modelled by one class, `Server.Nursery`. Its
`variant` is `FileBacked` for backend/server.js, which writes every change
to JSON files, and `InMemory` for backend/backend/server.js. The variant
decides the places where the two differ:

- whether `total` is required at placement;
- whether revenue also tests `total !== undefined`;
- the wording of error messages;
- whether a failed save turns into a 500.

Handlers are methods that take the request's fields and return the reply.
The module-level `plants`, `orders` and `users` arrays are fields the
methods reassign. The service layer (services.js) is modelled over
in-memory collections instead of MongoDB:

- plants are a map from id to document;
- transactions are an append-only sequence;
- orders are a sequence.

Other modelling choices:

- **Absent values.** An absent query parameter or body string is `""`,
  which the source's truthiness tests treat like `undefined`. An absent
  number is `None`.
- **Integers.** Prices, quantities, stock and timestamps are integers.
  Ids, timestamps and the result of saving a file are parameters.
- **Counters.** A JavaScript object used as a counter (`acc[key] =
  (acc[key] || 0) + 1`) becomes a sequence of groups in order of first
  appearance.
- **Sorting.** JavaScript's stable `sort` is modelled as insertion sort.
  For a total preorder, a stable sort has only one possible result.
- **Strings.** Only ASCII letters are lower-cased. `\s` is the ECMAScript
  whitespace set.

Where the code does not do what a reader of the design might expect, the
model follows the code:

- The Express servers never touch stock and never compute an order's
  total; the stored total is whatever the client posted.
- Both servers check the status value before they look up the order.
- Any valid status can replace any other.
- Cancelling an order does not restock.
- The service layer's `createOrder` saves the order before it decrements
  stock, and it checks each line on its own (see Findings).
- Its `getOrderStats` revenue includes cancelled orders.
- Its `getPlants` category filter is an exact, case-sensitive match.

## Model

| member | source | states |
|---|---|---|
| Text.ContainsAt | backend/server.js:312-316 | `includes` holds exactly when the term occurs at some offset of the text |
| Text.TrimSpec | backend/helpers.js:36 | `trim` keeps a middle slice, drops only whitespace around it, and leaves no whitespace at either end |
| Text.TrimIdempotent | backend/helpers.js:36 | trimming twice is trimming once |
| Text.NatToStringRoundTrip | backend/helpers.js:18 | the decimal text of a number reads back as that number |
| Text.IntToStringInjective | backend/helpers.js:18 | distinct integers have distinct decimal texts |
| Tally.GroupByKeys | backend/server.js:522-525 | the counter has one key per distinct status, exactly the statuses that occur |
| Tally.GroupByCounts | backend/server.js:522-525 | each key's count is its number of occurrences |
| Tally.GroupBySums | services.js:306-314 | the counts add up to the number of items and the per-key sums to the sum of all values |
| Tally.GroupByTotals | services.js:306-314 | each key's sum is the sum of exactly the values that came with that key |
| Catalogue.ListPlants | backend/server.js:319-323 | `count` is the length of `data` |
| Catalogue.ListPlantsExact | backend/server.js:299-317 | the three optional filters in a row equal one filter by the conjunction of the active conditions |
| Catalogue.ListPlantsSound | backend/server.js:296-328 | the listing is a subsequence of the catalogue in its order, holds exactly the plants passing every active filter (category case-insensitively, `featured` only for `'true'`, lower-cased name or description containing the lower-cased term), and `count` is its length; the in-memory server runs the same filter |
| Catalogue.GetPlant | backend/server.js:330-347 | returns the first plant whose id equals the parsed id; 404 `Plant not found` exactly when no plant has it or the id does not parse; both servers alike |
| Catalogue.MaxId | backend/server.js:430 | the result is at least every plant's id and is some plant's id |
| Catalogue.NextPlantId | backend/server.js:430 | the new id exceeds every existing id, is 1 for an empty catalogue, and is otherwise one more than an existing id |
| Catalogue.NextPlantIdFresh | backend/server.js:429-433 | appending a plant with the next id keeps ids distinct |
| OrderRecords.FindOrder | backend/backend/data/orders.js:15 | nothing exactly when no order has the id, otherwise the first order with it |
| OrderRecords.SetStatus | backend/server.js:487-497 | `None` exactly when no order has the id; otherwise only the first such order changes, and only its `status` and `updatedAt` |
| OrderRecords.SetStatusThenFind | backend/backend/data/orders.js:18-26 | after an update, looking the id up finds the new status and timestamp |
| Server.AdminRefusal | backend/server.js:235-245 | 401 without a token or with one that does not verify, 403 for a non-admin, and no refusal exactly for an admin |
| Server.NewOrderSpec | backend/server.js:358-378 | a new order is `pending` with `createdAt = updatedAt = now` whatever status, timestamps or user id the client sent; a client-sent id overrides the generated one; the user id is the token's |
| Server.LinkOrder | backend/server.js:383-389 | with a user id, only the first user with that id gets the order id appended to their list; without one, nothing changes |
| Server.LinkOrderOnce | backend/server.js:383-389 | linking changes exactly one user when a user with the token's id exists and none otherwise, and keeps every id and email |
| Server.RevenueSpec | backend/server.js:527-529 | revenue is the sum of the totals of orders that are not cancelled, a missing total counting 0, so the two servers' filters agree |
| Server.RevenueFixture | backend/backend/server.js:302-304 | pending orders of 300 and 250 with a cancelled one of 1000 give 550 |
| Server.StatsCounts | backend/server.js:518-538 | status counts sum to `totalOrders`, category counts to `totalPlants`, keys are distinct, each count is its key's occurrences, revenue is as above |
| Server.StatusKeysValid | backend/server.js:522-525 | when every stored order has a valid status, every key of `ordersByStatus` is a valid status |
| Server.RecentOrdersSpec | backend/server.js:531-533 | `recentOrders` has `min(10, n)` orders, newest first, drawn from the stored orders, and no order left out is newer than the last one kept |
| Server.Nursery.Register | backend/server.js:248-274 | missing name, email or password, or an email already taken, is a 400 with no change; otherwise exactly one user is appended, not admin, with no orders; emails stay unique; the in-memory server differs only in its messages |
| Server.Nursery.PlaceOrder | backend/server.js:350-401 | a missing field, empty items or an undefined total is a 400 with `orders` and `users` unchanged; otherwise exactly one order is appended and linked to the token's user, and it stays appended when the save fails and a 500 is returned; the in-memory variant does not require `total` and has no save to fail |
| Server.Nursery.AddPlant | backend/server.js:422-441 | refused for non-admins; a falsy name, category, price, image or description, or an undefined stock, is a 400 with no change; otherwise the plant is appended with the next id, keeping ids distinct |
| Server.Nursery.UpdateOrderStatus | backend/server.js:469-510 | refused for non-admins; an invalid status is a 400 before any lookup; an unknown id is a 404; neither changes anything; on success the orders are `SetStatus` of the old ones, and the reply is the updated first order with the id, which a lookup now finds; valid statuses stay valid; both servers alike |
| Server.Nursery.AdminStats | backend/server.js:512-556 | refused for non-admins; otherwise reports the statistics of the orders as they were and leaves the stored orders sorted newest first, a permutation of before; the in-memory variant omits the `total !== undefined` test from revenue |
| OrderStore.Store.GetAll | backend/backend/data/orders.js:6 | returns the stored orders, all of them, in the order they were added |
| OrderStore.Store.Add | backend/backend/data/orders.js:9-12 | appends exactly the order and returns it, so the count grows by one |
| OrderStore.Store.FindById | backend/backend/data/orders.js:15 | nothing exactly when no order has the id, otherwise the first order with it |
| OrderStore.Store.UpdateStatus | backend/backend/data/orders.js:18-26 | an absent id changes nothing and returns nothing; a present one changes only the first such order's status and timestamp, with no validation, and returns it |
| OrderStore.Store.GetCount | backend/backend/data/orders.js:29 | the number of stored orders |
| OrderStore.Store.Clear | backend/backend/data/orders.js:32-34 | no orders remain |
| OrderStore.AddThenFind | backend/backend/data/orders.js:9-15 | an order added under a fresh id is what looking that id up returns |
| OrderStore.SetStatusKeeps | backend/backend/data/orders.js:18-26 | an update keeps the number of orders and every field but `status` and `updatedAt` |
| Inventory.NewStockInverse | services.js:110-111 | a sale and a restock of the same quantity cancel out |
| Inventory.ChangeStock | services.js:103-136 | an unknown plant fails with `Plant not found`, and a negative new stock with `Insufficient stock`; a known plant whose new stock is non-negative always succeeds, setting its stock to the previous stock less a sale or plus a restock; success changes only that plant's stock and appends one transaction with the previous and new stock |
| Inventory.ChangeStockValid | services.js:110-130 | every accepted change keeps all stock non-negative and every transaction consistent with the sale/restock arithmetic |
| Inventory.FirstProblem | services.js:216-224 | no problem exactly when every line's plant exists and has stock at least the line's quantity, each checked against the same stock |
| Inventory.CreateOrderOversells | services.js:216-239 | two lines of 3 for a plant with 5 in stock pass the check; the second sale is then refused after the first was applied |
| Inventory.SellOutThenRefuse | services.js:216-239 | selling all 5 of a plant leaves 0 and one transaction; an order for one more is refused with the available count |
| Inventory.CoveredSellsAll | services.js:216-239 | under the aggregate check every sale succeeds and each plant ends with its stock less its total demand |
| Inventory.CoveredPassesCheck | services.js:216-224 | the aggregate check admits only orders the per-line check admits |
| Inventory.WithStatus | services.js:288-294 | any status is stored, with `updatedAt`; notes are replaced only when given; `actualDelivery` is stamped only on `delivered`; other fields are kept |
| Inventory.OrderStatsSpec | services.js:304-328 | one group for each status that occurs and none for any other; each group counts the orders with that status and sums their totals (a missing total adds 0); the counts add to `totalOrders` and the sums to `totalRevenue`, cancelled orders included |
| Inventory.Database.UpdateStock | services.js:103-136 | equals `ChangeStock` on the collections; both failures leave stock and log unchanged, with the wrapped message |
| Inventory.Database.CheckLines | services.js:216-224 | returns the first line's problem, as `FirstProblem` |
| Inventory.Database.SellLines | services.js:232-239 | sells line by line as `SellAll`, stopping at the first refusal with its message |
| Inventory.Database.CreateOrder | services.js:213-245 | a failed check throws with nothing changed; otherwise the order is saved and the lines sold, and a refused sale throws with the earlier sales kept |
| Inventory.Database.UpdateOrderStatus | services.js:281-301 | an unknown id throws with nothing changed; otherwise only the first order with the id becomes `WithStatus` of itself, and the reply is that whole updated order |
| PlantSearch.BuildQuerySpec | services.js:24-49 | a plant matches the built query exactly when it is active, in the category unless absent or `'all'`, mentions the term case-insensitively, is featured and in stock when asked, and within the inclusive price bounds |
| PlantSearch.SortOrderPreorder | services.js:52-68 | every order `sortBy` selects (price up, price down, stock down, name up) ranks any two plants and is transitive |
| PlantSearch.Page | services.js:76-77 | a page skips `(page - 1) * limit` items and takes up to `limit` |
| PlantSearch.PageSpec | services.js:76-77 | a page is at most `limit` long, drawn from the sequence, and sorted when the sequence is |
| PlantSearch.GetPlantsSpec | services.js:9-87 | the page holds only matching catalogue plants, sorted by the selected order, at most `limit` of them; the pagination counts every match |
| PlantSearch.GetLowStockPlantsSpec | services.js:139-150 | the list is ordered by rising stock and holds exactly the active plants below the threshold, each as often as in the catalogue |
| Helpers.CalculateShipping | backend/helpers.js:12-14 | the fee is 0 exactly when the subtotal is at least 500, and 50 otherwise |
| Helpers.ShippingThreshold | backend/helpers.js:12-14 | the fee never rises with the subtotal; 500 ships free and 499 pays 50 |
| Helpers.CreatePagination | backend/helpers.js:61-71 | echoes total, page and limit; `totalPages` is the ceiling of total over limit; next page exactly when `page < totalPages`, previous exactly when `page > 1` |
| Helpers.HasNextPageIff | backend/helpers.js:68 | there is a next page exactly when `page * limit < total` |
| Helpers.ValidateEmailIff | backend/helpers.js:22-25 | the one-pass check accepts exactly the strings `/^[^\s@]+@[^\s@]+\.[^\s@]+$/` matches |
| Helpers.ValidatePhoneIff | backend/helpers.js:28-31 | the one-pass check accepts exactly what `/^[+]?[1-9][\d\s-()]{8,15}$/` matches, the optional `+` tried both ways |
| Helpers.ValidatePhoneExamples | backend/helpers.js:28-31 | `+919876543210` passes and `0123456789` does not |
| Helpers.FormatPrice | backend/helpers.js:17-19 | the rupee sign followed by the price's decimal text |
| Helpers.FormatPriceInjective | backend/helpers.js:17-19 | different prices never format alike |
| Helpers.ScriptBlock | backend/helpers.js:36 | a match of the script pattern at the start of the text begins with `<script` in any case, not followed by a word character, and ends with the first `</script>` after it; with no such closing tag there is no match |
| Helpers.ScriptBlockFirst | backend/helpers.js:36 | a match has a non-word character right after `<script`, and no `</script>` lies between the opening tag and the one that ends it |
| Helpers.StripScriptsSpec | backend/helpers.js:36 | one global replace never lengthens the text, keeps its characters in order, and leaves it unchanged exactly when the pattern matches at no position |
| Helpers.SanitizeInput | backend/helpers.js:34-37 | non-strings come back unchanged; a string is trimmed and then loses every script block one pass finds; the result is drawn from the trimmed text and equals it exactly when the pattern matches nowhere in it |
| Helpers.SanitizeInputNotIdempotent | backend/helpers.js:34-37 | the trim comes before the removal, so `<script></script> x` sanitizes to ` x`, and sanitizing that gives `x` |
| Helpers.SanitizeInputLeavesScript | backend/helpers.js:36 | as written, `<scrip<script></script>t>` + payload + `</script>` sanitizes to `<script>` + payload + `</script>`, itself a script block, for any payload without `<` |
| Helpers.StripAllScripts | backend/helpers.js:36 | the removal repeated until it changes nothing leaves no script block at any position, never lengthens the text, and changes nothing where the pattern matches nowhere |
| Helpers.SafeSanitizeInput | backend/helpers.js:34-37 | the corrected sanitizer: non-strings unchanged; a sanitized string contains no script block; it agrees with the written one whenever that finds nothing to remove |
| ShoppingCart.QtyOr1 | js/main.js:77 | a missing or zero quantity counts as one, any other as itself |
| ShoppingCart.Added | js/main.js:74-80 | with an item of the same id, only the first such item changes, to quantity `(quantity \|\| 1) + 1`, and the length is kept; otherwise the plant is appended with quantity 1 |
| ShoppingCart.AddedSpec | js/main.js:74-80 | adding keeps ids unique and quantities positive, and then raises the count by exactly one |
| ShoppingCart.RemovedCount | js/main.js:105 | the count before removal is the count after plus the removed items' count |
| ShoppingCart.Cart.AddToCart | js/main.js:67-89 | the cart becomes `Added` of the old cart, so ids stay unique and the count rises by one |
| ShoppingCart.Cart.RemoveFromCart | js/main.js:103-109 | keeps exactly the items of other ids, in their order |
| ShoppingCart.Cart.Count | js/main.js:91-99 | the sum over items of `quantity \|\| 1` |
| ShoppingCart.CheckoutTotal | js/main.js:157 | the corrected total: the subtotal, plus 50 exactly when the subtotal is under 500 |
| ShoppingCart.CheckoutShippingMismatch | js/main.js:157 | one plant of 600 on a form with no `total` field is charged 650 as written, 600 as intended |
| ShoppingCart.CheckoutTotalsAgree | js/main.js:157 | the written and intended totals agree exactly when the form's test and the subtotal's test agree |
| ErrorHandling.ErrorHandler | errorHandlers.js:1-41 | `success` is false and the status is 400, 401 or 500; a duplicate key (code 11000) gives 400 `<first key> already exists` whatever the name; otherwise `ValidationError` gives 400 with the messages joined by `, `, `JsonWebTokenError` 401 `Invalid token`, `TokenExpiredError` 401 `Token expired`, anything else 500 `Internal server error` |

## Left out

- Express routing, CORS, request logging, static serving and `listen`: each handler is a method over its request's fields.
- JWT signing and verification: `Auth` says what the middleware made of the header, and `tokenUser` is the id a placement's token decodes to.
- bcrypt hashing: the hash is a parameter of `Register`.
- Login, the contact form, `GET /api/user/orders`, the admin listing routes and `initializeAdmin`: they are not part of the modelled bookkeeping.
- Loading and saving the JSON files: the constructor takes the loaded state.
- Saving: a placement's save is the boolean `saved`. The source ignores the outcome of the other saves, so they are omitted.
- The hard-coded catalogue data.
- `uuid`, `Date`, `Math.random`, `generateOrderId`, `generateRandomString`, `formatDate`: ids and timestamps are parameters, and timestamps are integers.
- `parseFloat` prices and any non-integral number: every number is an integer, and it is unbounded. JavaScript doubles lose integer precision above 2^53 and print numbers from 1e21 up in exponent form; Text.NatToString and Text.IntToString give plain decimal digits for every integer.
- NaN: `parseInt` yielding NaN appears only as `GetPlant`'s `None` id.
- MongoDB itself, and `async`/`await`: the service layer runs sequentially over in-memory collections.
- Server.Nursery.Register: requests are modelled one at a time. The handler awaits `bcrypt.hash` between the duplicate-email check and the push (backend/server.js:254-266, backend/backend/server.js:100). Two concurrent registrations with one email can both pass the check, so unique emails are promised only for requests that do not interleave.
- OrderStore.Store: orders are values, so the model does not capture object sharing. `getAll` copies only the array (backend/backend/data/orders.js:6). The order objects in that copy, and those that `add` and `findById` return, are the stored ones. Changing any of them, or a later `updateStatus`, changes what every holder sees.
- `getPlantById`, `UserService`, `ContactService` and `CategoryService`: outside the modelled core.
- Inventory.Database.CreateOrder: keeps the order's posted total. services.js requires its `Order` model from `../models`, and that module is not in the repository. models/Order.js is a different schema, with `orderItems` and `totalPrice`. So the effect of `order.calculateTotal()` (services.js:228) is unknown.
- PlantSearch.MatchesQuery: MongoDB `$regex` search is read as a case-insensitive substring test, so regular-expression metacharacters in the term are not modelled.
- PlantSearch.GetPlants: requires `page >= 1` and `limit >= 1`. A negative skip (a MongoDB error) and `limit(0)` (no limit in MongoDB) are not modelled. Ties in a MongoDB sort come back in an unspecified order; the model keeps catalogue order.
- Inventory.OrderStats: MongoDB's `$group` output order is unspecified; the model lists statuses in order of first appearance.
- Helpers.CreatePagination: requires `limit > 0`; JavaScript would give `Infinity` or `NaN` pages for 0.
- Server.Nursery.AdminStats: JavaScript lists integer-like object keys (a status or category such as `"7"`) before the others. The model keeps first-appearance order for all keys.
- ShoppingCart.Cart.AddToCart: the count rises by exactly one only when no stored quantity is negative. A stored `-1` would become 0, which counts as 1.
- ShoppingCart: the `fetch` of the plant, `localStorage`, `alert`, DOM rendering and the charts are not modelled. `CheckoutTotalAsWritten` reads the form's `total` field as `None` when it is missing or not a number.
- Helpers.SanitizeInput: regular-expression matching is modelled only for this one pattern. The model reads it as running from `<script` to the first `</script>`, with the `i` flag folding ASCII letters only.
- ErrorHandling.ErrorHandler: an error with code 11000 and no `keyValue` makes the handler itself throw, and so does a `ValidationError` without `errors` (errorHandlers.js:13 calls `Object.values` on it); neither is modelled. The development-mode stack trace is not modelled either.
- Text.Lower: lower-cases ASCII letters only.

## Findings

| source | as written | input that shows it | evidently intended | confidence | as-written member | corrected member |
|---|---|---|---|---|---|---|
| services.js:216-239 | each line is checked against the same starting stock; the order is saved, then lines are sold one by one until one is refused | two lines of 3 for one plant with 5 in stock: both pass the check, the order is saved, the first sale leaves 2, the second throws | check the total each plant is asked for, so that an order either sells every line or changes nothing | medium, not executed | Inventory.CreateOrderOversells | Inventory.CoveredSellsAll |
| backend/helpers.js:36 | the script-removing pattern runs once over the trimmed text | `<scrip<script></script>t>alert(1)</script>`: removing the inner empty block joins `<scrip` and `t>` into a new opening tag, and `<script>alert(1)</script>` is returned | remove scripts: no script block is left in the result | medium, not executed | Helpers.SanitizeInputLeavesScript | Helpers.SafeSanitizeInput |
| js/main.js:157 | shipping is free only when the checkout form's own `total` field exceeds 500 | a single plant of 600 on a form with no `total` field: 650 is posted | the subtotal plus `calculateShipping(subtotal)`, free from 500 | medium, not executed | ShoppingCart.CheckoutShippingMismatch | ShoppingCart.CheckoutTotal |
