# Pizza delivery: ledger, orders, gates and client logic in Dafny

This project models the business logic of a pizza-delivery web application: an
Express/MongoDB server and a React client. Each source component becomes one Dafny module.
Each route handler, schema hook and screen handler becomes a pure function over immutable
datatypes. Each function's contract, and the lemmas beside it, state what the code
promises.

Server side:

- **Inventory** (`Inventory`): the inventory schema as a validity predicate, the low-stock
  rule and the clamped `updateStock`. The store is a map keyed by (name, category).
- **StockMonitor** (`StockMonitor`): the low-stock scan, the per-order fan-out that
  decrements every ingredient an order names, and the per-category summary.
- **Orders** (`Orders`): the order schema's enums, the order number `PZ` + yymmdd + a
  zero-padded daily sequence, and the derived totals.
- **Order routes** (`OrderRoutes`): the order routes, namely create, view, cancel, the
  admin status and payment-status updates, listing and dashboard statistics.
- **User routes** (`UserRoutes`): owner-only views and cancel, order history, the
  profile update and the password change.
- **Admin routes** (`AdminRoutes`): the admin dashboard, the sorted and paged inventory
  listing, restock, and the admin order routes.
- **Catalog** (`Catalog`): the pizza schema and the pizza routes, including the in-stock
  customization buckets.
- **Auth** (`Auth`): Bearer-header parsing, `protect`, and the `admin`, `user` and
  e-mail-verification gates.
- **Paging** (`Paging`): the pagination shared by the listing routes.
- **Seeder** (`Seeder`): the insert-if-absent start-up seeding and its data.

Client side:

- **Cart** (`Cart`): the local-storage cart.
- **AuthState** (`AuthState`): the authentication reducer with its login, register and
  start-up flows, including the offline demo fallback.
- **Forms** (`Forms`): the sign-up and sign-in validators.
- **AdminRoute** (`AdminRoute`): the admin route guard.
- **CustomPizza** (`CustomPizza`): the build-your-own pizza pricing and toggles.
- **Checkout** (`Checkout`): checkout pricing and payment gating.
- **PizzaMenu** (`PizzaMenu`): the menu filter and its local cart counters.
- **AdminPanel** (`AdminPanel`): the admin dashboard page's figures.

Shared helpers:

- `Wrappers`: `Option`.
- `Seqs`: filter, count, sum and subsequence, with their lemmas.
- `Text`: JavaScript string built-ins such as `trim`, `toLowerCase`, `padStart`, `split`
  and the digit filter.
- `Http`: a response, either a status with a body or an error with a message.

Modelling conventions:

- Prices and stock are integers. The 5% tax and the totals are `real`.
- Time enters as parameters: the calendar date and today's order count for the order
  number, and `now` for timestamps.
- Token verification is a function parameter, because JWT verification is an oracle here.
- Store ids are natural numbers.

## Model

| member | source | states |
|---|---|---|
| Inventory.ParseCategory | server/models/Inventory.js:11-15 | a stored category string is accepted exactly when it is one of the five enum names, and then it names that category |
| Inventory.CategoryRoundTrip | server/models/Inventory.js:13 | every category's stored spelling is accepted and reads back as that category |
| Inventory.ParseUnit | server/models/Inventory.js:31-35 | a stored unit is accepted exactly when it is one of pieces, kg, liters, grams |
| Inventory.UnitRoundTrip | server/models/Inventory.js:34 | every unit's stored spelling reads back as that unit |
| Inventory.LowStockBoundary | server/models/Inventory.js:65-67 | stock equal to the threshold counts as low; one above it does not |
| Inventory.UpdateStock | server/models/Inventory.js:70-76 | the new stock is never negative; it is old + quantity, or 0 when that would be negative; `lastRestocked` becomes `now` exactly for a positive quantity; no other field changes |
| Inventory.RestockAddsExactly | server/models/Inventory.js:71 | a positive quantity adds exactly that much, and can take the stock past `maxStock` |
| Inventory.UpdateStockKeepsValid | server/models/Inventory.js:70-76 | an item the schema accepts is still accepted after any update, under the same (name, category) |
| Inventory.DecrementsCompose | server/models/Inventory.js:71 | two decrements equal one decrement by their sum |
| Inventory.DecreasingDeltasClampOnce | server/models/Inventory.js:71 | a run of decrements leaves max(0, stock + their sum) and never stamps `lastRestocked` |
| Inventory.MixedDeltasNotClampedTotal | server/models/Inventory.js:71 | with mixed signs the clamp acts per call: from 0, -5 then +5 leaves 5 although the deltas sum to 0 |
| Inventory.UpdateIfPresent | server/utils/stockMonitor.js:48-55 | a lookup by (name, category) then an update: the found item becomes its updated self, every other item and the key set are unchanged, and an unknown key changes nothing |
| Inventory.UpdateIfPresentKeepsValid | server/utils/stockMonitor.js:48-55 | a ledger with valid, correctly keyed items and unique names stays so after the update |
| Inventory.RestockShrinksLow | server/models/Inventory.js:65-76 | a restock never adds a low-stock key, and removes the restocked key once its stock rises above the threshold |
| Inventory.DecrementGrowsLow | server/models/Inventory.js:65-76 | a decrement never removes a low-stock key from a ledger whose stock is not negative |
| StockMonitor.CheckStockLevels | server/utils/stockMonitor.js:5-36 | the report holds exactly the available low-stock documents, in store order (a subsequence), and a notification goes out exactly when the report is non-empty |
| StockMonitor.ScanMatchesLedger | server/utils/stockMonitor.js:8-11 | over a listing of the ledger, the keys reported are exactly the ledger's low-stock keys |
| StockMonitor.LineKeysCover | server/utils/stockMonitor.js:43-108 | a line touches exactly the keys of its base, sauce, cheese and each veggie and meat, one visit per entry |
| StockMonitor.StepKeys | server/utils/stockMonitor.js:48-55 | the per-key lookups keep the key set, leave keys not visited unchanged and keep the ledger valid |
| StockMonitor.ApplyLines | server/utils/stockMonitor.js:39-123 | the fan-out keeps the key set and ledger validity, also when it throws part-way |
| StockMonitor.FanOutCompletes | server/utils/stockMonitor.js:44-47 | the fan-out runs to the end exactly when every line has a customizations object |
| StockMonitor.KeyDeltaIsProduct | server/utils/stockMonitor.js:83-107 | a key named k times in a line is decremented k times the quantity |
| StockMonitor.StepKeysEffect | server/utils/stockMonitor.js:43-108 | per key, one line's decrements equal a single clamped decrement by their total |
| StockMonitor.LineStepEffect | server/utils/stockMonitor.js:46-107 | one line leaves each item as `updateStock` of that line's total demand for it |
| StockMonitor.FanOutEffect | server/utils/stockMonitor.js:39-109 | after a completed fan-out each item is max(0, stock - Σ quantity × times named), with nothing else changed |
| StockMonitor.UnnamedItemUnchanged | server/utils/stockMonitor.js:43-108 | an item no line names is left exactly as it was |
| StockMonitor.FanOutStopsAtMissing | server/utils/stockMonitor.js:119-122 | a line without customizations ends the fan-out there, reported as not completed, with the earlier lines' decrements kept and no later line applied |
| StockMonitor.Views | server/utils/stockMonitor.js:139-146 | one view per document, in order |
| StockMonitor.SummaryOf | server/utils/stockMonitor.js:128-148 | a category's bucket counts its documents, counts those at or below threshold, sums their stock, and holds one view per document of the category, in store order, each flagged low exactly when its stock is at or below its threshold |
| StockMonitor.FilterConj | server/utils/stockMonitor.js:133-137 | the low documents of a category are the low ones among that category's documents |
| StockMonitor.SummaryBuckets | server/utils/stockMonitor.js:128-149 | every bucket returned is non-empty and is the summary of its own category |
| StockMonitor.SummaryHasCategory | server/utils/stockMonitor.js:130-131 | a category has a bucket exactly when some document is in it |
| StockMonitor.SummaryPartition | server/utils/stockMonitor.js:128-148 | the buckets' item counts add up to the number of documents and their stocks to the total stock |
| StockMonitor.CountsByCategory | server/utils/stockMonitor.js:131-132 | each document is counted in exactly one category |
| StockMonitor.StockByCategory | server/utils/stockMonitor.js:131-138 | each unit of stock is counted in exactly one category |
| Orders.ParseStatus | server/models/Order.js:77-88 | a requested status is accepted exactly when it is one of the six enum names, and then it names that status |
| Orders.StatusRoundTrip | server/models/Order.js:79-86 | every status's stored spelling reads back as that status |
| Orders.ParsePaymentStatus | server/models/Order.js:89-93 | a payment status is accepted exactly when it is one of the four enum names |
| Orders.PaymentStatusRoundTrip | server/models/Order.js:91 | every payment status's stored spelling reads back as that payment status |
| Orders.ParsePaymentMethod | server/models/Order.js:94-98 | the payment method is razorpay or cod, and nothing else is accepted |
| Orders.ComputeTotals | server/models/Order.js:148-159 | subtotal is Σ price × quantity; the fee is 0 exactly when the subtotal is above 500 and 50 otherwise; tax is one twentieth of the subtotal; total is subtotal + tax + fee |
| Orders.TotalsExamples | server/models/Order.js:150-156 | 600 gives 30 / 0 / 630, 400 gives 20 / 50 / 470, exactly 500 still pays the fee, and no lines cost 50 in all |
| Orders.SubtotalAppend | server/models/Order.js:150-153 | adding a line adds its price × quantity to the subtotal |
| Orders.OrderNumber | server/models/Order.js:122-145 | the number starts with "PZ" and is as long as its year, month, day and sequence fields together |
| Orders.OrderNumberRoundTrip | server/models/Order.js:125-141 | the number reads back as the year modulo 100, the month, the day and today's count + 1; it has 11 characters below the 1000th order of a day and more from then on |
| Orders.SequenceField | server/models/Order.js:139-141 | the sequence field is at least three digits denoting the sequence number, exactly three below 1000, since padding never truncates |
| Orders.ParseFields | server/models/Order.js:139-141 | "PZ" and four digit fields read back as the four values |
| Orders.SameDayNumbersDiffer | server/models/Order.js:135-141 | two orders of one day with different counts get different numbers |
| Orders.OrderNumberExample | server/models/Order.js:139-141 | the third order of 15 January 2024 is PZ240115003 |
| Orders.YearDigits | server/models/Order.js:125 | the last two characters of a year of at least two digits are the year modulo 100 |
| Orders.TwoDigitPad | server/models/Order.js:126-127 | a month or day below 100 padded to two places is two digits of its value |
| Orders.PreSave | server/models/Order.js:122-159 | a new document gets a number and an old one keeps its number; a new or re-itemised one gets fresh totals, otherwise the stored totals stay; nothing else changes |
| Orders.NewOrder | server/models/Order.js:87-92 | a created order is pending and unpaid, has no delivery time, keeps the owner, lines, payment method, delivery address and instructions it was given, and carries the fresh number and totals of its lines |
| OrderRoutes.RunHooks | server/models/Order.js:122-159 | the hooks fill in exactly the order number and the totals of the lines, and touch nothing else |
| OrderRoutes.Save | server/models/Order.js:48-98 | with the hooks run before validation, a new order is stored exactly when every quantity is at least 1 and the payment method is in the enum |
| OrderRoutes.OrderNumberNonEmpty | server/models/Order.js:10-14 | a generated order number meets the schema's `required` |
| OrderRoutes.NewDraftNeverSavesAsWritten | server/models/Order.js:10-14 | validation before the hooks finds no order number on a new document, so no new order is ever stored |
| OrderRoutes.SaveIsNewOrder | server/routes/order.js:28-34 | the corrected save stores exactly the pending, unpaid, numbered and totalled order built from the body |
| OrderRoutes.CreateOrderAsWritten | server/routes/order.js:17-52 | as written every order with items is answered 500, and neither the store nor the inventory changes |
| OrderRoutes.CreateOrder | server/routes/order.js:17-52 | no items gives 400; an invalid line or payment method gives 500; a failure changes nothing; success is 201 with the new order stored under a fresh id and the inventory fan-out applied |
| OrderRoutes.InventoryFailureSwallowed | server/routes/order.js:37-42 | a fan-out that throws part-way still gives 201, and the lines before the failure stay decremented |
| OrderRoutes.ViewOrder | server/routes/order.js:73-98 | an unknown id gives 404; an order whose owner no longer exists gives 500; otherwise only the owner or an admin sees it, and anyone else gets 403 |
| OrderRoutes.CancelAllowed | server/routes/order.js:221-231 | an allowed cancel succeeds exactly on a pending order and makes it cancelled; anything else is 400 with no change |
| OrderRoutes.CancelOrder | server/routes/order.js:203-236 | the checks run in the order 404, 403 (neither owner nor admin), 400 (not pending); only success changes anything, and then only that order's status |
| OrderRoutes.CancelTwiceRejected | server/routes/order.js:221-226 | a second cancel of the same order is 400 and changes nothing |
| OrderRoutes.SetStatus | server/routes/order.js:103-138 | an unknown id gives 404; a name outside the enum fails on save with 500; otherwise the status is overwritten and the delivery time is stamped exactly for `delivered`; nothing else changes |
| OrderRoutes.StatusOverwriteUnchecked | server/routes/order.js:116 | any order can be moved to any status, with no transition check |
| OrderRoutes.SetPaymentStatus | server/routes/order.js:176-198 | an unknown id gives 404 and a name outside the enum 500, both changing nothing; otherwise the payment status is stored, a non-empty `razorpayPaymentId` from the body replaces the stored one while an absent or empty one keeps it, and nothing else changes |
| OrderRoutes.PaymentIdSticks | server/routes/order.js:186-189 | an order marked completed with a gateway id keeps that id through a later payment-status update that carries none |
| OrderRoutes.MyOrders | server/routes/order.js:57-68 | the listing holds exactly the caller's orders, in store order |
| OrderRoutes.StatusFilter | server/routes/order.js:145-150 | an empty status selects everything; otherwise exactly the orders with that status name, and none for a name outside the enum |
| OrderRoutes.ListPage | server/routes/order.js:152-166 | the page is the slice of the matches that starts at (page − 1) · limit and holds at most `limit` of them; `total` counts all matches; `totalPages` is the ceiling of total / limit; a page past the last is empty |
| OrderRoutes.ListOrders | server/routes/order.js:143-171 | every listed order matches the status filter |
| OrderRoutes.ListingPagesCover | server/routes/order.js:152-163 | walking all `totalPages` pages visits every matching order once, in order |
| OrderRoutes.PaidGroup | server/routes/order.js:257-260 | the pipeline yields no group exactly when no order is paid |
| OrderRoutes.RevenueIsPaidSum | server/routes/order.js:257-268 | the pipeline plus the `|| 0` fallback is the sum of the completed orders' totals, 0 when there are none |
| OrderRoutes.PaidSumFilter | server/routes/order.js:258-259 | revenue is the sum of the totals of exactly the completed orders |
| OrderRoutes.PaidSumAppend | server/routes/order.js:257-260 | revenue adds up over any split of the orders |
| OrderRoutes.UnpaidAddNothing | server/routes/order.js:258 | orders not completed never add to revenue, whatever their totals |
| OrderRoutes.DashboardStats | server/routes/order.js:241-274 | counts all orders, those created since midnight, the pending ones and the delivered ones, and reports paid revenue; pending and delivered together never exceed the total |
| OrderRoutes.StatusCountsDisjoint | server/routes/order.js:255-256 | no order is counted both as pending and as delivered |
| UserRoutes.UserOrders | server/routes/user.js:113-140 | the caller's listing is the order listing (same status filter, skip, limit and page count) applied to the caller's own orders; every listed order is the caller's and matches the filter |
| UserRoutes.UserOrdersPagesCover | server/routes/user.js:117-130 | walking every page of the caller's listing visits each of the caller's matching orders once, in store order, and nobody else's |
| UserRoutes.ViewOwnOrder | server/routes/user.js:145-165 | an unknown id gives 404; only the owner sees the order and anyone else, an admin included, gets 403 |
| UserRoutes.CancelOwnOrder | server/routes/user.js:170-200 | 404, then 403 for anyone but the owner, then 400 unless pending; only success changes the store, and then only that order's status, to cancelled |
| UserRoutes.CancelRoutesDiffer | server/routes/user.js:178-183 | this route and the order route disagree exactly when an admin cancels another user's order |
| UserRoutes.OrderHistory | server/routes/user.js:205-240 | the recent orders are the first ten (or all, if fewer) of the caller's orders in store order; the caller's order count; the total of the caller's completed orders |
| UserRoutes.HistoryIsNewest | server/routes/user.js:212-216 | when the store returns orders newest first, none of the caller's other orders is newer than a recent one |
| OrderRoutes.FilterKeepsNewestFirst | server/routes/order.js:152-158 | the owner and status filters keep a newest-first list newest first |
| UserRoutes.SpentIgnoresOthers | server/routes/user.js:212-216 | another user's order changes neither the caller's count nor the caller's spending |
| UserRoutes.ApplyProfile | server/routes/user.js:46-52 | a present name is stored trimmed and a present phone and address are stored; absent fields and every other field stay |
| UserRoutes.UpdateProfile | server/routes/user.js:25-60 | a name under two characters once trimmed, or a phone that is not ten digits, gives 400 with no write; otherwise only the caller's name, phone and address change; email, role, password and verification never do |
| UserRoutes.PaddedShortNameRejected | server/routes/user.js:29-33 | one visible character padded with white space is refused, however long the padding |
| UserRoutes.ChangePassword | server/routes/user.js:65-108 | success exactly when both passwords are given, the new one has at least six characters, the caller exists and the current one matches; a gone caller is 404; only success changes anything, and then only the caller's password |
| UserRoutes.ChangePasswordRoundTrip | server/routes/user.js:91-100 | after a change, changing back with the two swapped succeeds and restores the users |
| AdminRoutes.AdminDashboard | server/routes/admin.js:13-49 | customers, all orders, orders since midnight, pending orders, the revenue of completed orders (0 when none) and the per-category inventory summary |
| AdminRoutes.DashboardsAgree | server/routes/admin.js:27-33 | the admin dashboard and the order-stats route report the same order counts and revenue |
| AdminRoutes.UserCountIgnoresAdmins | server/routes/admin.js:26 | a new admin leaves the user count alone; a new customer raises it by one |
| AdminRoutes.StrLeTotal | server/routes/admin.js:141 | any two strings are comparable in the store's string order |
| AdminRoutes.StrLeAntisymmetric | server/routes/admin.js:141 | strings that are each at most the other are equal |
| AdminRoutes.StrLeTransitive | server/routes/admin.js:141 | the string order is transitive |
| AdminRoutes.ItemLeTotal | server/routes/admin.js:141 | any two items are comparable by (category, name) |
| AdminRoutes.ItemLeTransitive | server/routes/admin.js:141 | the (category, name) order is transitive |
| AdminRoutes.SortedPairwise | server/routes/admin.js:141 | in a sorted listing each item is in order with every later one |
| AdminRoutes.Insert | server/routes/admin.js:141 | inserting into a sorted listing keeps it sorted and adds exactly that item |
| AdminRoutes.Sort | server/routes/admin.js:140-141 | the listing order is a sorted permutation of the documents |
| AdminRoutes.InventoryQuery | server/routes/admin.js:135-138 | an empty category keeps every item; any other string keeps exactly the items stored under that category name |
| AdminRoutes.ListInventory | server/routes/admin.js:131-157 | the page is the `limit`-sized run of the category's matches in (category, name) order that starts after the skipped pages; `total` counts every match; `totalPages` is the ceiling of total / limit |
| AdminRoutes.ListInventoryContents | server/routes/admin.js:133-143 | a page is in (category, name) order and holds only stored items of the requested category |
| AdminRoutes.ListInventoryPastEnd | server/routes/admin.js:140-150 | a page is empty exactly when it lies past the last page |
| AdminRoutes.PageOfSorted | server/routes/admin.js:140-143 | a page of the sorted listing is sorted and holds only listed items |
| AdminRoutes.ListInventoryPagesCover | server/routes/admin.js:140-149 | walking every page lists each matching item as often as it is stored, in one sorted run |
| AdminRoutes.UnknownCategoryListsNothing | server/routes/admin.js:136-137 | a category string that names no category lists nothing |
| AdminRoutes.BaseSortsFirst | server/routes/admin.js:141 | base items sort before every other category |
| AdminRoutes.Restock | server/routes/admin.js:236-256 | a missing, zero or negative quantity gives 400 before the lookup; an unknown item gives 404; otherwise only that item is updated by the quantity and sent back |
| AdminRoutes.RestockEffect | server/routes/admin.js:249 | a restock adds exactly the quantity (not capped), stamps the item, leaves every other item alone and keeps the ledger valid |
| AdminRoutes.RestockClearsLow | server/routes/admin.js:249 | a restock larger than the shortfall clears the low-stock flag |
| AdminRoutes.AdminOrders | server/routes/admin.js:261-289 | every listed order matches the status filter, paginated as in the order route |
| AdminRoutes.AdminOrderDetail | server/routes/admin.js:294-309 | any stored order is returned, with no ownership check; an unknown id gives 404 |
| AdminRoutes.AdminSeesWhatOwnerSees | server/routes/admin.js:294-309 | every order the order route shows its owner, the admin route shows too |
| AdminRoutes.UpdateOrderStatus | server/routes/admin.js:314-341 | success exactly for a stored order and a status in the enum; the delivery time changes only for, and is always stamped by, `delivered`; a failure changes nothing |
| AdminRoutes.RedeliveryRestamps | server/routes/admin.js:330-332 | marking an order delivered again keeps the later time |
| Catalog.ParsePizzaCategory | server/models/Pizza.js:24-28 | a category string is accepted exactly when it is vegetarian, non-vegetarian or vegan, and then names that category |
| Catalog.PizzaCategoryRoundTrip | server/models/Pizza.js:26 | every pizza category's stored spelling reads back as that category |
| Catalog.Build | server/models/Pizza.js:3-54 | a document is built exactly when the trimmed name, description and image are non-empty, the price is present and not negative, and the category is in the enum; it stores the trimmed name, and availability defaults to true |
| Catalog.DefaultAvailable | server/models/Pizza.js:29-32 | a pizza built without an availability flag is available |
| Catalog.Forwarded | server/routes/pizza.js:88-106 | the create route hands the schema every request field but the availability flag |
| Catalog.NewPizzaAvailable | server/routes/pizza.js:88-106 | every pizza the create route stores is available, and a request asking for an unavailable pizza gets exactly the same result as one that does not ask |
| Catalog.CreatePizza | server/routes/pizza.js:86-113 | created (201) exactly when the forwarded fields build a document whose trimmed name is not taken; then it alone is added, and it is available; otherwise 500 and nothing changes |
| Catalog.CreateKeepsMenuWellFormed | server/models/Pizza.js:5-10 | creating keeps pizza names unique and every stored pizza valid |
| Catalog.GetPizza | server/routes/pizza.js:24-35 | a stored id gives its pizza, available or not; an unknown id gives 404 |
| Catalog.AvailablePizzas | server/routes/pizza.js:11-19 | the menu is exactly the available pizzas, in store order |
| Catalog.PizzasIn | server/routes/pizza.js:157-169 | a category listing is exactly the available pizzas stored under that category string, in store order, and empty for a string outside the enum |
| Catalog.CategoriesSplitMenu | server/routes/pizza.js:157-163 | the three category listings together hold as many pizzas as the menu |
| Catalog.CountsSplit | server/models/Pizza.js:24-28 | each available pizza is counted in exactly one category |
| Catalog.OptionsExact | server/routes/pizza.js:40-81 | each option bucket holds exactly the items of its category that are available and have stock above 0 |
| Catalog.OptionsDisjoint | server/routes/pizza.js:42-68 | no item is in two buckets, and an item with no stock is in none, even when flagged available |
| Catalog.OptionsCover | server/routes/pizza.js:42-68 | every available item with stock is offered in its own category's bucket |
| Catalog.WriteGateAsWritten | server/routes/pizza.js:86 | the create, update and delete routes answer as `protect` alone does |
| Catalog.WriteGate | server/routes/pizza.js:84-86 | the documented admin-only gate lets through only admins, and only callers the written gate also lets through |
| Catalog.CustomerPassesWriteGate | server/routes/pizza.js:118 | a customer with a valid token passes the written gate but not the admin gate |
| Auth.BearerToken | server/middleware/auth.js:14 | there is a token exactly when the header has a space, and the token itself has none |
| Auth.BearerTokenRoundTrip | server/middleware/auth.js:14 | the header "Bearer " + token gives the token back when the token has no space |
| Auth.Protect | server/middleware/auth.js:5-36 | an absent header or one not starting with "Bearer" is 401 "no token"; a missing or empty token is 401 "token failed" whatever the verifier says; every other failure (a token the verifier rejects, a user no longer stored) is 401 too; a request passes exactly with a verified token of a stored user, and then as that user |
| Auth.ProtectAcceptsIssuedToken | server/middleware/auth.js:8-26 | the header a client builds for a stored user's non-empty token passes as that user |
| Auth.EmptyTokenFails | server/middleware/auth.js:14-30 | the header "Bearer " is 401 "token failed" for every verifier, as `jwt.verify` throws on an empty token |
| Auth.AdminGate | server/middleware/auth.js:39-45 | passes exactly a present user whose role is "admin", else 403 |
| Auth.UserGate | server/middleware/auth.js:48-54 | passes exactly a present user whose role is "user", else 403 |
| Auth.RequireEmailVerification | server/middleware/auth.js:57-63 | passes exactly a present user whose email is verified, else 403 |
| Auth.RoleGatesDisjoint | server/middleware/auth.js:39-54 | no request passes both role gates, so an admin is turned away by the `user` gate |
| Auth.AdminOnly | server/middleware/auth.js:5-45 | `protect` then `admin`: passes exactly an authenticated admin; a `protect` failure answers unchanged, and an authenticated non-admin gets 403 |
| Paging.TotalPages | server/routes/order.js:163 | `Math.ceil(total / limit)`: the fewest pages of `limit` entries that hold all `total`; zero pages exactly for zero entries |
| Paging.Page | server/routes/order.js:152-157 | a page holds at most `limit` entries, namely the entries from `(page - 1) * limit` on, in order, and is empty past the end |
| Paging.PagesPrefix | server/routes/admin.js:140-143 | the first `n` pages, laid end to end, are the first `n * limit` entries |
| Paging.PagesCover | server/routes/order.js:152-163 | walking pages 1 to `totalPages` lists every entry exactly once, in order |
| Paging.PageBeyondEnd | server/routes/admin.js:142-149 | a page is empty exactly when its number exceeds `totalPages` |
| Seeder.AdminAccount | server/utils/seeder.js:16-29 | the seeded account has the admin e-mail, the "admin" role and a verified e-mail |
| Seeder.SeedAdmin | server/utils/seeder.js:11-31 | the admin is inserted exactly when no user has its e-mail, under a fresh id, so no existing user changes and the key set grows by that id alone; afterwards some user has the e-mail |
| Seeder.SeedAdminIdempotent | server/utils/seeder.js:11-14 | seeding the admin twice is seeding it once |
| Seeder.SeedPizzas | server/utils/seeder.js:139-145 | the existing pizzas stay as they are at the front; every pizza added is a seed the schema accepts; a run that gets through leaves a pizza under every seed's name |
| Seeder.SeedPizzasIdempotent | server/utils/seeder.js:139-145 | a second pizza run adds nothing and stops where the first did |
| Seeder.PizzaNameKept | server/utils/seeder.js:140 | a name found before seeding is still found after it |
| Seeder.SeedInventory | server/utils/seeder.js:496-505 | existing items are kept unchanged; every new entry is a seed stored under its own name-and-category key; a run that gets through stores every seed's key |
| Seeder.SeedInventoryIdempotent | server/utils/seeder.js:496-505 | a second inventory run changes nothing |
| Seeder.SeedInventoryKeepsValid | server/utils/seeder.js:496-505 | seeding keeps a ledger valid: every stored item passes the schema under its own key and no name is stored twice |
| Seeder.InsertKeepsValid | server/utils/seeder.js:502 | inserting a valid item with an unused name under its own key keeps the ledger valid |
| Seeder.SeedInventoryCompletes | server/utils/seeder.js:496-505 | with valid seeds whose names are new and distinct the run gets through |
| Seeder.Seed | server/utils/seeder.js:6-511 | admin first, then pizzas, then inventory; a failure among the pizzas leaves the inventory untouched |
| Seeder.SeedIdempotent | server/utils/seeder.js:6-511 | seeding on every start-up is harmless: a second full run changes nothing |
| Seeder.SeedStockLevels | server/utils/seeder.js:148-494 | all twenty-four seeded items start between their threshold (exclusive) and maximum, priced, available, and none is low |
| Seeder.SeedNames | server/utils/seeder.js:148-494 | the seeded items carry the twenty-four names in order |
| Seeder.SeedNamesUnpadded | server/utils/seeder.js:148-494 | no seeded name has surrounding spaces for the schema's trim to remove |
| Seeder.SeedItemsValid | server/utils/seeder.js:148-494 | every seeded item passes the inventory schema |
| Seeder.SeedPizzasValid | server/utils/seeder.js:34-137 | every seeded pizza passes the pizza schema |
| Seeder.FreshSeed | server/utils/seeder.js:496-505 | on an empty inventory, valid distinctly named items that are not low all go in, the ledger is valid and nothing is reported low |
| Seeder.FreshInventorySeed | server/utils/seeder.js:148-505 | the shipped inventory data seeds an empty store completely, validly and with nothing low |
| Seeder.SeedNameListDistinct | server/utils/seeder.js:148-494 | no two seeded names are equal |
| Seeder.SeedNamesDistinct | server/utils/seeder.js:148-494 | no two seeded items share a name |
| Cart.FindIndex | client/src/utils/cart.js:18 | the position of the first entry with the id, or -1 exactly when no entry has it |
| Cart.Add | client/src/utils/cart.js:16-26 | a product already in the cart gets one more at its first entry (stored name and price kept), nothing else moves; a new product is appended with count 1 |
| Cart.Remove | client/src/utils/cart.js:28-40 | an absent id changes nothing; a count above 1 goes down by one in place; a count of 1 or less removes that entry and only it |
| Cart.Clear | client/src/utils/cart.js:42-44 | the cleared slot reads as an empty cart with no items and a zero total |
| Cart.UnparsableReadsEmpty | client/src/utils/cart.js:1-8 | a missing or unreadable slot behaves as the empty cart: adding to it yields just the new entry |
| Cart.AddKeepsValid | client/src/utils/cart.js:16-26 | adding keeps every id once and every count at least 1 |
| Cart.RemoveKeepsValid | client/src/utils/cart.js:28-40 | removing keeps every id once and every count at least 1 |
| Cart.RemoveAfterAdd | client/src/utils/cart.js:16-40 | removing a product right after adding it restores the cart exactly |
| Cart.AddCounts | client/src/utils/cart.js:16-52 | adding raises the item count by one and the total by the price the cart already stores for the product, or the product's price when it is new |
| Cart.RemoveCounts | client/src/utils/cart.js:28-52 | removing a held product lowers the item count by one and the total by its stored price; an absent id moves neither |
| AuthState.Reduce | client/src/context/AuthContext.js:15-63 | START sets loading and clears the error; SUCCESS authenticates with the user and token; FAIL and LOGOUT drop user and token (LOGOUT without an error); UPDATE_USER and CLEAR_ERROR touch only their own field; anything else changes nothing |
| AuthState.ReduceKeepsConsistent | client/src/context/AuthContext.js:7-63 | the start-up state has no authenticated user, and every action keeps "authenticated implies a user and a token" |
| AuthState.LogoutIsSilentFail | client/src/context/AuthContext.js:32-49 | logging out is a failure that records no error |
| AuthState.OnlySuccessAuthenticates | client/src/context/AuthContext.js:15-63 | only a success action can turn the authenticated flag on |
| AuthState.MessageOr | client/src/context/AuthContext.js:232 | the server's message when it answered with one, otherwise the default, never empty |
| AuthState.FindAccount | client/src/context/AuthContext.js:215-217 | the demo account found matches both email and password; none is found exactly when no account matches both |
| AuthState.Login | client/src/context/AuthContext.js:172-237 | the outcome is never loading; success means authenticated; the demo path is taken exactly on a network or 5xx failure with demo credentials, and then with the mock token; a server session signs in its user; any other failure records the server's message or "Login failed" |
| AuthState.ClientErrorNeverDemo | client/src/context/AuthContext.js:188-190 | an error the server answered with a status below 500 never signs in |
| AuthState.DemoAdminLogin | client/src/context/AuthContext.js:203-218 | with the server unreachable the demo admin credentials sign in as an admin and a wrong password fails with "Login failed" |
| AuthState.MockUser | client/src/context/AuthContext.js:144-151 | the made-up user is an unverified customer with the registration's email and a non-empty name |
| AuthState.Register | client/src/context/AuthContext.js:123-169 | registration succeeds exactly on a server session or a network/5xx failure; the latter signs in the made-up user with the mock token; any other failure is unauthenticated with the server's message or "Registration failed" |
| AuthState.DemoRegistrationIsCustomer | client/src/context/AuthContext.js:140-163 | a demo registration signs in a user who is never an admin |
| AuthState.LoadUser | client/src/context/AuthContext.js:80-117 | one pass of the start-up effect: no stored token fails quietly; with one, the user is signed in exactly when `/api/auth/me` answers or a demo user was saved, keeping the token; otherwise the token is cleared and the error is "Token is invalid" |
| AuthState.Settle | client/src/context/AuthContext.js:80-120 | the effect re-run while its `[state.token]` dependency changes: signed in exactly when a token was stored and `/api/auth/me` answers or a demo user was saved, keeping the token and no error; otherwise signed out with no token and no error, and a further pass changes nothing; this holds for the state after a sign-in as well |
| AuthState.InvalidTokenMessageIsTransient | client/src/context/AuthContext.js:32-40 | a rejected stored token shows "Token is invalid" after the first pass, whose cleared token re-runs the effect, and the settled state carries no error |
| AdminRoute.Decide | client/src/components/auth/AdminRoute.js:5-28 | the spinner exactly while loading; the login page exactly when loaded and signed out; the dashboard exactly for a signed-in non-admin or missing user; the page itself exactly for a signed-in admin |
| AdminRoute.StartupWaits | client/src/components/auth/AdminRoute.js:8-17 | on start-up the guard shows the spinner |
| AdminRoute.SignedOutGoesToLogin | client/src/components/auth/AdminRoute.js:19-21 | after a logout or a failed sign-in the guard redirects to the login page |
| AdminRoute.SignInDecides | client/src/components/auth/AdminRoute.js:23-27 | after a sign-in the guard opens the page exactly for the admin role and redirects any other role to the dashboard |
| AdminRoute.DemoAdminPasses | client/src/components/auth/AdminRoute.js:23-27 | the demo admin signed in offline is let through |
| AdminRoute.RequestShowsSpinner | client/src/components/auth/AdminRoute.js:8-17 | while a request is in flight the guard shows the spinner |
| Forms.NameError | client/src/pages/Register.js:49-53 | the name passes exactly when, once trimmed, it is at least two UTF-16 code units long; it is "Name is required" exactly when nothing is left after trimming |
| Forms.EmailError | client/src/pages/Register.js:55-59 | the email passes exactly when it is non-empty and has the unanchored `\S+@\S+\.\S+` shape |
| Forms.PhoneError | client/src/pages/Register.js:61-65 | the phone passes exactly when it is non-empty and ten digits remain after dropping every non-digit |
| Forms.PasswordError | client/src/pages/Register.js:67-71 | the password passes exactly when it is at least six UTF-16 code units long; it is "Password is required" exactly when it is empty |
| Forms.AstralCountsTwice | client/src/pages/Register.js:51 | one code point outside the Basic Multilingual Plane is a long enough name, and three of them a long enough password, as `length` counts surrogate pairs |
| Text.Utf16LengthPlain | client/src/pages/Register.js:69 | without code points outside the Basic Multilingual Plane, `length` is the number of characters |
| Forms.ConfirmError | client/src/pages/Register.js:73-77 | the confirmation passes exactly when it is non-empty and equals the password |
| Forms.SignUpErrors | client/src/pages/Register.js:46-81 | one message per failing field, the one that field's check gives, and nothing for passing fields |
| Forms.SignUpSendable | client/src/pages/Register.js:79-80 | the sign-up form has no errors exactly when the trimmed name is at least two UTF-16 code units, the email has its shape, the phone holds ten digits, the password is at least six UTF-16 code units and the confirmation repeats it |
| Forms.SignUpSubmit | client/src/pages/Register.js:83-95 | `register` is called exactly when the form has no errors, with the trimmed name and the other fields as typed |
| Forms.SignInErrors | client/src/pages/Login.js:40-57 | only the email and password are checked, each with the same message as on sign-up |
| Forms.SignInSendable | client/src/pages/Login.js:55-56 | the sign-in form has no errors exactly when the email has its shape and the password is at least six UTF-16 code units long |
| Forms.SignInSubmit | client/src/pages/Login.js:59-66 | `login` is called exactly when the form has no errors, with the email and password as typed |
| Forms.SignedUpCanSignIn | client/src/pages/Login.js:40-57 | credentials the sign-up form accepts pass the sign-in form |
| Forms.PhoneIgnoresSeparators | client/src/pages/Register.js:63 | a non-digit anywhere in a phone number does not affect the check |
| Forms.EmailUnanchored | client/src/pages/Register.js:57 | text around a passing email never makes it fail |
| CustomPizza.PriceOf | client/src/pages/CustomPizza.js:48-49 | the price of the first row with the id, 0 for an id the table lacks, never negative on a table of non-negative prices |
| CustomPizza.Extras | client/src/pages/CustomPizza.js:50-57 | the sum of the looked-up prices is never negative on a table of non-negative prices |
| CustomPizza.ExtrasAppend | client/src/pages/CustomPizza.js:50-57 | the extras of two lists laid end to end add up |
| CustomPizza.TablesNonNegative | client/src/pages/CustomPizza.js:7-39 | every price in the shipped tables is zero or more |
| CustomPizza.Price | client/src/pages/CustomPizza.js:47-59 | the running price is never below the 199 starting price |
| CustomPizza.ExtrasAddOne | client/src/pages/CustomPizza.js:50-57 | one more id adds exactly its own price |
| CustomPizza.AddToppingPrice | client/src/pages/CustomPizza.js:54-58 | ticking a topping raises the price by that topping's price, and an unknown topping by nothing |
| CustomPizza.AddCheesePrice | client/src/pages/CustomPizza.js:50-58 | ticking a cheese raises the price by that cheese's price, and an unknown cheese by nothing |
| CustomPizza.StartPrice | client/src/pages/CustomPizza.js:42-59 | the screen opens at 354 |
| CustomPizza.Without | client/src/pages/CustomPizza.js:63 | filtering out an id keeps exactly the other ids, never grows the list and changes nothing when the id is absent |
| CustomPizza.WithoutKeepsDistinct | client/src/pages/CustomPizza.js:63 | filtering keeps a duplicate-free list duplicate-free |
| CustomPizza.Toggle | client/src/pages/CustomPizza.js:61-71 | a toggle flips whether the id is listed and leaves every other id's membership alone |
| CustomPizza.ToggleKeepsDistinct | client/src/pages/CustomPizza.js:61-71 | a toggle never lists an id twice |
| CustomPizza.ToggleTwice | client/src/pages/CustomPizza.js:61-71 | toggling twice restores the list exactly when the id was unticked, and its membership always |
| CustomPizza.WithoutAppended | client/src/pages/CustomPizza.js:63 | filtering out an id just appended gives the list back |
| CustomPizza.DisabledIsWarned | client/src/pages/CustomPizza.js:104-195 | an option out of stock always also carries the low-stock warning; the warning shows exactly at or below its section's threshold |
| CustomPizza.ShippedTablesUnflagged | client/src/pages/CustomPizza.js:7-39 | with the shipped stock figures no option is disabled or warned |
| CustomPizza.NameOf | client/src/pages/CustomPizza.js:74 | the name of the first row with the id, or "undefined" when none has it |
| CustomPizza.AddToCart | client/src/pages/CustomPizza.js:73-83 | with a fresh click-time id the cart gains one entry named after the base at the running price; the item count rises by one either way |
| CustomPizza.SameInstantMerges | client/src/pages/CustomPizza.js:76 | two custom pizzas added at the same instant merge into one entry of count 2 with the first one's name and price |
| Checkout.Price | client/src/pages/Checkout.js:60-63 | the subtotal is the cart total; delivery is free exactly above 500 and otherwise 49; tax is a twentieth of the subtotal; the total is the three together |
| Checkout.ClientFeeDiffersFromServer | client/src/pages/Checkout.js:61 | for the same goods the screen's total is the server's less one rupee when delivery is charged, and equal when it is free |
| Checkout.BiggerCartCostsLess | client/src/pages/Checkout.js:60-63 | a cart worth 500 costs 574 and one worth 501 costs 526.05 |
| Checkout.GatewayAmount | client/src/pages/Checkout.js:99 | the gateway amount is the total in paise |
| Checkout.PrefillNeedsAddress | client/src/pages/Checkout.js:19-30 | a freshly prefilled form can never be paid: its address is empty |
| Checkout.Pay | client/src/pages/Checkout.js:75-121 | missing fields exactly when a required field is empty; the gateway opens exactly when all are filled and the script loaded, for the total in paise with the form's name, email and phone |
| Checkout.EmptyFieldStopsPayment | client/src/pages/Checkout.js:76-87 | any one empty required field stops the payment |
| Checkout.Open | client/src/pages/Checkout.js:32-39 | the screen redirects to the cart exactly when the stored cart is empty, and otherwise shows it |
| Checkout.PaymentSucceeded | client/src/pages/Checkout.js:103-111 | a completed payment empties the cart and confirms with the gateway's payment id and an "ORD-" order id |
| Checkout.NoSecondCheckout | client/src/pages/Checkout.js:103-111 | after a paid checkout reopening the screen redirects to the cart |
| PizzaMenu.Visible | client/src/pages/PizzaMenu.js:144-164 | a pizza shows exactly when it is listed, matches a non-empty term in its name or description ignoring case, and has the chosen category unless "all"; the list keeps the menu's order |
| PizzaMenu.NoFilterShowsAll | client/src/pages/PizzaMenu.js:148-161 | with no term and "all" the whole menu shows |
| PizzaMenu.SearchIgnoresCase | client/src/pages/PizzaMenu.js:151-152 | a term and its lower-cased form show the same pizzas |
| PizzaMenu.Increment | client/src/pages/PizzaMenu.js:174 | one more under the id, from 0 when absent; other counters unchanged |
| PizzaMenu.Decrement | client/src/pages/PizzaMenu.js:179-184 | a counter above 1 goes down by one, any other is deleted; other counters unchanged |
| PizzaMenu.IncrementDisplayed | client/src/pages/PizzaMenu.js:174-187 | the badge rises by one on every increment |
| PizzaMenu.DecrementDisplayed | client/src/pages/PizzaMenu.js:179-187 | with counters of at least 1 the badge drops by one for a held id and not at all otherwise |
| PizzaMenu.HydrateExact | client/src/pages/PizzaMenu.js:135-142 | on a valid cart the counters hold exactly the cart's ids, each with its count |
| PizzaMenu.HydrateCount | client/src/pages/PizzaMenu.js:135-142 | on a valid cart the menu's badge equals the stored cart's item count |
| PizzaMenu.IncrementInStep | client/src/pages/PizzaMenu.js:166-175 | adding from the menu changes the counters exactly as re-reading the stored cart would |
| PizzaMenu.DecrementInStep | client/src/pages/PizzaMenu.js:177-185 | removing from the menu changes the counters exactly as re-reading the stored cart would |
| PizzaMenu.AddFromMenu | client/src/pages/PizzaMenu.js:166-175 | nothing happens exactly for an id the menu does not list; otherwise the counter goes up by one and the cart gains one item |
| PizzaMenu.ButtonsKeepStep | client/src/pages/PizzaMenu.js:166-185 | counters in step with a valid stored cart stay in step after either button |
| AdminPanel.ComputeStats | client/src/pages/AdminDashboard.js:86-92 | orders counted; pending ones counted (never more than all); revenue summed over every order; low items counted at or below their threshold |
| AdminPanel.SameLowStockRule | client/src/pages/AdminDashboard.js:291 | the page's low-stock rule is the server's |
| AdminPanel.RevenueIgnoresStatus | client/src/pages/AdminDashboard.js:89 | any order, of any status, adds its total to the revenue |
| AdminPanel.SetStatus | client/src/pages/AdminDashboard.js:109-115 | every row with the id gets the new status, unchecked; nothing else in any row changes |
| AdminPanel.SetStatusKeepsRevenue | client/src/pages/AdminDashboard.js:89-115 | a status change never moves the revenue |
| AdminPanel.SetStatusLastWins | client/src/pages/AdminDashboard.js:109-115 | the later of two changes wins, and an unknown id changes nothing |
| AdminPanel.SetPendingCounts | client/src/pages/AdminDashboard.js:88-115 | marking a non-pending order pending raises the pending count by one |
| AdminPanel.OpeningStats | client/src/pages/AdminDashboard.js:19-92 | the page opens with three orders, one pending, 2693 in revenue and three low items |
| StockMonitor.LineStep | server/utils/stockMonitor.js:43-108 | one line's lookups and decrements keep the key set and keep a valid ledger valid |
| StockMonitor.NoChangeUnnamed | server/utils/stockMonitor.js:43-108 | a key that no line names receives no decrement |
| StockMonitor.BucketIsPresent | server/utils/stockMonitor.js:130-131 | a bucket is only returned for a category some document has |
| StockMonitor.PresentHasBucket | server/utils/stockMonitor.js:130-131 | a category some document has gets its bucket |
| StockMonitor.EmptyGroupHasNoStock | server/utils/stockMonitor.js:132-138 | a category without documents holds no stock |

## Left out

- Express wiring, the MongoDB connection and the hourly cron job in `server/index.js` are left out: they are plumbing. The low-stock scan is modelled as a pure function over the documents.
- The authentication routes in `server/routes/auth.js` are left out. JWT signing, bcrypt comparison, random reset tokens, express-validator rules and expiry queries are library calls that cannot be modelled from the code.
- Password hashing is left out: a user record keeps the secret itself, so the change-password comparison is string equality.
- JWT verification is left out: it is a parameter from token to user id.
- The Razorpay order creation, the HMAC-SHA256 signature check and the payment-verified event (status `confirmed`, payment `completed`) in `server/routes/payment.js` are left out: they are a foreign API and cryptography. The payment status and the payment id are modelled only through the admin payment-status route, and the `razorpayOrderId` field, which only that file writes, is not part of the order record.
- OrderRoutes.SetStatus: a body without `status` is not modelled, because the status is taken as a string. In the source that assigns `undefined`, the enum validator skips it, the save succeeds with the status unset and the answer is 200.
- AdminRoutes.UpdateOrderStatus: a body without `status` is not modelled, for the same reason as OrderRoutes.SetStatus (server/routes/admin.js:316 and 327).
- OrderRoutes.SetPaymentStatus: a body without `paymentStatus` is not modelled, because the payment status is taken as a string. In the source the save succeeds with the payment status unset and the answer is 200.
- E-mail sending (nodemailer, the low-stock alert mail and the status-change mail) is left out as I/O. The scan reports only whether the alert would be sent, and a mail failure is modelled as having no effect.
- Console logging is left out, including the seeding error log. A seeding failure is modelled as the run stopping where it failed.
- Concurrency is left out, because every handler is modelled as running alone. This covers the count-then-insert race on the order number and the read-modify-write in `updateStock`.
- JavaScript floating point is left out: the tax and totals are exact `real`s. Rounding, `toFixed` display and the float product `total * 100` are not modelled.
- The clock and time zones are left out: the date, today's order count and "now" are parameters. Local-midnight day boundaries are not modelled.
- Query-string parsing for pagination is left out. Paging.Page and Paging.TotalPages require `page >= 1` and `limit >= 1`. A page of 0, a negative page or a non-numeric string from the query is not modelled.
- Quantities and prices are integers, so fractional stock (kilograms, litres) and non-numeric request values are not modelled.
- MongoDB `populate` is modelled only for the owner in the single-order view, where a deleted owner gives the 500 of OrderRoutes.ViewOrder. Elsewhere an order's owner and pizzas are their stored ids, and populating a deleted pizza is not modelled.
- The newest-first sort (`.sort({ createdAt: -1 })` in server/routes/order.js:61 and 155 and server/routes/user.js:124 and 210) is not modelled as a sort. Order listings take the documents in the order the store hands them over. The sort is stated as the predicate OrderRoutes.NewestFirst, which UserRoutes.HistoryIsNewest and OrderRoutes.FilterKeepsNewestFirst assume.
- Ids are natural numbers, so a malformed id cannot occur. The 500 that Mongoose's CastError causes for a malformed `:id` (caught as "Server error" in Catalog.GetPizza, OrderRoutes.ViewOrder and the user and admin `:id` routes) is not modelled.
- The order in which MongoDB returns summary buckets and unsorted finds is left out. Summaries are stated per category and as a partition, not as an order.
- The "favorite pizza" aggregation in the user order history is left out: it is display-only statistics over populated names.
- Admin user management, inventory create/update/delete, pizza update/delete and the `GET` profile route are left out. They are plain CRUD with no logic beyond the gates and schema checks already modelled.
- The inventory supplier, ingredients and nutrition sub-documents are left out: no modelled logic reads them.
- `toLowerCase` is modelled for ASCII letters only. Other case mappings in the menu search are not modelled.
- Local storage is modelled as a slot that is missing, unparsable or a saved list. A stored JSON `null` and quota errors on write are not modelled.
- Controlled-input handlers (`handleInputChange`), toasts, navigation side effects, status colours and every purely presentational page are left out: they are presentation only.
- Catalog.CustomizationOptions has no `ensures` of its own. Its buckets are stated by the lemmas Catalog.OptionsExact, Catalog.OptionsDisjoint and Catalog.OptionsCover.

## Findings

| source | as written | input that shows it | evidently intended | confidence | as-written member | corrected member |
|---|---|---|---|---|---|---|
| server/models/Order.js:10-14 | `orderNumber`, `subtotal` and `total` are `required`, but they are only filled in by the `pre('save')` hooks (lines 122-159), and Mongoose runs schema validation before those hooks; every new order fails validation and `POST /api/order` answers 500 | any non-empty order with valid lines and payment method `razorpay` | the hooks fill the computed fields, then validation runs, and the order is stored | medium, not executed | OrderRoutes.NewDraftNeverSavesAsWritten | OrderRoutes.SaveIsNewOrder |
| server/routes/pizza.js:84-86 | the create route (and the update and delete routes at lines 118 and 139), documented "Admin only", sit behind `protect` alone | a signed-in customer's valid Bearer token | `protect, admin`: only an administrator may change the menu | high, not executed | Catalog.CustomerPassesWriteGate | Catalog.WriteGate |
