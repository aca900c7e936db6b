# A verified model of the shop's cart, checkout and helpers

This project models the core of a small Laravel + React shop in Dafny:

- the **cart**: add a product (merge into an existing line or insert a new one, checked
  against live stock), view the cart with its subtotal at current prices, set a line's
  quantity, remove a line;
- **checkout**: the empty-cart check, the validation pass against stock, the commit pass
  (one order, one order item per line at the price of the moment, stock decrements, deletion
  of the cart and its lines) run as one transaction that is rolled back if any write fails,
  and the order total, read back after the commit;
- the order's `total()`;
- the **daily order report** job and the **low-stock** listener;
- the client's **toast manager** and **CSRF token lookup**.

The database is a class `Shop.Database` whose fields are the tables: `products`, `carts`
and cart lines as maps keyed by id, `orders` and `orderItems` as append-only sequences, and
the auto-increment counters. `Snapshot()` gives the whole state as a `Tables` value, and
`Valid()` is the consistency the operations keep:

- a product is stored under its id and has a non-negative stock;
- a user has at most one cart;
- a cart has at most one line per product;
- every line refers to an existing cart and product and has a quantity of at least 1.

The model reads a query's rows, for `first()` and for a relation, in ascending id order
(see "## Left out"). Money is integer cents. The controllers' state changes are methods with `modifies db`. Each is proved against
a function on `Tables` or an explicit record update of the old `Tables`:

- `CartController.Added` for adding a product;
- `OrderController.CommitOf` and `OrderController.Committed` for the commit pass.
- an update of one line's quantity, or a removal of one line, of the old snapshot for
  `CartController.Update` and `CartController.Destroy`.

The properties are then lemmas about those functions.

Some things the code depends on are inputs to the model:

- The authenticated user is an `Option<UserId>`.
- The clock is `now`. For the checkout it is an order's `createdAt`.
- A database failure in the commit pass is `fault: Option<nat>`, the number of the write
  that throws:
  - write 0 is the order;
  - `2i+1` and `2i+2` are line `i`'s order item and stock decrement;
  - then come the deletion of the lines and the deletion of the cart;
  - `2n+3`, for a cart of `n` lines, is the reload of the order's items after the commit.
    The same handler catches it, but its rollback has no transaction left to undo. The
    checkout then reports a failure although the order, its items, the stock decrements and
    the deletion of the cart are committed.
- Mail, log and event dispatch are returned values:
  - the report and its recipient;
  - the low-stock list and whether the mail is sent;
  - `InsufficientStock(products)` for the checkout's low-stock event.
- The toast timers are returned as delays.
- The CSRF lookup takes the meta tag's content, the cookie string and the URI decoder as
  parameters.

Route middleware and route-model binding appear as the order of the checks:

- `update` and `destroy` sit behind the `auth` middleware, so a missing user gets the
  login redirect (`LoginRequired`) before anything else.
- A line id that does not exist gets the binding's 404 (`NotFound`). It is not an
  idempotent success.
- Only after these does the controller's own ownership check run.
- `store` is outside the `auth` group. Its request validation runs before its own login
  check.

## Model

| member | source | states |
|---|---|---|
| Shop.FindCartBelow | app/Http/Controllers/CartController.php:82 | `where('user_id')->first()` over ids below a bound: the lowest id of a cart owned by the user, or none exactly when no such cart exists |
| Shop.CartOf | app/Http/Controllers/OrderController.php:28 | the user's cart is one owned by the user; there is none exactly when the user owns no cart |
| Shop.LinesBelow | app/Http/Controllers/CartController.php:82 | the lines of a cart below an id bound: stored rows of that cart, strictly ascending ids, and every such line is included |
| Shop.CartLinesOf | app/Http/Controllers/CartController.php:82 | `$cart->items`: exactly the cart's lines, in ascending id order, each with an existing product and quantity ≥ 1, no product twice |
| Shop.UserCartLines | app/Http/Controllers/OrderController.php:28-30 | the lines of the user's cart: a stored line is included exactly when its cart belongs to the user; empty when the user has no cart |
| Shop.DropCartLines | app/Http/Controllers/OrderController.php:76 | `$cart->items()->delete()`: a line survives exactly when it belongs to another cart, unchanged |
| Shop.Database.constructor | database/seeders/ProductsSeeder.php:15-70 | a seeded shop: the given well-formed catalogue, no carts, lines or orders, counters at 0; consistent |
| Shop.Database.Restore | app/Http/Controllers/OrderController.php:104-105 | the rollback: afterwards the tables are exactly the given snapshot |
| Orders.ItemsOf | app/Models/Order.php:16-19 | `$order->items`: exactly the rows of the order, in table order, no more rows than the table |
| Orders.Total | app/Models/Order.php:21-26 | Σ sale price × quantity over the items; it reads no product row. Its properties are the four lemmas below |
| Orders.TotalOfNoItems | app/Models/Order.php:21-26 | an order without items totals 0 |
| Orders.TotalAppend | app/Models/Order.php:23-25 | appending an item adds its sale price × quantity to the total (the total reads no product price) |
| Orders.TotalConcat | app/Models/Order.php:23-25 | the total of two runs of items is the sum of their totals |
| Orders.TotalNonNegative | app/Models/Order.php:23-25 | with non-negative sale prices and quantities the total is non-negative |
| Orders.ItemsOfConcat | app/Models/Order.php:16-19 | selecting an order's items distributes over appending rows to the table |
| Orders.ItemsOfAll | app/Models/Order.php:16-19 | when every row belongs to the order, its items are all the rows |
| Orders.ItemsOfNone | app/Models/Order.php:16-19 | when no row belongs to the order, it has no items |
| CartController.FirstWithProduct | app/Http/Controllers/CartController.php:44 | the first line holding the product: it is in the lines, holds the product, and no earlier line holds it; none exactly when no line holds it |
| CartController.ExistingLine | app/Http/Controllers/CartController.php:41-44 | the line for the product in the user's cart is a stored line of that cart holding the product; none exactly when no such line exists |
| CartController.OnlyLineFor | app/Http/Controllers/CartController.php:44-62 | in consistent tables a user's cart has at most one line for a product |
| CartController.MergeKeepsConsistent | app/Http/Controllers/CartController.php:56 | raising an existing line's quantity keeps the tables consistent |
| CartController.InsertKeepsConsistent | app/Http/Controllers/CartController.php:58-62 | inserting a line for a product the cart lacks keeps the tables consistent |
| CartController.CreateKeepsConsistent | app/Http/Controllers/CartController.php:41-62 | creating the cart of a user without one, with one line, keeps the tables consistent |
| CartController.Added | app/Http/Controllers/CartController.php:41-62 | the effect of a successful `store`: merge into the product's line, or insert one into the user's cart, or create the cart with that line. Its properties are the lemmas below |
| CartController.AddedKeepsConsistent | app/Http/Controllers/CartController.php:41-62 | adding keeps one cart per user and one line per product in a cart |
| CartController.AddedLine | app/Http/Controllers/CartController.php:41-62 | an existing cart is reused; afterwards the cart has a line for the product, and every such line holds the old quantity plus q (q for a new line) |
| CartController.AddedWithinStock | app/Http/Controllers/CartController.php:46-56 | when the stock checks pass, the product's line afterwards holds between 1 and the product's stock |
| CartController.Store | app/Http/Controllers/CartController.php:18-66 | the rejections in order, each an if-and-only-if: invalid request, no user, quantity (default 1) above stock before any cart is touched, merge exceeding stock; a rejection changes nothing; success is `Added` and keeps the tables consistent |
| CartController.GetOrCreateCart | app/Http/Controllers/CartController.php:41 | `firstOrCreate`: the user's existing cart with nothing changed, or a new cart under the next id |
| CartController.MergeLine | app/Http/Controllers/CartController.php:48-56 | the existing line's quantity becomes the old quantity plus q, and nothing else changes |
| CartController.InsertLine | app/Http/Controllers/CartController.php:58-62 | a new line of the cart under the next line id, with the product and q, and nothing else changes |
| CartController.AddToCart | app/Http/Controllers/CartController.php:41-62 | rejected (with nothing changed) exactly when an existing line plus q exceeds the stock; otherwise the tables become `Added` and stay consistent |
| CartController.Subtotal | app/Http/Controllers/CartController.php:91-93 | Σ current price × quantity, non-negative for non-negative quantities |
| CartController.SubtotalAppend | app/Http/Controllers/CartController.php:91-93 | appending a line adds its current price × quantity to the subtotal |
| CartController.ItemViews | app/Http/Controllers/CartController.php:97-111 | one view per line, in line order, with the line's id, product id, quantity and the product's current row |
| CartController.Show | app/Http/Controllers/CartController.php:71-124 | no user: rejected; no cart: id null, no items, subtotal 0; otherwise the cart's lines in ascending id order, each with its id, product id and quantity and the current product row, and their subtotal at current prices, ≥ 0 |
| CartController.Update | app/Http/Controllers/CartController.php:129-152 | each rejection as an if-and-only-if in the order login, missing line, not the owner, quantity < 1, quantity > stock; a rejection changes nothing; success sets exactly that line's quantity, within 1..stock |
| CartController.Destroy | app/Http/Controllers/CartController.php:157-168 | rejections for login, missing line and non-owner change nothing; success removes exactly that line and leaves the cart and its other lines |
| OrderController.Shortfall | app/Http/Controllers/OrderController.php:37-43 | the low-stock products, at most one per line; empty exactly when every line's quantity is within its product's stock |
| OrderController.ShortfallMembers | app/Http/Controllers/OrderController.php:38-43 | every reported product is that of a line exceeding the stock, and every such line's product is reported |
| OrderController.ValidateStock | app/Http/Controllers/OrderController.php:37-43 | the validation loop yields exactly `Shortfall`, in cart order, and raises the flag exactly when it is non-empty |
| OrderController.SaleItems | app/Http/Controllers/OrderController.php:62-69 | exactly one item per line |
| OrderController.SaleItemsAt | app/Http/Controllers/OrderController.php:62-69 | item i is line i's product and quantity at the product's price at checkout, under the new order's id |
| OrderController.Decremented | app/Http/Controllers/OrderController.php:72 | the stock decrements keep the set of products |
| OrderController.DecrementedAt | app/Http/Controllers/OrderController.php:62-73 | each product's stock drops by the total quantity of its lines and nothing else about it changes |
| OrderController.QuantityForDistinct | app/Http/Controllers/OrderController.php:62-73 | with no product twice, a product's total quantity is its line's quantity, or 0 without one |
| OrderController.DecrementedDistinct | app/Http/Controllers/OrderController.php:62-73 | with one line per product, each line's product loses exactly the line's quantity and every other product is untouched |
| OrderController.DecrementedNonNegative | app/Http/Controllers/OrderController.php:37-73 | after a passed validation, with one line per product, no stock goes negative |
| OrderController.CommittedStockNonNegative | app/Http/Controllers/OrderController.php:37-73 | after a passed validation a commit leaves every stock ≥ 0 |
| OrderController.DropCartKeepsConsistent | app/Http/Controllers/OrderController.php:76-77 | deleting a cart together with its lines keeps the tables consistent |
| OrderController.AppendOrderKeepsConsistent | app/Http/Controllers/OrderController.php:57-69 | appending an order under the next id, with items of that order only, keeps the tables consistent |
| OrderController.WithProductsKeepsConsistent | app/Http/Controllers/OrderController.php:72 | well-formed product rows under the same ids keep the tables consistent |
| OrderController.DecrementedWellFormed | app/Http/Controllers/OrderController.php:37-73 | decrements that all fit the stock keep every product under its id with a stock ≥ 0 |
| OrderController.CommitOfKeepsConsistent | app/Http/Controllers/OrderController.php:53-80 | committing lines with distinct products that fit the stock keeps the tables consistent |
| OrderController.CommittedKeepsConsistent | app/Http/Controllers/OrderController.php:53-80 | a commit of the cart after a passed validation keeps the tables consistent |
| OrderController.CommittedOrder | app/Http/Controllers/OrderController.php:57-69 | a commit appends exactly one order, for the user, under a fresh id; its items are exactly `SaleItems` of the cart lines and its total is the cart's subtotal |
| OrderController.SaleItemsTotal | app/Http/Controllers/OrderController.php:83-86 | the total of the order items equals the subtotal of the lines at the prices copied into them |
| OrderController.CommittedCartGone | app/Http/Controllers/OrderController.php:76-77 | after a commit the user has no cart and no cart lines, and the tables are consistent |
| OrderController.CommitLine | app/Http/Controllers/OrderController.php:62-73 | one line's writes: succeeds exactly when neither of its two writes fails; then one item is appended and the product's stock drops by the quantity |
| OrderController.CommitLinesStep | app/Http/Controllers/OrderController.php:62-73 | one more line appends its item at the end and takes its quantity off its product's stock |
| OrderController.CommitLines | app/Http/Controllers/OrderController.php:62-73 | the per-line loop: succeeds exactly when no item or decrement write fails; then the items are `SaleItems` and the products `Decremented` |
| OrderController.CommitOf | app/Http/Controllers/OrderController.php:55-77 | the effect of the commit pass: the order appended under the next id, `SaleItems` appended, stocks `Decremented`, the cart and its lines deleted. Its properties are the lemmas about it |
| OrderController.Committed | app/Http/Controllers/OrderController.php:28-77 | `CommitOf` for the lines of the cart loaded at the start of the checkout |
| OrderController.CommitPass | app/Http/Controllers/OrderController.php:55-80 | succeeds exactly when no write fails; then the tables are `CommitOf` the old tables |
| OrderController.PlaceOrder | app/Http/Controllers/OrderController.php:53-110 | fails exactly when a write of the commit pass or the reload after the commit throws; a failed write rolls every table back to the snapshot; otherwise (a placed order or a failed reload) the tables are `Committed` and the user's cart is gone; a placed order's total is its `total()` and equals the cart's subtotal |
| OrderController.Checkout | app/Http/Controllers/OrderController.php:19-111 | each outcome as an if-and-only-if: no user; missing or empty cart; low stock with exactly the `Shortfall` products; a failed write or reload; the early rejections leave the tables as they were; a failed write rolls back, a failed reload leaves the order committed; success commits, and its total equals `show`'s subtotal just before |
| OrderController.CheckoutTwice | app/Http/Controllers/OrderController.php:30-34 | an immediate second checkout after a successful one finds the cart empty |
| DailyReport.Recent | app/Jobs/SendDailyOrderReport.php:30-32 | the orders created at or after the cut-off and no others, no more than the table |
| DailyReport.RecentConcat | app/Jobs/SendDailyOrderReport.php:30-32 | the selection keeps table order: over two runs of orders it is the two selections in turn |
| DailyReport.RecentOne | app/Jobs/SendDailyOrderReport.php:30-32 | one order is selected, once, exactly when it was created at or after the cut-off; with `RecentConcat` this fixes the selection and its count |
| DailyReport.UserIds | app/Jobs/SendDailyOrderReport.php:47 | exactly the user ids of the orders, so no more of them than orders |
| DailyReport.ItemProducts | app/Jobs/SendDailyOrderReport.php:52-56 | at most one product per item, one for every item when all products exist; its contents are `ItemProductsMembers` and `ItemProductsAll` |
| DailyReport.ItemProductsMembers | app/Jobs/SendDailyOrderReport.php:52-56 | a product is listed exactly when some item refers to it and it still exists |
| DailyReport.ItemProductsAll | app/Jobs/SendDailyOrderReport.php:52-56 | when every item's product exists, entry i is the product of item i, in item order |
| DailyReport.ProductsOf | app/Jobs/SendDailyOrderReport.php:50-57 | the product list is no longer than the number of items of the orders |
| DailyReport.AppendItemProducts | app/Jobs/SendDailyOrderReport.php:52-56 | the inner loop appends exactly `ItemProducts` of one order's items |
| DailyReport.ProductList | app/Jobs/SendDailyOrderReport.php:50-57 | the nested loops build exactly `ProductsOf`, order after order and item after item, skipping missing products |
| DailyReport.ProductsOfStep | app/Jobs/SendDailyOrderReport.php:50-57 | one more order appends the products of its items at the end |
| DailyReport.Handle | app/Jobs/SendDailyOrderReport.php:27-78 | the report over the last day's orders: count, Σ `total()`, Σ quantities, distinct users (≤ orders), product list (≤ items); mailed exactly when the admin address is PHP-truthy |
| DailyReport.Amount | app/Jobs/SendDailyOrderReport.php:37-39 | Σ `total()` over the orders. Its properties are `AmountConcat` and `AmountNonNegative` |
| DailyReport.Units | app/Jobs/SendDailyOrderReport.php:43 | Σ quantity over one order's items |
| DailyReport.UnitsOf | app/Jobs/SendDailyOrderReport.php:42-44 | Σ `Units` over the orders |
| DailyReport.Truthy | app/Jobs/SendDailyOrderReport.php:68-69 | PHP truthiness of the configured address: set, not empty and not "0" |
| DailyReport.AmountConcat | app/Jobs/SendDailyOrderReport.php:37-39 | the revenue is additive over the orders |
| DailyReport.AmountNonNegative | app/Jobs/SendDailyOrderReport.php:37-39 | with non-negative sale prices and quantities the revenue is non-negative |
| DailyReport.UnitsNonNegative | app/Jobs/SendDailyOrderReport.php:42-44 | with non-negative quantities an order's units are non-negative |
| DailyReport.UnitsOfNonNegative | app/Jobs/SendDailyOrderReport.php:42-44 | with non-negative quantities the units sold are non-negative |
| LowStockListener.LowStockOf | app/Listeners/CheckForLowStockItems.php:30-35 | at most one product per item, each with stock ≤ threshold (inclusive) |
| LowStockListener.Handle | app/Listeners/CheckForLowStockItems.php:25-40 | the loop over the order's items yields exactly `LowStockOf`; the mail is sent exactly when it is non-empty |
| LowStockListener.LowStockMembers | app/Listeners/CheckForLowStockItems.php:30-35 | every reported product is an item's product, and every item at or below the threshold contributes its product |
| LowStockListener.LowStockAppend | app/Listeners/CheckForLowStockItems.php:30-35 | the filter keeps item order: over two runs of items it is the two results in turn |
| LowStockListener.LowStockNone | app/Listeners/CheckForLowStockItems.php:30-39 | with every stock above the threshold nothing is reported, so no mail |
| Toasts.NatToString | resources/js/utils/toast.ts:17 | the counter printed as a non-empty run of decimal digits |
| Toasts.NatToStringInjective | resources/js/utils/toast.ts:17 | distinct counters print differently |
| Toasts.ToastId | resources/js/utils/toast.ts:17 | every id starts with `toast-` |
| Toasts.ToastIdInjective | resources/js/utils/toast.ts:17 | distinct counters give distinct ids |
| Toasts.NextIdFresh | resources/js/utils/toast.ts:13-17 | the id taken after a pre-increment was never handed out before |
| Toasts.WithoutId | resources/js/utils/toast.ts:52-54 | `filter(t => t.id !== id)`: exactly the toasts with another id; the list itself when none has the id |
| Toasts.WithoutIdConcat | resources/js/utils/toast.ts:52-54 | removal keeps the order of the remaining toasts |
| Toasts.ShowThenRemove | resources/js/utils/toast.ts:27-31 | the automatic removal of a toast just shown restores the list as it was before |
| Toasts.ToastManager.constructor | resources/js/utils/toast.ts:11-13 | no toasts, counter 0 |
| Toasts.ToastManager.Show | resources/js/utils/toast.ts:15-34 | pre-increments the counter and returns `toast-<counter>`, an id no toast has had; appends exactly one toast with duration 3000 and type info by default; schedules removal exactly when duration > 0 |
| Toasts.ToastManager.Error | resources/js/utils/toast.ts:36-38 | `show` with type error: the counter pre-incremented, one appended toast with the message, the type and the duration (3000 by default), and removal scheduled after the duration exactly when it is positive |
| Toasts.ToastManager.Success | resources/js/utils/toast.ts:40-42 | `show` with type success: the counter pre-incremented, one appended toast with the message, the type and the duration (3000 by default), and removal scheduled after the duration exactly when it is positive |
| Toasts.ToastManager.Info | resources/js/utils/toast.ts:44-46 | `show` with type info: the counter pre-incremented, one appended toast with the message, the type and the duration (3000 by default), and removal scheduled after the duration exactly when it is positive |
| Toasts.ToastManager.Warning | resources/js/utils/toast.ts:48-50 | `show` with type warning: the counter pre-incremented, one appended toast with the message, the type and the duration (3000 by default), and removal scheduled after the duration exactly when it is positive |
| Toasts.ToastManager.Remove | resources/js/utils/toast.ts:52-55 | the list becomes `WithoutId` of the old list; the counter stays |
| Toasts.ToastManager.Clear | resources/js/utils/toast.ts:57-60 | the list is emptied and the counter is kept, so later ids stay fresh |
| Toasts.ToastManager.GetToasts | resources/js/utils/toast.ts:73-75 | a copy equal to the current list |
| Csrf.Split | resources/js/utils/csrf.ts:15 | at least one part, and no part contains the separator |
| Csrf.JoinSplit | resources/js/utils/csrf.ts:15 | joining the parts with the separator gives back the string |
| Csrf.SplitCons | resources/js/utils/csrf.ts:17 | a separator-free run followed by the separator is the first part |
| Csrf.SplitNone | resources/js/utils/csrf.ts:17 | a separator-free string is one part |
| Csrf.SplitJoin | resources/js/utils/csrf.ts:15 | splitting the join of separator-free parts gives back the parts |
| Csrf.TrimStart | resources/js/utils/csrf.ts:17 | the result does not start with white space |
| Csrf.TrimEnd | resources/js/utils/csrf.ts:17 | the result does not end with white space |
| Csrf.TrimStartSuffix | resources/js/utils/csrf.ts:17 | trimming the start drops only leading white space and keeps the rest |
| Csrf.TrimEndPrefix | resources/js/utils/csrf.ts:17 | trimming the end drops only trailing white space and keeps the rest |
| Csrf.Trim | resources/js/utils/csrf.ts:17 | the result neither starts nor ends with white space |
| Csrf.ParseCookieValue | resources/js/utils/csrf.ts:17 | a cookie has a value exactly when its trimmed text holds an `=` |
| Csrf.ValueBetweenSeparators | resources/js/utils/csrf.ts:17-18 | the value is the text between the first and the second `=` (or the end) |
| Csrf.ParseCookie | resources/js/utils/csrf.ts:17 | the name is the trimmed cookie's first `=`-separated part, the value its second if there is one; see `ParseCookieValue` and `ValueBetweenSeparators` |
| Csrf.IsXsrf | resources/js/utils/csrf.ts:18 | the cookie's name is `XSRF-TOKEN` and its value is present and non-empty |
| Csrf.CookieToken | resources/js/utils/csrf.ts:15-21 | the first loop as a function; see `CookieTokenNone` and `CookieTokenIsFirstMatch` |
| Csrf.CsrfToken | resources/js/utils/csrf.ts:4-33 | `getCsrfToken()` as a function of the page: the non-empty meta content, else `CookieToken` of the split cookie string |
| Csrf.CookieTokenNone | resources/js/utils/csrf.ts:15-21 | no cookie token exactly when no cookie is `XSRF-TOKEN` with a non-empty value |
| Csrf.CookieTokenIsFirstMatch | resources/js/utils/csrf.ts:15-21 | the token is the decoded value of the first such cookie |
| Csrf.GetCsrfToken | resources/js/utils/csrf.ts:4-33 | the meta content when non-empty, ignoring cookies; otherwise the first XSRF-TOKEN cookie's decoded value; otherwise null (the laravel_session loop yields nothing) |

## Left out

- The React pages and components, the debounce and checkout hooks, `format.ts` and
  `Product::image_url`: rendering, timers, fetch calls and storage URLs. The cart view carries
  the product row without its image fields.
- The product seeder's image listing on disk, its image assignment and its `firstOrCreate` by
  name. Its effect on a freshly migrated database is `Shop.Database.constructor`: a
  well-formed catalogue and no carts, lines or orders.
- Concurrency. Each request is one atomic step. Between the checkout's stock check and its
  unconditional decrement another request could interleave. The model proves stock ≥ 0 only
  for a sequential run.
- Request validation beyond what the controllers branch on. A non-integer quantity is not
  modelled: a quantity is an `Option<int>`, with `None` for a missing field.
- Floating-point money. Prices and totals are integer cents.
- Mail, log, event dispatch and the scheduler. They become returned values, as listed above.
- Toast listeners (`subscribe`, `notifyListeners`) and the `setTimeout` calls are not modelled.
  `Show` returns the delay of the automatic removal. `ShowThenRemove` states its effect.
- The DOM. The meta tag's content and the cookie string are inputs. `decodeURIComponent` is an
  uninterpreted function, so its exception on malformed input is not modelled.
- Row order: none of the queries (`Cart::where(...)->first()`, `$cart->items`,
  `$cart->items()->where(...)->first()`, `$order->items`) has an `ORDER BY`, so the database
  promises no order. The model assumes ascending id for carts and cart lines and table order
  for order items. With one cart per user and one line per product, `first()` finds the only
  row either way. The assumed order of the cart's lines does fix several observable orders:
  the lines in the cart view, the products a failed validation reports, the order items the
  checkout writes (one per line, in line order), and through `$order->items` the daily
  report's product list and the low-stock listener's product list.
- Shop.Database.Restore: puts the auto-increment counters back as well. A real database does
  not roll its auto-increment counter back, so after a failed checkout the next order id
  would be skipped. The model keeps what the code relies on: new ids are fresh.
- CartController.Show: models the data the page and the JSON endpoint both receive, not the
  choice between the two responses.
- LowStockListener.Handle: requires every item of the order to have its product. The listener
  reads each item's product without a check.
- DailyReport.Handle: a day is 86400 seconds. Daylight-saving changes of the clock are not
  modelled, and neither is the order of rows a query returns without an `ORDER BY`: the model
  uses table order.
- Toasts.ToastManager.Show: the counter is unbounded. It does not model the loss of
  precision of a JavaScript number above 2^53.
- Csrf.IsJsWhitespace: lists the white space and line-terminator characters of
  `String.prototype.trim` explicitly, as of Unicode's current space separators.
- Order item and cart rows' timestamps, and order item row ids, are not modelled.
