# Sandhi Wedanaharanie storefront: a Dafny model of its business rules

The shop sells one Ayurvedic product line. It has a customer storefront and an
admin back office. This project models the rules in those screens that decide
something. The rendering, the Supabase back end and the browser storage are
left to the outside. The modelled parts are:

- **Promo codes** (`PromoCodes`). The looked-up code is passed in; the lookup
  matches `code.toUpperCase()` among active codes and succeeds only on exactly
  one match. Four eligibility guards run in order: start date, expiry, minimum
  amount, usage cap. The discount is a percentage with an optional cap, or a
  fixed amount. The result is clamped to the order amount. JavaScript
  truthiness matters here: a usage limit or discount cap of `null` or `0` means
  "no limit".
- **The cart** (`CartState.Cart`). This is a list of (product, quantity) lines
  keyed by product id. The operations are add-or-merge, set quantity (a
  quantity ≤ 0 removes the line), remove, clear, the two totals, and open/close.
- **Checkout** (`Checkout.CheckoutPage`). Submitting builds a `pending` order
  numbered `SW` plus the last six digits of the clock. The order is appended to
  the stored order list, the cart is cleared, and the page moves to the
  order-success page. The form only exists for a non-empty cart, starts blank,
  and the browser submits it only once the five required inputs are filled.
- **Admin screens**:
  - `AdminOrders`: orders sorted newest first, searched and filtered by status,
    with a status update that touches one order.
  - `AdminCustomers`: customers derived from orders, one per phone, with
    per-customer statistics.
  - `AdminDashboard`: four counters and the recent-orders table.
  - `AdminAnalytics`: revenue, counts and a guarded average.
  - `AdminProducts`: URL slugs and the image-URL list of the product editor.
  - `AdminPolicies`: the three policy texts, their preview routes and their
    word/character/line counts.
- **Storefront widgets**:
  - `ProductFilters`: the filter panel's handlers, including
    `parseInt(value) || 0`.
  - `ChatBot`: the chat window's append-only log and its canned replies.

Shared modules: `Domain` holds the records of `src/types/index.ts` and the
stored order list. `Text` holds the string built-ins the code relies on:
ASCII case mapping, `includes`, `trim`'s whitespace, `split`/`join`,
`Number.toString` and `parseInt`. `Seqs` holds `filter` and `reduce` sums.
`Sorting` holds a descending sort.

Conventions:

- Money is whole rupees (`int`). The percentage discount and the averages are
  `real`.
- Every clock reading is a parameter (`now`, in milliseconds). So is every
  generated id.
- The calendar day of a timestamp is a function parameter `dayOf`.
- An operation that can fail in the source has its failure modelled. The
  promo lookup returns `Option`. The checkout storage write has a
  `storageWorks` flag. Analytics takes an `Option` of fetched data.

A `max_discount` of `0` is treated as "no cap", and a `usage_limit` of `0` as
"no limit", because the code tests these fields for truthiness rather than for
presence.

## Model

| member | source | states |
|---|---|---|
| PromoCodes.Lookup | src/services/promoCodesService.ts:19-28 | A code is found exactly when one active stored code equals the typed code upper-cased; a found code is in the table, active, and spelled in upper case |
| PromoCodes.Created | src/services/promoCodesService.ts:89-93 | `create` stores the code upper-cased and every other field as given; the draft's `id` and `used_count` stand for the values the database assigns, since the insert passes neither |
| PromoCodes.FoundInAnyCase | src/services/promoCodesService.ts:19-28 | A created, active, unique code is found whatever casing the customer types |
| PromoCodes.LookupFindsOnlyUpperCaseCodes | src/services/promoCodesService.ts:22 | Every code the lookup can return is already upper case |
| PromoCodes.Eligible | src/services/promoCodesService.ts:31-52 | A found code applies exactly when none of the four guards, taken in their fixed order, fails |
| PromoCodes.RawDiscount | src/services/promoCodesService.ts:54-62 | A fixed code gives its value; a percent code gives at most amount×value/100, exactly that without a non-zero cap, and never more than a non-zero cap |
| PromoCodes.Validate | src/services/promoCodesService.ts:26-68 | Every rejection has `valid` false, discount 0, no code and a message; the result is valid exactly when a code was found and passes all four guards; a valid result carries the found code, no message, and the raw discount clamped to the order amount, so never more than the amount |
| PromoCodes.ValidateCode | src/services/promoCodesService.ts:18-69 | No match gives the "Invalid promo code" rejection; a valid result's code is in the table under the upper-cased typed code |
| PromoCodes.FirstFailingGuardDecides | src/services/promoCodesService.ts:34-52 | The guards run in the order start, expiry, minimum, usage; the first failing one decides the message, and if none fails the code is accepted |
| PromoCodes.BoundariesInclusive | src/services/promoCodesService.ts:34-48 | `now == valid_from`, `now == valid_to` and `amount == min_order_amount` are all accepted |
| PromoCodes.NoLimitMeansUnlimited | src/services/promoCodesService.ts:50 | With a `null` or `0` usage limit, the used count never affects the outcome |
| PromoCodes.LimitReachedRejects | src/services/promoCodesService.ts:50-52 | With a non-zero limit and `used_count >= usage_limit`, an otherwise eligible code gets the "usage limit reached" rejection |
| PromoCodes.PercentDiscount | src/services/promoCodesService.ts:55-59 | A percent code's discount is amount×value/100, capped by a non-zero `max_discount`, then clamped to the amount |
| PromoCodes.ZeroCapIsNoCap | src/services/promoCodesService.ts:57 | A `max_discount` of 0 gives the same discount as no cap |
| PromoCodes.FixedDiscount | src/services/promoCodesService.ts:60-62 | A fixed code's discount is its value clamped to the amount, and `max_discount` has no effect on it |
| PromoCodes.DiscountNonNegative | src/services/promoCodesService.ts:54-68 | With non-negative value, cap and amount, the discount is never negative |
| PromoCodes.Save10Example | src/services/promoCodesService.ts:55-66 | 10% capped at 500 with minimum 1000, on 6000, gives 500 |
| PromoCodes.Flat300Example | src/services/promoCodesService.ts:60-66 | A fixed 300 on an order of 200 gives 200 |
| PromoCodes.UsedUpExample | src/services/promoCodesService.ts:50-52 | A limit of 5 with 5 uses is rejected with discount 0 |
| PromoCodes.UnknownCodeExample | src/services/promoCodesService.ts:26-28 | A code not in the table is rejected as invalid |
| CartState.Find | src/hooks/useCart.ts:11 | `find` by product id: absent exactly when no line has that id, otherwise a line with that id |
| CartState.Added | src/hooks/useCart.ts:9-24 | `addToCart`'s new list: as long as before when the product is already there, one line longer otherwise; every line of another product stays where it was |
| CartState.WithQuantity | src/hooks/useCart.ts:33-39 | `updateQuantity`'s map: same length and same products, the matching lines carry the new quantity, and an absent id changes nothing |
| CartState.Removed | src/hooks/useCart.ts:42-44 | `removeFromCart`'s filter: the product is no longer found, the list does not grow, and every line of another product stays |
| CartState.TotalItems | src/hooks/useCart.ts:51-53 | The unit count is at least the number of lines when every line holds at least one unit |
| CartState.TotalAmount | src/hooks/useCart.ts:55-57 | The amount is never negative when prices and quantities are not |
| CartState.AddExisting | src/hooks/useCart.ts:13-19 | Adding a product already in the cart raises only that line's quantity by `quantity`; no line is added or moved |
| CartState.AddNew | src/hooks/useCart.ts:20-23 | Adding a new product appends one line `{product, quantity}` at the end |
| CartState.AddKeepsIdsUnique | src/hooks/useCart.ts:9-25 | After adding, product ids are still unique and the product is in the cart |
| CartState.AddRaisesTotals | src/hooks/useCart.ts:51-57 | Adding q units raises the item total by q and the amount by q times the price of the line's product |
| CartState.RemoveDropsOne | src/hooks/useCart.ts:42-44 | Removing an id in the cart drops exactly that line and keeps the rest in order |
| CartState.RemoveAbsent | src/hooks/useCart.ts:43 | Removing an id not in the cart changes nothing |
| CartState.RemoveKeepsIdsUnique | src/hooks/useCart.ts:43 | After removing, ids are still unique and the id is gone |
| CartState.SetQuantityShape | src/hooks/useCart.ts:33-39 | Setting a quantity keeps the length and every other line, changes only the quantity of the matching line, and changes nothing for an absent id |
| CartState.Cart.constructor | src/hooks/useCart.ts:6-7 | The cart starts empty and closed |
| CartState.Cart.AddToCart | src/hooks/useCart.ts:9-25 | The new items are the add-or-merge of the old ones (default quantity 1); ids stay unique; the open flag is kept |
| CartState.Cart.UpdateQuantity | src/hooks/useCart.ts:27-40 | A quantity ≤ 0 acts exactly as remove; a positive one sets that line's quantity |
| CartState.Cart.RemoveFromCart | src/hooks/useCart.ts:42-45 | The id's line is gone and the rest are kept in order |
| CartState.Cart.ClearCart | src/hooks/useCart.ts:47-49 | The cart becomes empty |
| CartState.Cart.OpenCart | src/hooks/useCart.ts:59 | The cart is open and the items are unchanged |
| CartState.Cart.CloseCart | src/hooks/useCart.ts:60 | The cart is closed and the items are unchanged |
| CartState.Cart.GetTotalItems | src/hooks/useCart.ts:51-53 | `getTotalItems` is the unit count of the current lines, at least the number of lines when each holds a unit |
| CartState.Cart.GetTotalAmount | src/hooks/useCart.ts:55-57 | `getTotalAmount` is the amount of the current lines, never negative for non-negative prices and quantities |
| Checkout.OrderNumber | src/components/Checkout.tsx:58 | The number is `SW` and one to six decimal digits |
| Checkout.BuildOrder | src/components/Checkout.tsx:60-73 | The order is `pending`, stamped with the submission time, and numbered from the same clock reading |
| Checkout.OrderNumberShape | src/components/Checkout.tsx:58 | The order number is `SW` followed by decimal digits, at most 8 characters; from six clock digits on it is exactly 8 characters, and the digits spell the clock modulo 1,000,000 |
| Checkout.PlacedOrderContents | src/components/Checkout.tsx:60-73 | A built order is `pending`, has the given id, is stamped with the submission time, copies the cart's lines and total and the form's name, phone, address, city, province and payment method, and its number has 8 characters; from a submittable form its name, phone, address, city and province are non-empty |
| Checkout.CheckoutPage.constructor | src/components/Checkout.tsx:17-27 | The page starts idle with no navigation and a blank form: every text empty and cash on delivery chosen |
| Checkout.WithField | src/components/Checkout.tsx:43-49 | The spread replaces the named input's value and keeps every other input and the payment method |
| Checkout.RequiredFieldsGate | src/components/Checkout.tsx:152-238 | The five `required` inputs (name, phone, address, city, province, whose select starts on the empty option) gate submission: the blank form cannot be submitted, clearing a required input blocks it, and changing an optional input keeps a submittable form submittable |
| Checkout.CheckoutPage.HandleInputChange | src/components/Checkout.tsx:43-49 | The form becomes `WithField` of the old form; the processing flag and route are unchanged |
| Checkout.CheckoutPage.HandlePaymentChange | src/components/Checkout.tsx:43-49 | Only the payment method changes |
| Checkout.CheckoutPage.HandleSubmit | src/components/Checkout.tsx:51-94 | Processing goes on, then off, on both paths. On success the stored list grows by exactly the new order at the end, the cart is cleared, and the page moves to `/order-success/<id>`. On a storage failure no order is stored and the cart and route are unchanged. A call needs a non-empty cart, because the form is shown only then (96-111), and a submittable form, because the browser refuses to submit while a `required` input is empty |
| AdminOrders.LoadedOrders | src/admin/components/AdminOrders.tsx:35-40 | Loaded orders are a permutation of the stored ones, sorted by creation time, newest first |
| AdminOrders.MatchesSearch | src/admin/components/AdminOrders.tsx:46-50 | An empty search term matches every order |
| AdminOrders.FilterOrders | src/admin/components/AdminOrders.tsx:42-58 | The listed orders are drawn from the loaded ones and are no more of them; no term and the "all" filter list every order in order |
| AdminOrders.UpdateStatus | src/admin/components/AdminOrders.tsx:60-63 | The list keeps its length and every position keeps its order id; orders with another id are unchanged |
| AdminOrders.FilterOrdersIsConjunction | src/admin/components/AdminOrders.tsx:42-58 | Search-then-status filtering is one filter by the conjunction of both conditions |
| AdminOrders.FilterOrdersSpec | src/admin/components/AdminOrders.tsx:42-58 | An order is listed exactly when it matches the search and the status filter. The search matches order number or name case-insensitively, or the phone as typed. The result is an order-preserving subsequence, and an empty term with "all" lists everything |
| AdminOrders.UpdateStatusSpec | src/admin/components/AdminOrders.tsx:60-63 | Only the status of the orders with that id changes; the length and all other orders are unchanged. Any status may follow any status. Repeating an update changes nothing, and the last update wins |
| AdminOrders.UpdateStatusKeepsOrder | src/admin/components/AdminOrders.tsx:60-64 | A status update keeps the newest-first order |
| AdminOrders.OrdersPage.constructor | src/admin/components/AdminOrders.tsx:20-25 | The page starts empty, with an empty search, "all", and no selection |
| AdminOrders.OrdersPage.LoadOrders | src/admin/components/AdminOrders.tsx:35-40 | The orders become the sorted stored list and the filtered list is recomputed |
| AdminOrders.OrdersPage.SetSearchTerm | src/admin/components/AdminOrders.tsx:31-33 | A new term recomputes the filtered list and changes nothing else |
| AdminOrders.OrdersPage.SetStatusFilter | src/admin/components/AdminOrders.tsx:31-33 | A new status filter recomputes the filtered list and changes nothing else |
| AdminOrders.OrdersPage.UpdateOrderStatus | src/admin/components/AdminOrders.tsx:60-71 | Orders are updated and written back to storage; a selected order with that id mirrors the new status, and any other selection is kept |
| AdminOrders.OrdersPage.OpenOrderModal | src/admin/components/AdminOrders.tsx:103-106 | Selects the order and opens the dialog |
| AdminOrders.OrdersPage.CloseOrderModal | src/admin/components/AdminOrders.tsx:108-111 | Clears the selection and closes the dialog |
| AdminCustomers.CollectCustomers | src/admin/components/AdminCustomers.tsx:26-38 | The `forEach` loop filling the phone-keyed map yields, in insertion order, the per-phone customer list `Dedup` |
| AdminCustomers.Dedup | src/admin/components/AdminCustomers.tsx:26-38 | The phone-keyed map never holds more customers than there are orders |
| AdminCustomers.DedupSpec | src/admin/components/AdminCustomers.tsx:26-38 | There is exactly one customer per distinct phone, and each one is made from the first stored order with that phone: id = phone, e-mail empty, name and creation time from that order |
| AdminCustomers.LoadedCustomers | src/admin/components/AdminCustomers.tsx:40-44 | The listed customers are a permutation of the unique customers, newest first |
| AdminCustomers.FilterCustomers | src/admin/components/AdminCustomers.tsx:47-59 | An empty term lists everyone. Otherwise a customer is listed exactly when the name contains the term ignoring case, or the phone contains it |
| AdminCustomers.LatestCreated | src/admin/components/AdminCustomers.tsx:65-67 | `Math.max` over creation times: it is one of them and no smaller than any |
| AdminCustomers.GetCustomerStats | src/admin/components/AdminCustomers.tsx:61-70 | The order count is at most the number of orders, and the last order date is missing exactly when the count is 0 |
| AdminCustomers.CustomerStatsSpec | src/admin/components/AdminCustomers.tsx:61-70 | The order count is the number of orders with that phone; the last order date is absent exactly when there are none, and is otherwise the latest of their creation times |
| AdminCustomers.StatsPartitionOrders | src/admin/components/AdminCustomers.tsx:61-64 | Summed over the customer list, the customers' spending is the total revenue and their order counts are the number of orders: each order is counted once |
| AdminCustomers.PerPhoneSums | src/admin/components/AdminCustomers.tsx:62 | For customers with distinct phones covering every order, the per-phone sums add up to the whole sum |
| AdminCustomers.NewThisMonth | src/admin/components/AdminCustomers.tsx:117-120 | The count of new customers is at most the number of customers |
| AdminCustomers.NewThisMonthSpec | src/admin/components/AdminCustomers.tsx:117-120 | "Days since joined ≤ 30" is the same test as "at most 30×86,400,000 ms" |
| AdminCustomers.AveragePerCustomer | src/admin/components/AdminCustomers.tsx:134 | The figure times max(customer count, 1) is the revenue of all the orders |
| AdminCustomers.AveragePerCustomerSpec | src/admin/components/AdminCustomers.tsx:134 | Revenue over max(customers, 1) never divides by zero: with no customers it is the revenue, otherwise the figure times the count is the revenue |
| AdminCustomers.AveragePerCustomerIsNotPerOrder | src/admin/components/AdminCustomers.tsx:134 | One customer with orders of 1000 and 3000 gets a shown "average order value" of 4000; the average over orders is 2000 |
| AdminCustomers.CustomersPage.constructor | src/admin/components/AdminCustomers.tsx:7-10 | The page starts empty with an empty search |
| AdminCustomers.CustomersPage.LoadData | src/admin/components/AdminCustomers.tsx:20-45 | Keeps the stored orders and lists their unique customers newest first; the filtered list follows |
| AdminCustomers.CustomersPage.AverageOrderValue | src/admin/components/AdminCustomers.tsx:134 | The figure the screen shows under "Avg. Order Value": times max(number of listed customers, 1) it is the revenue of the loaded orders, and with no customers it is the whole revenue |
| AdminCustomers.CustomersPage.SetSearchTerm | src/admin/components/AdminCustomers.tsx:16-18 | A new term recomputes the filtered list and keeps orders and customers |
| AdminDashboard.CustomerCountAgrees | src/admin/components/AdminDashboard.tsx:38 | The number of distinct phones equals the length of the customer list on the customers screen |
| AdminDashboard.TodaySalesWithinRevenue | src/admin/components/AdminDashboard.tsx:30-37 | Today's sales plus the other days' sales are the total revenue, so with non-negative totals 0 ≤ today's sales ≤ revenue |
| AdminDashboard.ComputeStats | src/admin/components/AdminDashboard.tsx:29-45 | Pending orders are at most all orders, and no orders give four zeros |
| AdminDashboard.DashboardCountsSpec | src/admin/components/AdminDashboard.tsx:38 | The customer count is the number of customers the customers screen lists, never more than the orders |
| AdminDashboard.FirstTenStored | src/admin/components/AdminDashboard.tsx:173 | The table as written: the first min(10, n) orders in stored order |
| AdminDashboard.FirstTenMissesNewest | src/admin/components/AdminDashboard.tsx:150-173 | With eleven orders stored in placement order, the newest is not among the rows shown under "Showing last 10 orders" |
| AdminDashboard.RecentOrders | src/admin/components/AdminDashboard.tsx:150-173 | Corrected table: min(10, n) stored orders, newest first |
| AdminDashboard.RecentOrdersAreNewest | src/admin/components/AdminDashboard.tsx:150-173 | No order left out of the corrected table is newer than any order in it |
| AdminDashboard.DashboardPage.constructor | src/admin/components/AdminDashboard.tsx:16-22 | All four counters start at 0 |
| AdminDashboard.DashboardPage.Mount | src/admin/components/AdminDashboard.tsx:24-45 | On opening, the page keeps the stored orders and the four counters computed for the current day |
| AdminDashboard.DashboardPage.Recent | src/admin/components/AdminDashboard.tsx:173 | The rows the screen shows: the first min(n, 10) orders in stored order |
| AdminAnalytics.AverageOrderValue | src/admin/components/AdminAnalytics.tsx:40-42 | 0 with no orders, otherwise the figure times the order count is the revenue |
| AdminAnalytics.AverageWithinTotals | src/admin/components/AdminAnalytics.tsx:42 | The average lies between the smallest and largest order totals |
| AdminAnalytics.StatsOf | src/admin/components/AdminAnalytics.tsx:40-51 | Revenue is the sum of totals, order and product counts are the list lengths, and the average is guarded |
| AdminAnalytics.LoadStats | src/admin/components/AdminAnalytics.tsx:32-57 | When the joint request resolves, the figures are those of the fetched data; when it rejects, the previous figures stay |
| AdminAnalytics.FailedQueriesShowZeros | src/services/ordersService.ts:109-112 | A failed orders or products query answers with an empty list, so revenue, order count, product count and average show 0, not the previous figures |
| AdminAnalytics.StatsIgnoreOrderOfOrders | src/admin/components/AdminAnalytics.tsx:40-42 | The figures do not depend on the order in which the orders arrive |
| AdminProducts.CollapseRuns | src/admin/components/AdminProducts.tsx:60 | The `/[^a-z0-9]+/g` replacement: only slug characters and dashes, never two dashes in a row, and a leading dash exactly when the input starts with another character; where the dashes go is stated by `CollapseRunsWords` |
| AdminProducts.CollapseRunsWords | src/admin/components/AdminProducts.tsx:60 | The replacement is the maximal runs of letters and digits joined by single dashes, plus one dash for a run of other characters at the start and one at the end after the last run |
| AdminProducts.StripEdgeDashes | src/admin/components/AdminProducts.tsx:60 | The `/(^-\|-$)/g` replacement removes exactly one leading and one trailing dash and keeps everything between; it turns a dash-separated string into a well-formed slug and leaves a slug unchanged |
| AdminProducts.StripKeepsSlugChars | src/admin/components/AdminProducts.tsx:60 | Trimming the edge dashes drops no letter or digit |
| AdminProducts.GenerateSlug | src/admin/components/AdminProducts.tsx:59-61 | The slug has only `a-z`, `0-9` and single dashes, never a dash at either end, and keeps every letter and digit of the lowered name in order |
| AdminProducts.GenerateSlugWords | src/admin/components/AdminProducts.tsx:59-61 | The slug is the maximal runs of letters and digits of the lowered name joined by single dashes, with no other dash |
| AdminProducts.CollapseKeepsSlugChars | src/admin/components/AdminProducts.tsx:60 | Collapsing drops no letter or digit and reorders none |
| AdminProducts.NoAlphanumericsEmptySlug | src/admin/components/AdminProducts.tsx:60 | A name without ASCII letters or digits gives the empty slug |
| AdminProducts.SlugFixed | src/admin/components/AdminProducts.tsx:59-61 | A well-formed slug is its own slug |
| AdminProducts.GenerateSlugIdempotent | src/admin/components/AdminProducts.tsx:59-61 | Generating a slug twice gives the same result as once |
| AdminProducts.ShopNameSlug | src/admin/components/AdminProducts.tsx:59-61 | "Sandhi Wedanaharanie" gives "sandhi-wedanaharanie" |
| AdminProducts.SlugOnSubmit | src/admin/components/AdminProducts.tsx:104 | A typed slug is kept; an empty one is replaced by a well-formed slug of the English name |
| AdminProducts.ProductData | src/admin/components/AdminProducts.tsx:104-105 | The saved record is the form with only the slug replaced |
| AdminProducts.DropPosition | src/admin/components/AdminProducts.tsx:55 | Filtering by position is one shorter when the index is a position of the list, and as long otherwise |
| AdminProducts.DropPositionSpec | src/admin/components/AdminProducts.tsx:55 | Filtering by position drops exactly the element at the index when it exists, and nothing otherwise |
| AdminProducts.RemoveImage | src/admin/components/AdminProducts.tsx:54-57 | Removing index i drops exactly element i and keeps the rest in order; an index out of range changes nothing |
| AdminProducts.RemoveUndoesAdd | src/admin/components/AdminProducts.tsx:50-57 | Removing the field just added restores the list |
| AdminProducts.ProductEditor.constructor | src/admin/components/AdminProducts.tsx:11-24 | The editor starts closed with the blank form (one empty image field) |
| AdminProducts.ProductEditor.OpenModal | src/admin/components/AdminProducts.tsx:63-92 | The form is filled from the product being edited, or blank for a new one, and the dialog opens |
| AdminProducts.ProductEditor.CloseModal | src/admin/components/AdminProducts.tsx:94-97 | Closes the dialog and forgets the edited product |
| AdminProducts.ProductEditor.HandleImageChange | src/admin/components/AdminProducts.tsx:44-48 | Only the given image entry changes, to the value; the length and every other field are kept |
| AdminProducts.ProductEditor.AddImageField | src/admin/components/AdminProducts.tsx:50-52 | One empty field is appended and nothing else changes |
| AdminProducts.ProductEditor.RemoveImageField | src/admin/components/AdminProducts.tsx:54-57 | The image list loses position `index` and nothing else changes |
| AdminPolicies.PreviewRoute | src/admin/components/AdminPolicies.tsx:111-118 | Each policy's preview route leads back to that policy |
| AdminPolicies.PreviewRoutesDistinct | src/admin/components/AdminPolicies.tsx:111-118 | The three policies have three different preview routes, and each route leads back to its policy |
| AdminPolicies.StatsOf | src/admin/components/AdminPolicies.tsx:228-240 | Words = spaces + 1, characters = length, lines = line breaks + 1 |
| AdminPolicies.StatsBounds | src/admin/components/AdminPolicies.tsx:228-240 | Empty content counts 1 word, 0 characters and 1 line; words and lines each lie between 1 and length + 1 |
| AdminPolicies.WordsRebuildContent | src/admin/components/AdminPolicies.tsx:228 | The space-separated pieces, joined with spaces, give back the content |
| AdminPolicies.Policies.Set | src/admin/components/AdminPolicies.tsx:95-97 | Replacing one key's record leaves the other two keys alone |
| AdminPolicies.PolicyEditor.constructor | src/admin/components/AdminPolicies.tsx:7-86 | Three policies with their fixed titles, texts and the same time stamp; the privacy tab is open |
| AdminPolicies.PolicyEditor.HandleContentChange | src/admin/components/AdminPolicies.tsx:94-103 | The named policy gets the new content and time and keeps its title; the other policies are untouched |
| AdminPolicies.PolicyEditor.SetActiveTab | src/admin/components/AdminPolicies.tsx:7 | Only the open tab changes |
| AdminPolicies.PolicyEditor.ActiveStats | src/admin/components/AdminPolicies.tsx:228-240 | The statistics of the open tab's text |
| ProductFilters.HandlePriceChange | src/components/ProductFilters.tsx:31-40 | Only the chosen bound changes, to `parseInt(value)` or 0 when that is NaN; the other bound, the sort order and the stock switch are kept |
| ProductFilters.HandleSortChange | src/components/ProductFilters.tsx:42-44 | Only the sort order changes |
| ProductFilters.HandleStockChange | src/components/ProductFilters.tsx:46-48 | Only the in-stock switch changes |
| ProductFilters.NonNumericPriceIsZero | src/components/ProductFilters.tsx:32 | Text with no leading sign or digit after whitespace sets the bound to 0 |
| ProductFilters.EmptyPriceIsZero | src/components/ProductFilters.tsx:32 | An empty box sets the bound to 0 |
| ProductFilters.TypedNumberIsRead | src/components/ProductFilters.tsx:32 | A decimal number, with or without a minus sign, sets the bound to that number |
| ProductFilters.BoundsNotReordered | src/components/ProductFilters.tsx:31-40 | A minimum above the maximum is stored as typed |
| ProductFilters.HandlersCommute | src/components/ProductFilters.tsx:31-48 | The three handlers touch disjoint fields, so any two commute |
| ChatBot.ShownQuickReplies | src/components/ChatBot.tsx:165 | Three buttons are shown, the first three quick replies, offering ordering, delivery and tracking, and each has its own reply rather than the default |
| ChatBot.BotResponse | src/components/ChatBot.tsx:40-58 | An action gets a reply other than the default exactly when it is one of `order`, `delivery`, `track`, `product`, `support` |
| ChatBot.BotResponseSpec | src/components/ChatBot.tsx:18-24 | An action gets a reply other than the default exactly when it is one of the five quick-reply actions, and different actions get different replies |
| ChatBot.BlankIffTrimmedEmpty | src/components/ChatBot.tsx:73 | `!input.trim()` holds exactly when the input is all whitespace |
| ChatBot.ChatWindow.constructor | src/components/ChatBot.tsx:7-16 | The log is the single greeting with id "1", the window is closed, and the input is empty |
| ChatBot.ChatWindow.SetInput | src/components/ChatBot.tsx:181 | Typing changes only the input |
| ChatBot.ChatWindow.Open | src/components/ChatBot.tsx:102 | Opens the window and keeps the log |
| ChatBot.ChatWindow.Close | src/components/ChatBot.tsx:134 | Closes the window and keeps the log |
| ChatBot.ChatWindow.HandleSendMessage | src/components/ChatBot.tsx:72-96 | Blank input changes nothing. Otherwise exactly one customer message is appended with the untrimmed input and id = clock, the input is cleared, and the standard reply is scheduled. The greeting stays first, and customer messages + 1 = bot messages + pending replies |
| ChatBot.ChatWindow.HandleQuickReply | src/components/ChatBot.tsx:26-70 | Appends one customer message whose text is the button label, and schedules the action's reply |
| ChatBot.ChatWindow.DeliverReply | src/components/ChatBot.tsx:39-68 | A timer firing appends one bot message with id = clock + 1 and the oldest scheduled text; the log is only ever appended to |
| Text.NatToString | src/components/Checkout.tsx:58 | `Number.toString` of a whole number: at least one character, all decimal digits, and a leading 0 only for zero |
| Text.ParseInt | src/components/ProductFilters.tsx:32 | `parseInt` is NaN exactly when no digit follows the whitespace and sign (for a `0x` prefix, no hexadecimal digit follows it); a negative result comes only from a leading `-` |
| Text.ParseIntOrZero | src/components/ProductFilters.tsx:32 | `parseInt(value) \|\| 0`: 0 when nothing parses, otherwise the parsed number |
| Text.Split | src/admin/components/AdminPolicies.tsx:228 | `split(sep)` always returns at least one piece |
| Text.ParseIntOfNatToString | src/components/ProductFilters.tsx:32 | `parseInt` reads back a decimal numeral printed by `toString`, with or without a minus sign |
| Text.JoinSplit | src/admin/components/AdminPolicies.tsx:228 | `split(sep)` followed by `join(sep)` gives back the string |
| Text.SplitCount | src/admin/components/AdminPolicies.tsx:228-240 | `split(sep)` yields one more piece than there are separators |
| Text.SuffixDigitsValue | src/components/Checkout.tsx:58 | The last k digits of a number's decimal form spell the number modulo 10^k |
| Seqs.Filter | src/admin/components/AdminOrders.tsx:46-54 | `filter` keeps exactly the satisfying elements, nothing else |
| Seqs.FilterIsSubsequence | src/admin/components/AdminOrders.tsx:46-54 | `filter` returns an order-preserving subsequence |
| Seqs.SumPartition | src/admin/components/AdminDashboard.tsx:34-37 | A `reduce` sum splits into the sums over the elements that satisfy a condition and those that do not |
| Sorting.SortDesc | src/admin/components/AdminOrders.tsx:37-39 | Sorting by a key, descending, gives a permutation in non-increasing key order |

## Left out

- Supabase I/O: the promo lookup query, `incrementUsage`, `getAll`, `update`,
  `delete`, and the products, orders and analytics services. The lookup result
  and the fetched lists are parameters.
- The race between `validate` and `incrementUsage`: it is concurrency at the
  storage layer, and the model is sequential.
- Browser storage: the stored `orders` list is an `OrderStore` object. JSON
  encoding, a corrupt or missing entry, and the policies save are not modelled.
- Clocks, `uuidv4` and ISO date strings: `now` and ids are parameters and times
  are integers. `toDateString` becomes the `dayOf` parameter.
- Date formatting (`toISOString`, `toLocaleDateString`) and currency
  formatting: these are presentation.
- Timers: `setTimeout` callbacks are the explicit `ChatWindow.DeliverReply`
  step. The one-second delay is not modelled.
- Rendering, toasts, animation, `window.open` and the static pages. Navigation
  after checkout is a `route` field.
- Floating point: percentages and averages are exact `real`s. JavaScript doubles
  and their rounding are not modelled.
- Text.Lower and Text.Upper: only ASCII letters change case. JavaScript maps
  all of Unicode. This matters to slugs only for characters such as `İ` or the
  Kelvin sign, which lower-case to ASCII letters.
- String length: `Text` counts Unicode characters, while JavaScript counts UTF-16
  code units, so characters beyond the Basic Multilingual Plane count once
  here and twice there.
- Sorting.SortDesc: stability is not stated, because `Array.prototype.sort` is
  stable but the screens do not rely on the order of equal timestamps.
- AdminProducts.ProductEditor.HandleImageChange: requires an index inside the
  list, because the screen only passes indices of rendered fields. Writing past
  the end, which JavaScript pads with holes, is not modelled.
- AdminPolicies.PolicyEditor.HandleContentChange: takes one of the three policy
  kinds. An unknown key string, which JavaScript would add as a fourth entry
  without a title, is not modelled.
- Promo codes: `valid_to` is an optional integer time. An empty date string,
  which is falsy in JavaScript, is represented by its absence.
- Checkout: the two clock readings (the number and `created_at`) are one `now`.
  The e-mail and special instructions are collected but not stored, as in the
  source.
- Customers: the e-mail field, the WhatsApp link, and the `orders` prop of the
  customers and dashboard screens beyond the stored list.
- AdminSettings, AdminLogin, routing, the wishlist and product hooks, and the
  sample product data: these are glue or configuration.

## Findings

| source | as written | input that shows it | evidently intended | confidence | as-written member | corrected member |
|---|---|---|---|---|---|---|
| src/admin/components/AdminCustomers.tsx:134 | "Avg. Order Value" is total revenue divided by max(number of customers, 1) | one customer (phone 0771234567) with two orders of 1000 and 3000: shows 4000 | revenue divided by the number of orders, as the analytics screen computes it | medium, not executed | AdminCustomers.AveragePerCustomerIsNotPerOrder | AdminAnalytics.AverageOrderValue |
| src/admin/components/AdminDashboard.tsx:173 | "Showing last 10 orders" renders `orders.slice(0, 10)` of the stored list, which checkout appends to, so a new order lands last (until a status update writes the list back newest first) | eleven orders placed at times 1..11: the order placed at 11 is not shown | the ten newest orders | medium, not executed | AdminDashboard.FirstTenMissesNewest | AdminDashboard.RecentOrders |

The screen classes compute both figures as the code does:
`AdminCustomers.CustomersPage.AverageOrderValue` divides by the customer count
and `AdminDashboard.DashboardPage.Recent` takes the first ten stored orders. The
corrected members stand beside them.
