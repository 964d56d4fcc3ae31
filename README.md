# Admin panel order, product and booking logic in Dafny

This project models the computational core of a gym-and-supplement shop's admin panel.
The panel is a React single-page application; this model covers what it computes, not what it renders.

- **Order money** (`src/pages/Orders.jsx`):
  - the per-unit discounted price, `Math.round(price - price*discount/100)`;
  - the order total, rounded per unit and then multiplied by quantity;
  - the price printed on an order card.
- **Payment classification** (`getPaymentStatus`): a four-way classification, refunded, cancelled, paid or pending, in priority order.
- **Sales analytics** (`calculateAnalytics`):
  - the status buckets and their totals, for all orders and for the month/date window;
  - the twelve-bar monthly chart and its scale;
  - the last-seven-days strip;
  - the label naming the current filter.
- **Order list**:
  - the newest-first sort;
  - the free-text search, the status and date filters, and the exclusion of failed Razorpay checkouts;
  - the loop that collects product ids without repeats.
- **Orders page state**: the handlers that set the month, year, date, search and status filter, and the analytics effect, which only runs while there is at least one order.
- **Product list** (`src/pages/List.jsx`):
  - the discount clamp and the displayed price;
  - the product search;
  - the edit form's ten image slots and the per-slot change and remove handlers;
  - the multipart fields sent for the slots;
  - the by-id update of the local list;
  - the slot a variant's image preview looks at.
- **Booking list** (`src/pages/Bookings.jsx`):
  - the gym, facility and search filter, and the "showing n of m" figures;
  - the per-option counts of the two drop-downs;
  - the hundred branch names.

Amounts are unbounded integers. A calendar date is abstracted to a timestamp (for sorting) plus its local year, month (0 to 11) and a day ordinal. The current day is a parameter.

Several behaviours are kept exactly as the code has them, and the lemmas named here exhibit them:

- Analytics count an order as paid only when it is Delivered. A confirmed Razorpay order that is not yet delivered is therefore "paid" to `getPaymentStatus` but "pending" to the analytics (`Analytics.AnalyticsPaidDiffersFromPaymentStatus`).
- Analytics do not exclude failed Razorpay checkouts, while the order list does (`Analytics.FailedCheckoutStillCounted`, `Listing.ListingDropsWhatAnalyticsCounts`).
- The month and date filters of the analytics are applied one after the other. The list's own date input does not clear the month, so both can restrict the figures while the label names only the month (`Analytics.MonthAndDateStack`, `OrdersPage.OrdersPage.PickListDate`).
- The analytics effect does nothing when the order list is empty, so figures from an earlier fetch stay on screen (`OrdersPage.StaleAnalyticsAfterEmptyFetch`).
- The order search tests the term for blankness after trimming, but matches it untrimmed. The product search only tests for the empty string. The booking search matches the phone case-sensitively.
- The product row shows a discounted price only for a positive discount. The order card applies any non-zero discount. The two disagree on a negative discount (`Products.NegativeDiscountShownAsListPrice`).

The modules are:

| file | module |
|---|---|
| `seqs.dfy` | `Seqs` |
| `text.dfy` | `Text` |
| `order_model.dfy` | `OrderModel` |
| `pricing.dfy` | `Pricing` |
| `analytics.dfy` | `Analytics` |
| `listing.dfy` | `Listing` |
| `orders_page.dfy` | `OrdersPage` |
| `products.dfy` | `Products` |
| `bookings.dfy` | `Bookings` |

- `Seqs`: `Array.prototype.filter` and the subsequence relation.
- `Text`: lower-casing, `includes`, `trim` blankness, decimal rendering.
- `OrderModel`: the order records and `getPaymentStatus`.

The other modules follow the page they model.

## Model

| member | source | states |
|---|---|---|
| OrderModel.PaymentStatus | src/pages/Orders.jsx:92-100 | The nested conditional equals a priority table: refund, then cancellation, then delivery, then a confirmed Razorpay capture; otherwise pending |
| OrderModel.CancellationOutranksPayment | src/pages/Orders.jsx:93-94 | 'Cancel and Refund' is always refunded and 'Cancelled' always cancelled, whatever the payment flags |
| OrderModel.PaidOnlyWhenSettled | src/pages/Orders.jsx:95-96 | Paid if and only if delivered, or a confirmed Razorpay order that is not cancelled; an unconfirmed, undelivered Razorpay order is never paid |
| Pricing.UnitPrice | src/pages/Orders.jsx:85 | The result is the integer within half a unit of price·(100−discount)/100, ties upward, which is what `Math.round` returns |
| Pricing.UnitPriceUnique | src/pages/Orders.jsx:85 | Any integer meeting the rounding condition is the unit price, so the closed form is the only answer |
| Pricing.UnitPriceBounds | src/pages/Orders.jsx:84-85 | For price ≥ 0 and a discount in [0, 100] the unit price lies in [0, price]; a zero discount gives the price |
| Pricing.UnitPriceAntitone | src/pages/Orders.jsx:85 | A larger discount never gives a higher unit price |
| Pricing.NoDiscountIsListPrice | src/pages/Orders.jsx:84 | A missing or zero discount (`item.discount \|\| 0`) leaves the list price |
| Pricing.DisplayedUnitPrice | src/pages/Orders.jsx:828-830 | The per-unit price printed on the order card is the price the total charges for that line |
| Pricing.CalculateDiscountedAmount | src/pages/Orders.jsx:80-89 | The accumulating loop returns the sum over lines of rounded unit price × quantity (0 for no lines) |
| Pricing.OrderTotalAppend | src/pages/Orders.jsx:80-89 | Totals of concatenated item lists add up |
| Pricing.OrderTotalBounds | src/pages/Orders.jsx:80-89 | For well-formed lines the total lies between 0 and the undiscounted total |
| Pricing.RoundingIsPerUnit | src/pages/Orders.jsx:85-86 | Rounding happens per unit before multiplying: two units at price 1 and 50% cost 2, not the exact 1 |
| Pricing.DeliveredExampleTotal | src/pages/Orders.jsx:80-89 | Price 1000 at 10% costs 900 per unit, 1800 for two |
| Pricing.CancelledExampleTotal | src/pages/Orders.jsx:80-89 | Lines (500, 0%, 1) and (300, 50%, 3) total 950 |
| Analytics.MonthOrders | src/pages/Orders.jsx:107-113 | The month filter keeps, in order, exactly the orders of that month and year |
| Analytics.DayOrders | src/pages/Orders.jsx:116-120 | The date filter keeps, in order, exactly the orders of that calendar day |
| Analytics.WindowedSpec | src/pages/Orders.jsx:104-120 | The window is an order-preserving subsequence holding exactly the orders that pass the month filter (when set) and the date filter (when set) |
| Analytics.ChartScale | src/pages/Orders.jsx:166-201 | The chart scale is at least 1, at least every bar's sales, and is 1 or some bar's sales |
| Analytics.MonthlyChart | src/pages/Orders.jsx:163-202 | The monthly loop builds the twelve-bar series and its running maximum equals the chart scale |
| Analytics.LastSevenDays | src/pages/Orders.jsx:205-230 | The loop over offsets 6 down to 0 builds the seven-day series, oldest first |
| Analytics.CalculateAnalytics | src/pages/Orders.jsx:103-297 | The computation stores exactly the analytics the specification function defines for the orders, selection and current day |
| Analytics.BucketCounts | src/pages/Orders.jsx:134-149 | Delivered, pending, cancelled and refunded counts sum to the set size; active = delivered + pending; cancelled-or-refunded = cancelled + refunded |
| Analytics.BucketAmounts | src/pages/Orders.jsx:152-160 | The four buckets' amounts add up to the set's total |
| Analytics.AnalyticsAddsUp | src/pages/Orders.jsx:232-285 | The stored counts partition all orders and the window; totalAllActive = totalAllPaid + totalAllPending; the window's four amounts add up to its total |
| Analytics.AllTimeIgnoresSelection | src/pages/Orders.jsx:122-154 | The all-time totals and counts depend only on the orders, not on month, year, date or day |
| Analytics.EmptyMonthWindow | src/pages/Orders.jsx:107-113 | A selected month with no orders gives zero for every windowed figure |
| Analytics.MonthlyChartShape | src/pages/Orders.jsx:163-202 | Twelve bars, Jan to Dec; each bar's active plus cancelled counts equal that month's order count; the scale is ≥ 1 and ≥ every bar |
| Analytics.MonthWindowMatchesBar | src/pages/Orders.jsx:170-190 | With one month selected and no date, the window's sales, active count and cancelled-plus-refunded count equal that month's bar |
| Analytics.DateWindowMatchesDay | src/pages/Orders.jsx:211-223 | With only a date selected, the window's delivered sales and count equal that day's tile |
| Analytics.WeekSeriesShape | src/pages/Orders.jsx:205-230 | Seven tiles for today−6 through today; each counts that day's Delivered orders |
| Analytics.MonthAndDateStack | src/pages/Orders.jsx:293-295 | With month and date both set, the label names only the month while the figures keep only orders of that month and that day |
| Analytics.AnalyticsPaidDiffersFromPaymentStatus | src/pages/Orders.jsx:134 | Every Delivered order is paid to `getPaymentStatus`, but a confirmed, shipped Razorpay order counts as pending in the analytics |
| Analytics.FailedCheckoutStillCounted | src/pages/Orders.jsx:122-134 | An unconfirmed Razorpay order marked Delivered counts toward the analytics' paid count and sales |
| Listing.SortNewestFirst | src/pages/Orders.jsx:443 | The sorted list is a permutation of the orders and is ordered by non-increasing timestamp |
| Listing.InsertSorted | src/pages/Orders.jsx:443 | Inserting into a newest-first list keeps it newest first |
| Listing.SearchOrders | src/pages/Orders.jsx:446-461 | A blank term returns the input; otherwise an order-preserving subsequence holding exactly the orders whose id, names, email, item names or status contain the lower-cased term, or whose phone contains the raw term |
| Listing.ListedOrders | src/pages/Orders.jsx:463-473 | Keeps, in order, exactly the orders that are not failed checkouts, match the status filter and match the date; keeps everything when all pass |
| Listing.ListOrders | src/pages/Orders.jsx:463-473 | The list is an order-preserving subsequence of the newest-first sort, hence newest first and no longer than the orders, and holds an order if and only if it passes the search and the per-order test |
| Listing.FailedCheckoutNeverListed | src/pages/Orders.jsx:467-470 | An unconfirmed Razorpay order is never listed, whatever the filters |
| Listing.UnfilteredListingIsSorted | src/pages/Orders.jsx:443-473 | With a blank search, all statuses, no date and no failed checkout, the list is every order, newest first |
| Listing.ListingDropsWhatAnalyticsCounts | src/pages/Orders.jsx:467-469 | The failed checkout that analytics count as a sale of 100 is absent from the list |
| Listing.CollectProductIds | src/pages/Orders.jsx:33-40 | The nested loop returns the first occurrence of each present line id, in order of appearance |
| Listing.FirstOccurrencesSpec | src/pages/Orders.jsx:36-37 | The `includes` check leaves no duplicates and drops no value |
| Listing.ProductIdsSpec | src/pages/Orders.jsx:33-40 | The collected ids are distinct, and an id is collected if and only if some line of some order carries it (non-empty) |
| Listing.OrderLineIdsSpec | src/pages/Orders.jsx:34-36 | An id is among the orders' line ids if and only if some line of some order carries it |
| Listing.LineIdsSpec | src/pages/Orders.jsx:35-36 | An id is among one order's line ids if and only if one of its lines carries it |
| OrdersPage.OrdersPage.constructor | src/pages/Orders.jsx:7-15 | Initial state: no orders, status 'All', no date, all months, the current year, empty search, no analytics |
| OrdersPage.OrdersPage.AnalyticsEffect | src/pages/Orders.jsx:436-440 | With at least one order the stored analytics are recomputed for the current selection; with none they are left as they were |
| OrdersPage.OrdersPage.LoadOrders | src/pages/Orders.jsx:29-43 | A fetch replaces the orders, returns the de-duplicated product ids and leaves fresh analytics (or the old ones for no orders) |
| OrdersPage.OrdersPage.SelectMonth | src/pages/Orders.jsx:528-531 | Choosing a month clears the date and refreshes the analytics |
| OrdersPage.OrdersPage.SelectYear | src/pages/Orders.jsx:540-543 | The year changes alone and the analytics are refreshed |
| OrdersPage.OrdersPage.PickAnalyticsDate | src/pages/Orders.jsx:559-562 | Picking a date in the analytics panel clears the month |
| OrdersPage.OrdersPage.PickListDate | src/pages/Orders.jsx:769-773 | The list's date input sets the date and leaves the month as it was |
| OrdersPage.OrdersPage.SetSearchTerm | src/pages/Orders.jsx:749 | The search term changes; analytics untouched |
| OrdersPage.OrdersPage.SetStatusFilter | src/pages/Orders.jsx:756 | The status filter changes; analytics untouched |
| OrdersPage.OrdersPage.ClearFilters | src/pages/Orders.jsx:495-501 | All months, current year, no date, status 'All', empty search; the list shown is then the unfiltered list |
| OrdersPage.ClearedListing | src/pages/Orders.jsx:463-473 | With filters cleared, an order is listed if and only if it is not a failed checkout |
| OrdersPage.StaleAnalyticsAfterEmptyFetch | src/pages/Orders.jsx:436-440 | After a fetch with one order and then a fetch with none, the analytics still show the one order |
| Products.ClampDiscount | src/pages/List.jsx:375 | The stored discount is always in [0, 100]; empty input gives 0, in-range input is kept, out-of-range input is clamped to the nearer end |
| Products.DisplayPriceIsUnitPrice | src/pages/List.jsx:234-243 | For an absent or non-negative discount the shown price equals the unit price orders charge, and lies in [0, price] for a well-formed product |
| Products.NegativeDiscountShownAsListPrice | src/pages/List.jsx:234 | A discount of −10 on 100 is shown as 100 in the product row while the order formula gives 110 |
| Products.ProductSearch | src/pages/List.jsx:53-64 | An empty query shows the whole list; otherwise an order-preserving subsequence holding exactly the products whose name, category or sub-category contains the query, case-insensitively |
| Products.EditSlots | src/pages/List.jsx:89-100 | Exactly ten slots; slot i is filled if and only if the product has a non-empty i-th image, and then holds that URL with no file |
| Products.ImageFields | src/pages/List.jsx:126-134 | The `forEach` appends, slot by slot, the field each slot contributes |
| Products.FieldNamesDistinct | src/pages/List.jsx:129-132 | `image{n}` and `removeImage{m}` never coincide, and each kind is injective in the slot number |
| Products.ImageFieldsOrigin | src/pages/List.jsx:126-134 | Every field comes from a slot, and every contributing slot's field is sent |
| Products.ImageFieldsSpec | src/pages/List.jsx:126-134 | Slot k is sent as `image{k+1}` if and only if it holds a chosen file, and as `removeImage{k+1}` if and only if it is empty; a slot keeping its saved image sends nothing |
| Products.ImageFieldsUnique | src/pages/List.jsx:126-134 | At most one field per slot, and no field name repeats |
| Products.FieldSlot | src/pages/List.jsx:126-134 | A named field of the request identifies the slot that produced it |
| Products.UnchangedEditSendsOnlyRemovals | src/pages/List.jsx:89-134 | Saving a freshly opened editor uploads nothing and clears exactly the slots the product has no image for |
| Products.PreviewSlotOf | src/pages/List.jsx:425 | Unset index gives slot 0, a parsed n gives max(0, n−1), an unreadable index finds no slot |
| Products.PlaceholderChoicesSelectOwnSlot | src/pages/List.jsx:407-425 | The placeholder choices 1 to 10 select slots 0 to 9 |
| Products.Edited | src/pages/List.jsx:146-160 | The edited product keeps its id |
| Products.UpdateById | src/pages/List.jsx:144-164 | Same length and ids; products with the edited id become their edited version, all others are unchanged |
| Products.UpdateByIdIdempotent | src/pages/List.jsx:144-164 | Applying the same accepted edit twice equals applying it once |
| Products.UpdateUnknownIdIsIdentity | src/pages/List.jsx:144-164 | An id no product carries leaves the list unchanged |
| Products.ProductEditor.constructor | src/pages/List.jsx:8-23 | The empty form has ten empty slots and no selected product |
| Products.ProductEditor.SetList | src/pages/List.jsx:38-39 | The fetched products become the list; the form is untouched |
| Products.ProductEditor.EditClick | src/pages/List.jsx:78-106 | The form is loaded from the product, a missing discount as 0, and the slots built from its images |
| Products.ProductEditor.SetDiscount | src/pages/List.jsx:374-377 | The stored discount is the clamped input, in [0, 100] |
| Products.ProductEditor.ChangeImage | src/pages/List.jsx:176-182 | Keeps the ten slots; only slot idx changes, to the chosen file and its URL |
| Products.ProductEditor.RemoveImage | src/pages/List.jsx:184-190 | Keeps the ten slots; only slot idx changes, to empty |
| Products.ProductEditor.UpdateRequest | src/pages/List.jsx:125-134 | The image part of the request is the slot-by-slot field list of the current slots |
| Products.ProductEditor.ApplyUpdate | src/pages/List.jsx:143-164 | The list becomes its by-id update with the form's values; the form is untouched |
| Products.ChangedSlotIsUploaded | src/pages/List.jsx:176-182 | After changing slot idx, saving uploads it and does not clear it; other slots send what they sent before |
| Products.RemovedSlotIsCleared | src/pages/List.jsx:184-190 | After removing slot idx, saving asks to clear it and uploads nothing for it |
| Bookings.Filtered | src/pages/Bookings.jsx:55-68 | An order-preserving subsequence holding exactly the bookings that match the gym, the facility and the search |
| Bookings.ClearedFilters | src/pages/Bookings.jsx:70-74 | Clearing gives 'All', 'All' and an empty search |
| Bookings.ClearedShowsAll | src/pages/Bookings.jsx:55-74 | With the filters cleared every booking is shown, in order |
| Bookings.FilterStats | src/pages/Bookings.jsx:76-80 | total is the number of bookings, filtered the number shown, and filtered ≤ total |
| Bookings.ShownMatchChoice | src/pages/Bookings.jsx:57-58 | Every shown booking is at the chosen gym and for the chosen facility when those are not 'All' |
| Bookings.PhoneSearchIsCaseSensitive | src/pages/Bookings.jsx:59-65 | With phone "12ab", searching "ab" finds the booking and "AB" does not |
| Bookings.Gyms | src/pages/Bookings.jsx:24 | One hundred branches, the i-th named "Forever Fitness Branch #" followed by i+1 |
| Bookings.GymsRange | src/pages/Bookings.jsx:24 | The branches run from "#1" to "#100" |
| Bookings.GymsDistinct | src/pages/Bookings.jsx:24 | No two branches share a name |
| Bookings.GymCount | src/pages/Bookings.jsx:118 | A gym's count is positive if and only if some booking is at that gym |
| Bookings.FacilityCount | src/pages/Bookings.jsx:133 | A facility's count is positive if and only if some booking is for that facility |
| Bookings.OptionsOf | src/pages/Bookings.jsx:117-120 | The options are values of the list with their positive counts, in the list's order, and every value with a positive count is offered |
| Bookings.GymOptions | src/pages/Bookings.jsx:117-120 | The options follow branch order, and a branch is offered if and only if its count is positive |
| Bookings.FacilityOptions | src/pages/Bookings.jsx:132-135 | The options follow the facility list's order, and a facility is offered if and only if its count is positive |
| Bookings.GymOptionSpec | src/pages/Bookings.jsx:117-120 | A branch is offered if and only if some booking is at it, and its count equals the rows shown once it is chosen |
| Bookings.FacilityOptionSpec | src/pages/Bookings.jsx:132-135 | A facility is offered if and only if some booking is for it, and its count equals the rows shown once it is chosen |

## Left out

- HTTP calls and notifications: every `axios` request, `toast`, and the per-product image fetch loop in `fetchProductImages`. The fetched data is a parameter (`LoadOrders`, `SetList`).
- `statusHandler`, `saveNotes`, `saveTrackingUrl`, `cancelOrder`, `removeProduct` and the notes and tracking modals: they only forward to the server and re-fetch.
- `getProductImage`, and rendering in general: JSX, CSS, modals, the chart bar heights in percent and the "k" amount formatting, which use floating point.
- Real dates: `new Date`, `getMonth`, `getFullYear`, `toLocaleDateString('en-CA' / 'en-IN')`, `setDate` and time zones. Each order carries an abstract timestamp, local year, month and day ordinal; the current day is a parameter; a day tile's displayed date is its day ordinal.
- Floating point: prices, discounts and quantities are integers. A fractional price or discount, and `Math.round` on a non-integer product, are not modelled.
- `Text.Lower`: maps only ASCII A-Z; `toLowerCase` on other letters is not modelled.
- `Text.IsBlank`: `trim` removes the white space and line terminators listed there.
- Strings are sequences of Unicode scalar values. JavaScript's UTF-16 view of them is not modelled: lone surrogates, a search term that matches half of a surrogate pair, and the `length` of characters outside the Basic Multilingual Plane.
- Listing.SortNewestFirst: states that the result is newest first and a permutation; that equal timestamps keep their input order (as the stable `Array.prototype.sort` does, and as the insertion order here does) is not proved.
- Analytics.CalculateAnalytics: the source stores several fields twice (`totalFilteredOrders`, `totalFilteredPaid`, …, and `paymentBreakdown`) with the same values; the model stores each value once.
- The `currentFilter` label is a datatype (month name and year, date, all time) rather than the formatted string.
- `FormData` and `URL.createObjectURL`: a request is a sequence of named fields and only the image fields are modelled; the plain fields (`id`, `name`, …, `variantGroups`, `manufacturerDetails`, `manufacturerLabel`) appended before them are not. An object URL is a parameter.
- The edit form's name, description, category, sub-category, price, manufacturer and variant-group inputs, and the variant-group editor handlers, which copy the group array shallowly and mutate the shared groups; only the variant preview's slot index is modelled, not which image it then shows.
- Products.Edited: the `variantGroups` carried over from the form or the old product is not modelled.
- The React effect that mirrors the product search into `filteredList`: the search is the pure function `ProductSearch`.
- Booking date formatting and the booking page's loading flag.
- `src/App.jsx` token decoding and routing, the login, add-product, banner, media, branch and settings pages, the navigation components and the build configuration: none of them computes anything beyond forms and requests.
