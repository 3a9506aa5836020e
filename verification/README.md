# Food-ordering app: a Dafny model of its ordering and payment core

This project models the core of a Next.js food-ordering application. It covers
the shopping-cart reducer, card validation, the three mock payment processors
and the payment service that selects between them, the order service, and the
four repositories. The repositories are modelled as stores of rows, with the
`$n` placeholder arithmetic of their SQL statements written out. The model
also covers the validation cascades of the two order API routes and the
helpers of the dashboard, order-history and checkout pages.

Everything is pure functions over immutable datatypes:

- money is `real`;
- timestamps are integer milliseconds;
- a JSON request body is a small `Json` datatype read with JavaScript truthiness;
- a PostgreSQL table is a `seq` of rows kept in insertion order.

The current time, generated ids and transaction ids, and `Math.random()` are
parameters. A random draw is a real in `[0, 1)` that is floored exactly as
the source floors it.

Modules, one per source component:

- `Common`: Option/Result and a generic `Filter`.
- `JsString`: JavaScript whitespace, `trim`, `parseInt` and UTF-16 length.
- `Ordering`: `ORDER BY` sort keys and a verified insertion sort.
- `Sql`: the placeholder-numbered `UPDATE` builder and what executing a statement does.
- `Table`: a generic `SELECT … WHERE … ORDER BY` and `DELETE`.
- `Orders`, `Catalog`: the record types.
- `CartState`, `CardValidation`, `Processors`, `PaymentService`.
- `OrderRepository`, `OrderItemRepository`, `MenuItemRepository`, `RestaurantRepository`.
- `OrderService`, `Routes`, `Dashboard`, `OrderHistory`, `Checkout`.

Where the code and its design description disagree, the model follows the code:

- `OrderService.UpdateOrderStatus` accepts any valid status from any status. The transition table is declared but never consulted; `OrderService.AnyTransitionAccepted` states this.
- The average order value divides by zero when every order is cancelled, which gives JavaScript `NaN`. `OrderService.AverageOf` models that as a `NaN` value.
- `PaymentService.validateCardDetails` answers `false` when the default provider is not registered. The constructor accepts any default.
- A cart whose restaurant id is the empty string is falsy in the reducer's `&&` test. `CartState.EmptyRestaurantIdBreaksInvariant` shows that such a cart can end up holding items from two restaurants.
- The order repository's `updateStatus` writes a malformed statement for delivered orders (see Findings). The service and everything above it use the corrected statement.

## Model

| member | source | states |
|---|---|---|
| CardValidation.Validate | src/services/payment/PaymentProcessor.ts:7-46 | an accepted card has a 13-19 digit number once spaces are removed, a 3-4 digit CVV and a non-blank name |
| CardValidation.ValidateIffEveryCheck | src/services/payment/PaymentProcessor.ts:7-46 | a card is accepted exactly when all five fields are non-empty and number, month, year, CVV and name each pass their own test |
| CardValidation.ValidateIgnoresNumberDigits | src/services/payment/PaymentProcessor.ts:17-20 | once the number has a valid shape, its actual digits do not affect validation (no Luhn check) |
| CardValidation.ExpiryYearIsNumber | src/services/payment/PaymentProcessor.ts:29-33 | the year read as "20" + the typed text always parses to a number, built from the typed text's leading digits |
| CardValidation.TwoDigitYear | src/services/payment/PaymentProcessor.ts:29-33 | a two-digit year "yy" is read as 2000 + yy |
| CardValidation.ThisYearAnyMonthAccepted | src/services/payment/PaymentProcessor.ts:22-33 | when the typed two-digit year is the current year and every other field is valid, the card passes with any non-empty acceptable month: only the year is compared, never the month |
| CardValidation.NonNumericMonthAccepted | src/services/payment/PaymentProcessor.ts:23-26 | any non-empty month that parses to NaN passes both range comparisons, and the card is then judged exactly as with month "01" |
| CardValidation.MonthThirteenRejected | src/services/payment/PaymentProcessor.ts:23-26 | month 13 is rejected whatever the other fields are |
| CardValidation.PaddedCvvRejected | src/services/payment/PaymentProcessor.ts:36-38 | the CVV is not trimmed: whitespace at its start or end rejects the card, whatever the other fields hold |
| CardValidation.ShortCvvRejected | src/services/payment/PaymentProcessor.ts:36-38 | a two-character CVV is rejected |
| CardValidation.PaddedOneLetterNameRejected | src/services/payment/PaymentProcessor.ts:41-43 | the name is measured after trimming: one character of the Basic Multilingual Plane with any whitespace around it is rejected |
| CardValidation.AstralNameAccepted | src/services/payment/PaymentProcessor.ts:41-43 | length counts UTF-16 code units: one character outside the Basic Multilingual Plane, with any whitespace around it, passes the name check |
| CartState.FindIndex | src/context/CartContext.tsx:52-54 | the index of the first item with the id, or -1 exactly when no item has it |
| CartState.SetQuantity | src/context/CartContext.tsx:102-113 | the quantity update keeps the number of lines |
| CartState.ReducePreservesValid | src/context/CartContext.tsx:36-123 | every action whose restaurant id is non-empty keeps the cart invariant: ids distinct, positive quantities, every item from the cart's restaurant, and an empty cart exactly when there is no restaurant |
| CartState.AddPreservesValid | src/context/CartContext.tsx:38-80 | adding an item under a non-empty restaurant id keeps the cart invariant, whether it replaces the cart, increments a line or appends one |
| CartState.RemovePreservesValid | src/context/CartContext.tsx:82-93 | removing an item keeps the cart invariant, including dropping the restaurant once the last line goes |
| CartState.RunPreservesValid | src/context/CartContext.tsx:36-123 | any sequence of well-formed actions from a valid cart leaves it valid |
| CartState.InitialCartValid | src/context/CartContext.tsx:29-34 | the initial empty cart satisfies the invariant |
| CartState.EmptyRestaurantIdBreaksInvariant | src/context/CartContext.tsx:42-49 | an empty-string restaurant id is falsy, so the next add from another restaurant mixes restaurants |
| CartState.AddFromOtherRestaurant | src/context/CartContext.tsx:42-49 | adding from another restaurant replaces the cart with that one item at quantity 1 |
| CartState.AddExistingItem | src/context/CartContext.tsx:52-70 | adding an item already present raises its quantity by one and changes no other line |
| CartState.AddNewItem | src/context/CartContext.tsx:71-79 | adding a new item appends it at quantity 1 and records the restaurant |
| CartState.RemoveItemEffect | src/context/CartContext.tsx:82-93 | removal drops exactly the lines with that id and clears the restaurant when nothing is left |
| CartState.UpdateToZeroRemoves | src/context/CartContext.tsx:98-100 | setting a quantity to zero or below is the same as removing the item |
| CartState.DecreaseLastItemEmptiesCart | src/context/CartContext.tsx:95-100 | adding one item and setting it to 0 returns to the initial cart |
| CartState.UpdateQuantityEffect | src/context/CartContext.tsx:102-113 | a positive quantity is written to the matching line only; the restaurant is unchanged |
| CartState.ClearGivesInitial | src/context/CartContext.tsx:116-118 | clearing returns the initial cart from any state |
| CartState.TotalUpdate | src/context/CartContext.tsx:164-176 | replacing one line changes the total and the item count by exactly that line's difference |
| CartState.TotalAppend | src/context/CartContext.tsx:164-176 | appending a line adds its price times quantity to the total and its quantity to the count |
| CartState.AddFromOtherRestaurantTotals | src/context/CartContext.tsx:42-49 | after a restaurant switch the count is 1 and the total is the item's price |
| CartState.AddExistingItemTotals | src/context/CartContext.tsx:52-70 | adding an existing item raises the count by 1 and the total by its price |
| CartState.AddNewItemTotals | src/context/CartContext.tsx:71-79 | adding a new item raises the count by 1 and the total by its price |
| CartState.TwoMargheritas | src/context/CartContext.tsx:164-176 | adding the 16.99 Margherita twice gives one line of quantity 2, a count of 2 and a total of 33.98 |
| CartState.AddItemWithWarning | src/context/CartContext.tsx:132-150 | whenever the add goes through, the cart is exactly what the reducer's add gives |
| CartState.AddWithWarningDecision | src/context/CartContext.tsx:132-150 | on a valid cart the warning is raised exactly when a callback exists and the cart belongs to another restaurant, and it passes that restaurant's id; with a callback, an add never loses a line |
| Processors.StripePay | src/services/payment/StripeProcessor.ts:5-52 | an invalid card gives the invalid-card failure before anything else; a success carries the given transaction id |
| Processors.PayPalPay | src/services/payment/PayPalProcessor.ts:5-52 | an invalid card gives the invalid-card failure; a success carries the given transaction id |
| Processors.MockPay | src/services/payment/MockProcessor.ts:5-22 | the mock succeeds exactly on a valid card and otherwise gives the invalid-card failure |
| Processors.Pay | src/services/payment/PaymentService.ts:35-46 | whichever processor is chosen, an invalid card gives the invalid-card failure |
| Processors.StripeDependsOnLastFour | src/services/payment/StripeProcessor.ts:18-51 | for a valid card the Stripe outcome is a table on the last four digits of the space-stripped number |
| Processors.StripeSameSuffixSameOutcome | src/services/payment/StripeProcessor.ts:18-51 | two valid cards with the same last four digits get the same Stripe outcome |
| Processors.StripeFailureCodes | src/services/payment/StripeProcessor.ts:21-45 | on a valid card, 0002 is declined, 0003 has insufficient funds, 0004 is a network error, and any other suffix succeeds |
| Processors.PayPalIgnoresNumber | src/services/payment/PayPalProcessor.ts:18-51 | for a valid card the PayPal outcome does not depend on the card number |
| Processors.PayPalFailureCodes | src/services/payment/PayPalProcessor.ts:18-45 | CVV 001, 002 and 003 give the three PayPal failure codes, and any other CVV succeeds |
| Processors.DeclinedByStripeAcceptedByPayPal | src/services/payment/PayPalProcessor.ts:18-51 | a card Stripe declines for its 0002 suffix is accepted by PayPal when its CVV is not a test CVV |
| Processors.InvalidCardExactlyOnInvalid | src/services/payment/PaymentProcessor.ts:7-46 | for every processor the invalid-card failure occurs exactly when validation fails |
| Processors.ProcessorCodes | src/services/payment/StripeProcessor.ts:5-52 | no processor reports an error code outside its own set; the mock reports only INVALID_CARD |
| Processors.ValidCardCharge | src/services/payment/PaymentService.ts:35-46 | once a card is valid, each processor answers with its own decision: Stripe on the stripped number, PayPal on the CVV, the mock with success |
| Processors.StripeChargeBySuffix | src/services/payment/StripeProcessor.ts:21-51 | the Stripe decision on a number of four or more characters depends only on its last four |
| Processors.StripeChargeCodes | src/services/payment/StripeProcessor.ts:21-51 | the Stripe decision fails only as declined, insufficient funds or a network error |
| Processors.PayPalChargeCodes | src/services/payment/PayPalProcessor.ts:21-51 | the PayPal decision fails only as an expired card, an unavailable service or failed authentication |
| PaymentService.NewService | src/services/payment/PaymentService.ts:11-17 | a new service registers Stripe, PayPal and Mock; the default is Stripe unless one is given |
| PaymentService.Lookup | src/services/payment/PaymentService.ts:24 | a registered processor with that id, or none exactly when no processor has it |
| PaymentService.Selected | src/services/payment/PaymentService.ts:23 | a truthy provider argument wins; an absent or empty one falls back to the default |
| PaymentService.ProcessPayment | src/services/payment/PaymentService.ts:19-55 | an unregistered provider gives UNSUPPORTED_PROVIDER, a throwing processor gives PROCESSING_ERROR, otherwise the processor's own response |
| PaymentService.AvailableProviders | src/services/payment/PaymentService.ts:57-59 | one id per registered processor, each of which looks up |
| PaymentService.SetDefaultProvider | src/services/payment/PaymentService.ts:61-67 | the default changes exactly when the id is registered, and otherwise the error names the id |
| PaymentService.ServiceValidate | src/services/payment/PaymentService.ts:69-73 | validation passes exactly when the default provider is registered and the card is valid |
| PaymentService.RegistryIsFixed | src/services/payment/PaymentService.ts:57-67 | a fresh service lists stripe, paypal and mock in that order, and changing the default leaves that list as it is |
| PaymentService.LookupInFreshService | src/services/payment/PaymentService.ts:11-24 | in a fresh service a lookup succeeds exactly for the three provider ids |
| PaymentService.UnsupportedExactlyWhenUnregistered | src/services/payment/PaymentService.ts:26-32 | UNSUPPORTED_PROVIDER occurs exactly when the selected id is not registered |
| PaymentService.FallsBackToDefault | src/services/payment/PaymentService.ts:23 | no provider and an empty provider both behave as naming the default |
| PaymentService.EmptyDefaultIsUnsupported | src/services/payment/PaymentService.ts:11-32 | a service built with an empty default rejects every provider-less payment as unsupported |
| PaymentService.SetDefaultThenPay | src/services/payment/PaymentService.ts:61-67 | after a successful change of default, a provider-less payment goes to the new processor |
| PaymentService.ServiceValidateIsBaseValidator | src/services/payment/PaymentService.ts:69-73 | with a registered default, the service's validation is the shared card validator |
| Orders.ParseStatus | src/services/OrderService.ts:174-181 | a parsed status has exactly the given name |
| Orders.ParseStatusName | src/services/OrderService.ts:174-178 | each of the seven statuses parses back from its own name |
| Orders.StatusNamesDistinct | src/services/OrderService.ts:174-178 | no two statuses share a name |
| Orders.AllStatusesComplete | src/services/OrderService.ts:226-231 | the list of statuses the statistics initialise covers every status |
| OrderRepository.Create | src/repositories/OrderRepository.ts:234-284 | insertion appends one row holding the new id and every given field (restaurant, customer name, email and phone, address, prices, payment method and transaction id, instructions, estimate) and fails exactly on a duplicate id |
| OrderRepository.CreateKeepsKeysUnique | src/repositories/OrderRepository.ts:234-284 | a successful insert keeps the ids unique and makes the new row findable by its id |
| OrderRepository.FindAll | src/repositories/OrderRepository.ts:6-31 | every order exactly once, newest first |
| OrderRepository.FindByCustomerEmail | src/repositories/OrderRepository.ts:150-176 | exactly the orders with that email, each as often as stored, newest first |
| OrderRepository.FindByRestaurantId | src/repositories/OrderRepository.ts:178-204 | exactly the orders of that restaurant, each as often as stored, newest first |
| OrderRepository.FindByStatus | src/repositories/OrderRepository.ts:206-232 | exactly the orders in that status, each as often as stored, newest first |
| OrderRepository.UpdateStatusQueryAsWritten | src/repositories/OrderRepository.ts:287-299 | the statement as written keeps the id in the last placeholder slot |
| OrderRepository.UpdateStatusQuery | src/repositories/OrderRepository.ts:287-299 | the corrected statement is well formed: each value slot is used exactly once and the id is in the where slot |
| OrderRepository.AsWrittenAgreesOutsideDelivered | src/repositories/OrderRepository.ts:287-299 | the statement as written equals the corrected one except for a delivery with a time |
| OrderRepository.AsWrittenDeliveredIsRejected | src/repositories/OrderRepository.ts:287-299 | for a delivery with a time, the statement as written reuses the id slot, leaves a value unreferenced and is rejected on execution |
| OrderRepository.UpdateStatusAsWritten | src/repositories/OrderRepository.ts:286-322 | running the as-written update for a delivery with a time fails |
| OrderRepository.UpdateStatus | src/repositories/OrderRepository.ts:286-322 | only the row with the id changes, gaining the status and the delivery time if given; the updated row is returned, or nothing when the id is unknown |
| OrderRepository.UpdateEstimatedDeliveryTime | src/repositories/OrderRepository.ts:324-351 | only the row with the id changes, gaining the new estimate; nothing is returned when the id is unknown |
| OrderRepository.Delete | src/repositories/OrderRepository.ts:353-357 | the row with the id is gone, all others stay, and the result is true exactly when it existed |
| OrderRepository.FindWithItems | src/repositories/OrderRepository.ts:60-148 | nothing exactly for an unknown id; otherwise the order, the restaurant row with the order's restaurant id if there is one, and exactly the order's lines, each as often as stored |
| OrderRepository.FindWithItemsPartitionsLines | src/repositories/OrderRepository.ts:107-111 | the line lists of two different orders share no line |
| OrderItemRepository.NewRow | src/repositories/OrderItemRepository.ts:57-64 | a new line stores the ids, quantity and both prices as given |
| OrderItemRepository.Create | src/repositories/OrderItemRepository.ts:39-67 | insertion appends exactly the new line and fails exactly on a duplicate id |
| OrderItemRepository.CreateKeepsInconsistentPrices | src/repositories/OrderItemRepository.ts:57-64 | the total price is stored as given, even when it is not unit price times quantity |
| OrderItemRepository.RowValues | src/repositories/OrderItemRepository.ts:76-79 | each line contributes six values |
| OrderItemRepository.DecodeRowValues | src/repositories/OrderItemRepository.ts:76-79 | the six values of a line decode back to its ids and item data |
| OrderItemRepository.CreateManyStatement | src/repositories/OrderItemRepository.ts:69-99 | line i gets placeholders 6i+1 to 6i+6, and those values are exactly line i's six values |
| OrderItemRepository.TuplesNumberEachSlotOnce | src/repositories/OrderItemRepository.ts:72-81 | every placeholder from 1 to 6n appears in exactly one tuple position, and none outside that range |
| OrderItemRepository.CreateMany | src/repositories/OrderItemRepository.ts:69-99 | no items writes nothing; otherwise the lines are appended in order, line i built from item i and id i |
| OrderItemRepository.CreateManyRowsMatchStatement | src/repositories/OrderItemRepository.ts:69-99 | the row stored for line i is the one its six placeholder values describe |
| OrderItemRepository.FindByOrderId | src/repositories/OrderItemRepository.ts:6-21 | exactly the order's lines, oldest first |
| OrderItemRepository.FindByMenuItemId | src/repositories/OrderItemRepository.ts:131-146 | exactly the lines for that menu item, newest first |
| OrderItemRepository.UpdateQuantity | src/repositories/OrderItemRepository.ts:101-117 | only the line with the id changes, gaining the quantity and total price; nothing is returned when the id is unknown |
| OrderItemRepository.DeleteByOrderId | src/repositories/OrderItemRepository.ts:125-129 | the order's lines are gone, the rest stay, and the result is true exactly when some line was removed |
| OrderItemRepository.TotalQuantity | src/repositories/OrderItemRepository.ts:148-158 | the sum is 0 when no line for the item belongs to an existing order that is not cancelled |
| OrderItemRepository.TotalQuantityAppend | src/repositories/OrderItemRepository.ts:148-158 | the total over two lists of lines is the sum of their totals |
| OrderItemRepository.CancelledLinesDoNotCount | src/repositories/OrderItemRepository.ts:148-158 | a line of a cancelled order adds nothing |
| OrderItemRepository.LiveLineAddsQuantity | src/repositories/OrderItemRepository.ts:148-158 | a line of a live order adds exactly its quantity |
| MenuItemRepository.ApplyMenuFields | src/repositories/MenuItemRepository.ts:115-138 | applying the defined fields in order gives the patched item |
| MenuItemRepository.ApplyPriceOnward | src/repositories/MenuItemRepository.ts:115-138 | the price, image and category entries replace exactly the supplied ones of those three fields |
| MenuItemRepository.MenuDefined | src/repositories/MenuItemRepository.ts:115-138 | the defined fields are the given ones, in column order |
| MenuItemRepository.NoDefinedMenuFields | src/repositories/MenuItemRepository.ts:140-142 | no field is defined exactly when the patch is empty |
| MenuItemRepository.UpdateStatement | src/repositories/MenuItemRepository.ts:110-153 | no statement for an empty patch; otherwise one `SET` per given field numbered from $1, with the id in the next slot |
| MenuItemRepository.FullPatchOrder | src/repositories/MenuItemRepository.ts:115-148 | a full patch sets the six columns in source order at $1 to $6 and the id at $7 |
| MenuItemRepository.Update | src/repositories/MenuItemRepository.ts:110-153 | an empty patch only re-reads the row; otherwise only the row with the id is patched, and the patched row is returned if it exists |
| MenuItemRepository.Search | src/repositories/MenuItemRepository.ts:54-65 | exactly the items whose name, description or category matches the %term% pattern, each as often as stored, sorted by name |
| MenuItemRepository.SearchByRestaurant | src/repositories/MenuItemRepository.ts:67-79 | exactly the restaurant's items whose name, description or category matches the %term% pattern, each as often as stored, sorted by name |
| MenuItemRepository.SearchByRestaurantWithinSearch | src/repositories/MenuItemRepository.ts:54-79 | the restaurant search holds the same items as the general search restricted to the restaurant |
| MenuItemRepository.FindByPriceRange | src/repositories/MenuItemRepository.ts:81-89 | exactly the items priced within the inclusive bounds, by price then name |
| MenuItemRepository.PriceRangeCheapestFirst | src/repositories/MenuItemRepository.ts:81-89 | earlier results are never more expensive |
| MenuItemRepository.DeleteByRestaurantId | src/repositories/MenuItemRepository.ts:161-165 | the restaurant's items are gone, the rest stay, and the count is the number removed |
| MenuItemRepository.DistinctSorted | src/repositories/MenuItemRepository.ts:167-175 | the same values once each, in ascending order |
| MenuItemRepository.GetCategories | src/repositories/MenuItemRepository.ts:167-175 | every category used by some item, once each, ascending |
| MenuItemRepository.GetCategoriesByRestaurant | src/repositories/MenuItemRepository.ts:177-186 | every category used by the restaurant's items, once each, ascending |
| RestaurantRepository.FindAll | src/repositories/RestaurantRepository.ts:6-13 | every restaurant exactly once, best rated first, then by name |
| RestaurantRepository.FindAllOrder | src/repositories/RestaurantRepository.ts:6-13 | ratings never rise along the list, and equal ratings are in name order |
| RestaurantRepository.FindByRatingRange | src/repositories/RestaurantRepository.ts:120-128 | exactly the restaurants rated within the inclusive bounds, best rated first |
| RestaurantRepository.Search | src/repositories/RestaurantRepository.ts:34-48 | exactly the restaurants whose name, cuisine or description matches, or one of whose menu items matches by name or description; without duplicates, best rated first |
| RestaurantRepository.ApplyRestaurantFields | src/repositories/RestaurantRepository.ts:74-97 | applying the defined fields in order gives the patched restaurant |
| RestaurantRepository.ApplyDeliveryTimeOnward | src/repositories/RestaurantRepository.ts:74-97 | the delivery-time, image and description entries replace exactly the supplied ones of those three fields |
| RestaurantRepository.RestaurantDefined | src/repositories/RestaurantRepository.ts:74-97 | the defined fields are the given ones, in column order |
| RestaurantRepository.UpdateStatement | src/repositories/RestaurantRepository.ts:69-112 | no statement for an empty patch; otherwise one `SET` per given field numbered from $1, with the id in the next slot |
| RestaurantRepository.FullPatchOrder | src/repositories/RestaurantRepository.ts:74-107 | a full patch sets the six columns in source order at $1 to $6 and the id at $7 |
| RestaurantRepository.RatingOnlyStatement | src/repositories/RestaurantRepository.ts:74-107 | a rating-only patch sets rating at $1 with the id at $2 |
| RestaurantRepository.Update | src/repositories/RestaurantRepository.ts:69-112 | an empty patch only re-reads the row; otherwise only the row with the id is patched, and the patched row is returned if it exists |
| RestaurantRepository.Delete | src/repositories/RestaurantRepository.ts:114-118 | the row with the id is gone, all others stay, and the result is true exactly when it existed |
| Sql.BuildUpdate | src/repositories/MenuItemRepository.ts:115-148 | no statement without defined fields; otherwise consecutive slots from $1, the id last, and a well-formed statement |
| Sql.ExecUpdate | src/repositories/BaseRepository.ts:16-19 | a statement that is not well formed is rejected; otherwise only rows whose key is the where value change, and the first is returned |
| Sql.BuildUpdateApplies | src/repositories/MenuItemRepository.ts:115-148 | executing the built statement on a row sets exactly the defined fields |
| Sql.ContainsPattern | src/repositories/MenuItemRepository.ts:63 | the pattern wraps the term in one % on each side |
| Sql.ContainsPatternRoundTrip | src/repositories/MenuItemRepository.ts:63 | the term can be read back from its pattern |
| Sql.ContainsPatternInjective | src/repositories/MenuItemRepository.ts:63 | different terms give different patterns |
| Table.Find | src/repositories/BaseRepository.ts:16-19 | the first row with the key, or none exactly when no row has it |
| Table.Select | src/repositories/BaseRepository.ts:21-24 | exactly the rows satisfying the where clause, each as often as stored, in `ORDER BY` order |
| Table.DeleteWhere | src/repositories/OrderItemRepository.ts:125-129 | the matching rows are gone, the rest stay, and the count is the number removed |
| JsString.RemoveSpaces | src/services/payment/StripeProcessor.ts:18 | the result holds exactly the non-whitespace characters of the input, and a text without whitespace is returned unchanged |
| JsString.RemoveSpacesAppend | src/services/payment/StripeProcessor.ts:18 | removal works per character: a concatenation gives the concatenation of the results, and one character is dropped exactly when it is whitespace |
| JsString.Trim | src/services/payment/PaymentProcessor.ts:41-43 | the result is the input without leading and trailing whitespace, and it is empty exactly for an all-whitespace input |
| JsString.TrimAroundOne | src/services/payment/PaymentProcessor.ts:41-43 | trimming whitespace from around one non-whitespace character leaves exactly that character |
| JsString.Utf16Length | src/services/payment/PaymentProcessor.ts:41-43 | between one and two code units per character |
| JsString.Utf16LengthCountsAstral | src/services/payment/PaymentProcessor.ts:41-43 | the length is one code unit per character plus one for each character above U+FFFF |
| JsString.Utf16LengthAppend | src/services/payment/PaymentProcessor.ts:41-43 | lengths add up over concatenation; a single character counts 2 exactly when it is above U+FFFF, else 1 |
| JsString.ParseIntRoundTrip | src/services/payment/PaymentProcessor.ts:23-33 | parseInt reads back a natural number's decimal text |
| JsString.ParseIntIgnoresTail | src/services/payment/PaymentProcessor.ts:23-33 | parseInt stops at the first non-digit |
| JsString.ParseIntNaN | src/services/payment/PaymentProcessor.ts:23-26 | a text starting with a character that is neither space, sign nor digit parses to NaN |
| OrderService.InitialEtaMinutes | src/services/OrderService.ts:125-129 | the first delivery estimate is 30 to 59 minutes ahead |
| OrderService.StatusEtaMinutes | src/services/OrderService.ts:131-153 | the window per status (25-44, 20-34, 10-19, 5-14 minutes), and 0 for the statuses that are not recalculated |
| OrderService.EtaWindowsShrink | src/services/OrderService.ts:131-153 | the out-for-delivery estimate is always shorter than the confirmed one and than the initial one |
| OrderService.CreateOrder | src/services/OrderService.ts:13-21 | a failed header insert writes nothing and reports its error; with no items only the header is written; otherwise the lines follow the header, the result is the header when the line insert succeeds, and a failed line insert leaves the header in place |
| OrderService.CreateOrderNoRollback | src/services/OrderService.ts:13-21 | when the line insert fails, the order header stays stored and the error is reported |
| OrderService.CartLines | src/services/OrderService.ts:55-60 | one order line per cart item: menu item id, quantity, unit price and unit price times quantity |
| OrderService.CartLinesTotal | src/services/OrderService.ts:55-60 | the order lines add up to the cart total |
| OrderService.FromCartData | src/services/OrderService.ts:49-61 | the order takes the cart's restaurant, the customer's name, email, phone and address, the instructions, pricing, payment method and transaction id, the estimate, and the cart's lines |
| OrderService.CreateOrderFromCart | src/services/OrderService.ts:23-64 | a cart with no restaurant or no items is rejected with "Cart is empty or invalid"; otherwise the order is created from the cart with an estimate 30-59 minutes ahead |
| OrderService.FromCartStoresCart | src/services/OrderService.ts:23-64 | a created order has the cart's restaurant, the estimate, the given totals, and lines summing to the cart total |
| OrderService.UpdateOrderStatus | src/services/OrderService.ts:90-102 | with the repository's statement corrected: a status text that is not one of the seven statuses is rejected with "Invalid order status: " and the text; any other is applied as ApplyStatus applies it |
| OrderService.UpdateOrderStatusAsWritten | src/services/OrderService.ts:90-102 | as the program is written: an unknown status is rejected, "delivered" fails with the database's rejection, and every other status behaves as the corrected update |
| OrderService.ApplyStatus | src/services/OrderService.ts:90-102 | with the repository's statement corrected: items and every other order are untouched; the order with the id gains the status, a delivery time exactly for delivered, and a fresh estimate for the recalculated statuses; nothing is returned exactly when the id is unknown |
| OrderService.StatusRows | src/services/OrderService.ts:93-99 | with the repository's statement corrected: the order table keeps its length, rows with another id are unchanged, and rows with the id carry the new status |
| OrderService.AnyTransitionAccepted | src/services/OrderService.ts:159-182 | with the repository's statement corrected, any existing order moves to any status: the transition table is not consulted |
| OrderService.AsWrittenStatusAgrees | src/repositories/OrderRepository.ts:286-322 | for every status except delivered the as-written repository update gives the corrected result |
| OrderService.DeliveredFailsAsWritten | src/repositories/OrderRepository.ts:287-299 | marking an existing order delivered fails as written, while the corrected update stores the current time as its delivery time |
| OrderService.AnyTransitionAcceptedAsWritten | src/services/OrderService.ts:90-102 | as the program is written, any existing order moves to any status other than delivered, and the move to delivered fails |
| OrderService.TerminalStatesAreNotFinal | src/services/OrderService.ts:159-182 | a delivered order can be set back to order_placed although the table lists no move out of delivered |
| OrderService.TableFinalStates | src/services/OrderService.ts:161-169 | the table's states without moves are exactly delivered and cancelled |
| OrderService.CancelOrder | src/services/OrderService.ts:108-119 | an unknown order gives "Order not found", an order that cannot be cancelled names its status; otherwise the result is the cancelled-status update: items and every other order unchanged, the order becomes cancelled and keeps its delivery times, and the updated row is returned |
| OrderService.CancelAgainstTable | src/services/OrderService.ts:184-187 | cancellation is allowed before an order is out for delivery; the table also allows cancelling from out for delivery, but cancelOrder refuses it |
| OrderService.ActiveOrdersForRestaurant | src/services/OrderService.ts:200-205 | exactly the restaurant's orders that are neither delivered nor cancelled, each as often as stored, newest first |
| OrderService.SumTotalsAppend | src/services/OrderService.ts:233-238 | revenue over two lists is the sum of their revenues |
| OrderService.SumTotalsPermutation | src/services/OrderService.ts:233-238 | revenue does not depend on the order of the orders |
| OrderService.AverageOf | src/services/OrderService.ts:241-243 | 0 with no orders, NaN when every order is cancelled, otherwise revenue over the number of orders not cancelled |
| OrderService.ComputeStatistics | src/services/OrderService.ts:216-246 | the order count, a count per status covering all seven statuses, revenue from the orders not cancelled, and the average from those |
| OrderService.CountsSumToTotal | src/services/OrderService.ts:224-238 | the seven per-status counts add up to the number of orders |
| OrderService.StatisticsPermutation | src/services/OrderService.ts:216-246 | two lists holding the same orders give the same count, the same per-status counts and the same revenue |
| OrderService.OrderStatistics | src/services/OrderService.ts:207-246 | the count, the per-status counts, the revenue from orders not cancelled and the average are those of exactly the restaurant's orders when the id is truthy, and of every order otherwise; no orders gives zero revenue and a zero average |
| Routes.Get | src/app/api/orders/from-cart/route.ts:13-51 | a member exists only when read from an object that has it |
| Routes.FromCartCheck | src/app/api/orders/from-cart/route.ts:13-51 | the body passes exactly when every check passes; otherwise, stage by stage, the first failing stage's message: missing parts, an empty cart, missing customer fields, a missing payment method, non-numeric pricing |
| Routes.FromCartFailure | src/app/api/orders/from-cart/route.ts:61-75 | a thrown message mentioning an empty cart is a 400 with that message; anything else is a 500 with a fixed message |
| Routes.FromCartPost | src/app/api/orders/from-cart/route.ts:7-76 | an unreadable body is a 500, a failed check a 400 with its message, and 201 with the order exactly when every check passes and the service succeeds |
| Routes.FromCartFailsBeforeService | src/app/api/orders/from-cart/route.ts:13-51 | a body that fails a check is answered with 400 whatever the service would do |
| Routes.FromCartServiceErrors | src/app/api/orders/from-cart/route.ts:61-75 | the service's empty-cart error reaches the client as a 400; any error not mentioning an empty cart, such as a repository error, becomes the fixed 500 |
| Routes.FromCartMinimalBody | src/app/api/orders/from-cart/route.ts:13-51 | phone, tax and delivery fee are not required |
| Routes.OrdersGet | src/app/api/orders/route.ts:7-34 | the first truthy parameter among email, restaurant id and status selects exactly the orders matching it, each as often as stored, with no parameter meaning every order; always 200, newest first |
| Routes.OrdersGetPrecedence | src/app/api/orders/route.ts:16-24 | parameters after the first truthy one are ignored, and an empty email counts as absent |
| Routes.OrdersPost | src/app/api/orders/route.ts:36-58 | an unreadable body is a 500, missing fields a 400, and 201 with the order exactly when the fields are present and the service succeeds |
| Routes.OrdersPostHidesErrors | src/app/api/orders/route.ts:51-57 | every service error is the same 500 message |
| Dashboard.ActionsAgainstServiceTable | src/app/dashboard/page.tsx:27-35 | every dashboard button is a move the service's table lists, and the only listed move without a button is out for delivery to cancelled |
| Dashboard.ShowsActionsIffActive | src/app/dashboard/page.tsx:414-416 | buttons are shown exactly for orders neither delivered nor cancelled |
| Dashboard.CancelButtonMatchesService | src/app/dashboard/page.tsx:27-35 | a cancel button appears exactly where the service allows the cancellation |
| Dashboard.StatusParam | src/app/dashboard/page.tsx:78-86 | no status parameter exactly for "all"; a specific status is passed on as is |
| Dashboard.OrdersUrl | src/app/dashboard/page.tsx:78-86 | the URL always names the restaurant, and ends with the status parameter when there is one |
| Dashboard.ActiveListIsNotAStatus | src/app/dashboard/page.tsx:78-86 | the comma-joined "active" list names no status, so a status finder given it selects nothing (with `status` a text column) |
| Dashboard.ActiveOrders | src/app/dashboard/page.tsx:157-161 | exactly the orders neither delivered nor cancelled, each as often as given |
| Dashboard.StatusFilterDoesNotNarrow | src/app/dashboard/page.tsx:176 | because the route prefers the restaurant id, a specific status filter shows the same list as "all" |
| Dashboard.ActiveViewMatchesService | src/app/dashboard/page.tsx:176 | the "active" view is the service's list of active orders for the restaurant |
| Dashboard.OrderStats | src/app/dashboard/page.tsx:163-172 | the count of orders, the delivered count as the service counts delivered orders, the active count as the orders neither delivered nor cancelled, and revenue from delivered orders only |
| Dashboard.StatusPartition | src/app/dashboard/page.tsx:163-172 | active, delivered and cancelled orders partition the list: their counts add up to its length |
| Dashboard.RevenueBelowService | src/app/dashboard/page.tsx:163-172 | with non-negative totals the dashboard revenue never exceeds the service's revenue |
| Dashboard.RevenuesDiffer | src/app/dashboard/page.tsx:163-172 | any order that is neither delivered nor cancelled counts its total toward the service revenue but nothing toward the dashboard's |
| OrderHistory.SearchEmail | src/app/orders/page.tsx:81-86 | nothing to fetch exactly for a blank input; otherwise the trimmed email |
| OrderHistory.OnReply | src/app/orders/page.tsx:35-79 | a success replaces the list and clears the error, a 404 empties the list without an error, and any other failure keeps the list and sets the error |
| OrderHistory.NotFoundIsEmptyHistory | src/app/orders/page.tsx:40-48 | a 404 reads like an empty success, while a 500 keeps the old list with an error |
| OrderHistory.Cutoff | src/app/orders/page.tsx:108-127 | there is no cutoff exactly for "all" |
| OrderHistory.FilterOrders | src/app/orders/page.tsx:99-133 | exactly the orders matching the status and created at or after the cutoff, each as often as given, newest first |
| OrderHistory.FilterTwice | src/app/orders/page.tsx:103-127 | filtering by status and then by date keeps exactly the orders matching both |
| OrderHistory.AllKeepsEverything | src/app/orders/page.tsx:99-133 | with both filters off, every order is shown |
| OrderHistory.UnknownRangeKeepsFutureOnly | src/app/orders/page.tsx:108-127 | any range other than all, week, month and 3months leaves the cutoff at the current time, so exactly the orders created at or after now pass the date step |
| Checkout.PriceLines | src/app/checkout/page.tsx:32-35 | the subtotal is the cart total; tax is charged on the subtotal only, and the total adds tax and the flat fee |
| Checkout.TwoMargheritasCheckout | src/app/checkout/page.tsx:32-35 | two Margheritas price at 33.98 + 2.99 + 3.015725 = 39.985725 |
| Checkout.EmptyCartCostsTheFee | src/app/checkout/page.tsx:32-35 | an empty cart would be priced at the delivery fee |
| Checkout.PayNow | src/app/checkout/page.tsx:37-46 | paying marks the order placed, ends processing and leaves an empty, valid cart |
| Checkout.PayNowForgetsCart | src/app/checkout/page.tsx:37-46 | the state after paying does not depend on the cart paid for |
| Checkout.ViewOf | src/app/checkout/page.tsx:48-71 | the success view exactly once placed, the empty view exactly for an empty cart not yet placed, and the form otherwise |
| Checkout.PaidShowsSuccess | src/app/checkout/page.tsx:48-71 | after paying the success view is shown although the cart is empty |

## Left out

- Rendering: JSX, labels, colours, loading spinners and navigation.
- Timers and logging: `setTimeout` delays and `console.log`/`console.error`. Asynchrony is left out too; every call is modelled as completing in order.
- The PostgreSQL driver and the SQL text itself. Tables are row sequences. `ILIKE`/`LIKE` matching is a `like` parameter of the search functions, because pattern semantics and collation belong to the database.
- Text sort keys (`ORDER BY name`, `category`) are compared code point by code point (Ordering.StrCmp), not by the database collation. Under a locale collation such as en_US, "apple" sorts before "Zebra", while code-point order puts "Zebra" first. The orders stated for MenuItemRepository.Search, SearchByRestaurant, FindByPriceRange, DistinctSorted, GetCategories and GetCategoriesByRestaurant, and for RestaurantRepository.FindAll, FindAllOrder, FindByRatingRange and Search, hold for code-point order only.
- Ordering among rows whose sort keys tie is taken to be insertion order, and the row order of a multi-row `RETURNING` is taken to be insertion order. PostgreSQL guarantees neither.
- Id generation, transaction-id generation, `new Date()` and `Math.random()` are parameters of the functions that use them.
- Calendar arithmetic (`setDate`, `setMonth`) in the order-history filter. OrderHistory.Cutoff takes the three cutoff instants as parameters.
- Floating point: money is `real`, so `toFixed` rounding and binary rounding error are not modelled. The `parseFloat` re-mapping of numeric columns on the dashboard and order-history pages is left out for the same reason.
- OrderService.ComputeStatistics: money columns are modelled as numbers. The PostgreSQL driver delivers DECIMAL columns as strings, and the repository passes `total` through unconverted. So `totalRevenue += order.total` in the program concatenates text once a non-cancelled order is seen (0 then "10.00" then "5.00" gives "010.005.00"), and the average then becomes NaN. The model instead states the numeric sum the code evidently means.
- OrderService.OrderStatistics: `totalRevenue` and `averageOrderValue` are stated for numeric totals, for the reason given under ComputeStatistics; the order count and the per-status counts are unaffected.
- `updated_at`: the repositories' timestamp bump on update is not tracked.
- OrderRepository.FindWithItems: over the LEFT JOIN, an order with no lines comes back with one all-null element in its `items` array; the model gives it an empty list. A missing restaurant is modelled as no restaurant rather than an object of null fields.
- Routes.FromCartPost: the body is not decoded into a typed cart; the service's outcome for a body that passes every check is a parameter.
- Routes.OrdersPost: the service's outcome for a body that passes the checks is a parameter.
- OrderService.UpdateOrderStatus: models the program with the repository's statement corrected; as written, setting "delivered" is rejected by the database, which OrderService.UpdateOrderStatusAsWritten and OrderService.DeliveredFailsAsWritten state.
- OrderService.ApplyStatus: its delivery time for "delivered" is what the corrected statement stores; the program as written fails there instead.
- OrderService.StatusRows: describes the corrected statement; as written, the rows are not changed for "delivered".
- OrderService.AnyTransitionAccepted: holds for the corrected statement; as written, the move to delivered fails, as OrderService.AnyTransitionAcceptedAsWritten states.
- Routes.OrdersGet: a database failure and its 500 answer are not modelled.
- Routes.Truthy: a JSON number cannot be `NaN`, so that falsy case does not arise.
- The pass-through service methods (`getOrderById`, `getOrderWithItems`, the `getOrdersBy…` finders, `getAllOrders`, `updateEstimatedDeliveryTime`, `deleteOrder`). Each only calls the repository member modelled above.
- `getOrderStatusHistory`: it only repackages the stored status and timestamp.
- The single-key finders and plain inserts of the menu-item and restaurant repositories (`findAll`, `findById`, `findByRestaurantId`, `findByCategory`, `findByCategoryAndRestaurant`, `findByCuisine`, `create`, `delete`). Each is one `Table.Select`, `Table.Find` or insert with nothing of its own.
- `OrderItemRepository.delete`: it is `Table.DeleteWhere` on the id.
- The checkout page's restaurant fetch, and the dashboard's restaurant list and `PATCH` status request: these are HTTP calls with no logic of their own.
- The API routes for single orders, cancellation, active orders, statistics and restaurants: each forwards to the service members modelled above.

## Findings

| source | as written | input that shows it | evidently intended | confidence | as-written member | corrected member |
|---|---|---|---|---|---|---|
| src/repositories/OrderRepository.ts:287-299 | for a delivered order with a delivery time, `actual_delivery_time` is bound to `$3`, which is the id's slot; `$2` is never referenced | `updateStatus(id, 'delivered', someDate)` | bind `actual_delivery_time` to `$2`, the slot holding the time | not executed | OrderRepository.AsWrittenDeliveredIsRejected | OrderRepository.UpdateStatus |
