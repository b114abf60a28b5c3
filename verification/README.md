# Storefront logic, modelled and proved in Dafny

This project models the pure logic of an online storefront (a React/Redux shop client). The logic sits underneath the user interface and the network calls:

- **Cart and checkout.** The cart slice's reducers and totals (`cart.ts`), its `deleteQuantityFromCart` and add thunks, and the cart page's steppers, removal and checkout handler (`Cart.tsx`).
- **Payments.** The mobile-money phone normaliser (`payments.ts`) and the payment page's total, phone rule and request payload (`Payment.tsx`).
- **Stores.** The session store (`authStore.ts`) and the category store (`category.ts`).
- **Catalogue and order lists.**
  - The product search and numeric sorts (`useproducts.ts`).
  - The category page's lookup, filter and sort (`Category.tsx`).
  - The admin inventory's category label, search and pagination (`Inventory.tsx`).
  - The order list's status tabs, counts and Details toggle (`Orders.tsx`).
  - The defaulting of fetched orders (`orders.service.ts`).
- **Small helpers.** The route guard (`ProtectedRoute.tsx`), the product page's quantity stepper and thumbnail carousel (`ProductPage.tsx`), and text truncation (`TruncatedText.tsx`).

How the model is built:

- **Reducers and handlers.** Every reducer and handler is a pure function over immutable datatypes. A network call is an input: `Outcome` is `Resolved` or `Rejected`, and the model takes the branch the settled promise would take.
- **Money.** It is counted in whole cents. Prices are `nat`; the 9.99 shipping charge is `999`. The payment page's 8% tax makes its figure fractional, so that total is a `real`.
- **JavaScript semantics.** Where the code relies on a JavaScript builtin, the model writes the builtin out:
  - `filter` (`Seqs.Filter`);
  - the stable `Array.prototype.sort` with a numeric comparator (`Seqs.SortBy`);
  - `slice` with negative indices (`Seqs.JsSlice`);
  - `includes`, `split`, `join` and `toLowerCase` (`Text`);
  - `Number.prototype.toString` on prices (`Text.PriceText`);
  - the truncating `%` (`ProductPage.JsRem`);
  - the `||` default (`OrdersService.OrString`).

The checkout handler (Cart.tsx:73-111) has no empty-cart error: the page disables its checkout button while the cart is empty. The handler also starts no payment; payment is a separate page that works from the same cart.

Modules, one per source file or shared concept:

| module | file | models |
|---|---|---|
| `Base` | base.dfy | `Option`, `Result`, `Outcome` |
| `Seqs` | seqs.dfy | filter, stable sort, slice, flatten, and their laws |
| `Text` | text.dfy | lower-casing, substring search, split/join, number text |
| `CartSlice` | cart.dfy | `cart.ts` |
| `CartPage` | cart_page.dfy | `Cart.tsx` |
| `Payments` | payments.dfy | `payments.ts` |
| `PaymentPage` | payment_page.dfy | `Payment.tsx` |
| `AuthStore` | auth_store.dfy | `authStore.ts` |
| `CategoryStore` | category_store.dfy | `category.ts` |
| `Catalog` | catalog.dfy | `useproducts.ts` |
| `CategoryPage` | category_page.dfy | `Category.tsx` |
| `Inventory` | inventory.dfy | `Inventory.tsx` |
| `OrdersService` | orders_service.dfy | `orders.service.ts` |
| `OrdersPage` | orders_page.dfy | `Orders.tsx` |
| `ProtectedRoute` | protected_route.dfy | `ProtectedRoute.tsx` |
| `ProductPage` | product_page.dfy | `ProductPage.tsx` |
| `TruncatedText` | truncated_text.dfy | `TruncatedText.tsx` |

## Model

| member | source | states |
|---|---|---|
| CartSlice.FindIndex | cart.ts:34-36 | `find` by id gives the first line with that id, and gives nothing exactly when no line has it |
| CartSlice.AddItem | cart.ts:33-46 | For an id in the cart: that line's quantity grows by the payload quantity; its name, prices and image stay; every other line is unchanged. For a new id: exactly the payload is appended at the end |
| CartSlice.AddItemKeepsUniqueIds | cart.ts:34-45 | Adding keeps at most one line per id |
| CartSlice.AddItemKeepsPositive | cart.ts:38-44 | Adding a positive quantity to a cart of positive quantities keeps them all positive |
| CartSlice.AddItemQuantities | cart.ts:33-46 | In the keyed view, the payload id gains the payload quantity and every other id keeps its quantity |
| CartSlice.AddItemTotals | cart.ts:33-46 | Adding raises the item count by the payload quantity and the amount by that quantity times the line's price |
| CartSlice.AddTwiceMerges | cart.ts:34-45 | Two adds of one product (2, then 3) give a single line of 5 |
| CartSlice.SubtractItem | cart.ts:47-61 | When the remainder stays positive, only that line's quantity drops by the amount. Otherwise the result is exactly the cart after `removeItem` of the id: no line with the id is left and every other line survives, in order |
| CartSlice.SubtractItemKeepsInvariants | cart.ts:51-60 | Subtracting keeps ids unique and quantities positive |
| CartSlice.SubtractAbsentIsNoOp | cart.ts:51-60 | Subtracting an id the cart does not hold changes nothing |
| CartSlice.SubtractItemQuantities | cart.ts:51-60 | In the keyed view, the id keeps what remains if that is positive, else 0; other ids are untouched |
| CartSlice.SubtractPastZeroRemoves | cart.ts:54-59 | Taking 5 from a line of 3 removes the line |
| CartSlice.RemoveItem | cart.ts:62-64 | No line with the id remains, and every line with another id survives |
| CartSlice.RemoveItemKeepsOthersInOrder | cart.ts:62-64 | The result is exactly the subsequence of lines with other ids, in their order |
| CartSlice.RemoveItemKeepsInvariants | cart.ts:62-64 | Removing keeps ids unique and quantities positive |
| CartSlice.RemoveItemQuantities | cart.ts:62-64 | In the keyed view, the id drops to 0 and every other id keeps its quantity |
| CartSlice.RemoveItemTotals | cart.ts:62-64 | Removing lowers the item count by the id's quantity and the amount by that line's amount |
| CartSlice.ClearCart | cart.ts:65-67 | Clearing leaves the empty cart |
| CartSlice.ClearCartKeepsInvariants | cart.ts:65-67 | The cleared cart satisfies both invariants and both of its totals are 0 |
| CartSlice.TotalsOfConcat | cart.ts:186-195 | Both totals are additive over concatenated carts |
| CartSlice.TotalsOfUpdate | cart.ts:186-195 | Replacing one line changes each total by exactly that line's difference |
| CartSlice.TotalAmount | cart.ts:186-191 | The amount of the empty cart is 0, and with positive quantities the amount is never negative |
| CartSlice.TotalItems | cart.ts:193-195 | The item count of the empty cart is 0, and with positive quantities it is at least the number of lines |
| CartSlice.LineAmountGrows | cart.ts:38-39 | Raising a line's quantity by q raises its amount by q times its current price |
| CartSlice.SameIdsSameIndex | cart.ts:34-36 | Carts with the same ids at the same positions locate every id alike |
| CartSlice.AppendIndex | cart.ts:40-45 | Appending a line keeps every earlier id's position, and finds the new id at the end only when it was absent |
| CartSlice.DeleteQuantityFromCart | cart.ts:119-140 | Nothing happens for an absent id or when the API call is rejected |
| CartSlice.DeleteQuantityAgreesWithSubtract | cart.ts:126-136 | For a present id, the thunk's own choice between subtract and remove gives the same cart as `subtractItemQuantity` alone |
| CartSlice.AddToCartThunk | cart.ts:142-167 | A rejected call changes nothing. A resolved one is exactly `addItem` of the payload: the payload id gains the payload quantity, every other id keeps its quantity, and the item count grows by the payload quantity |
| CartSlice.AddQuantityToCart | cart.ts:88-117 | Whatever the call's outcome, the result equals that of `addToCartThunk`: reusing an existing line's name, prices and image makes no difference, since adding keeps that line's fields |
| CartPage.AddQuantity | Cart.tsx:35-40 | "+" adds exactly one of a product in the cart, changes no other product, and does nothing for an id not in the cart |
| CartPage.SubtractQuantity | Cart.tsx:41-43 | "−" leaves a cart without the id unchanged; the id's quantity drops by one, or to none when it was one |
| CartPage.SubtractQuantityTakesOne | Cart.tsx:41-43 | "−" takes exactly one away, and removes the line at one; other products are unchanged |
| CartPage.HandleRemoveFromCart | Cart.tsx:45-56 | The cart changes only when the dialog's product is in it, with a quantity of at least one; then exactly that line goes and the dialog item is cleared |
| CartPage.ToOrderItems | Cart.tsx:88-91 | One `{productId, quantity}` per cart line, with the same length, order and values |
| CartPage.OrderItemsCountItems | Cart.tsx:88-91 | The order items carry in total exactly the cart's item count |
| CartPage.CartTotal | Cart.tsx:113-118 | The empty cart's total is the 9.99 shipping alone, and with positive quantities the total is never below the shipping |
| CartPage.HandleCheckout | Cart.tsx:73-118 | Without a user: no request, the cart is kept, and the page goes to the login page with the current path and message. With a user: the request carries the user's id, subtotal + 999 cents and the order items. The cart is cleared only when the request resolves, and kept when it is rejected |
| CartPage.CheckoutClearsOnlyOnSuccess | Cart.tsx:94-107 | A changed cart implies a request was sent, it resolved, and the cart is now empty |
| Payments.StripNonDigits | payments.ts:17 | The result is all digits and never longer than the input |
| Payments.NormalizePhone | payments.ts:16-25 | The output is all digits and begins with `254`. A single leading `0` is replaced by `254`, other digit strings without `254` get it prepended, and a `254` number is kept |
| Payments.StripDigitsIsIdentity | payments.ts:17 | A string of digits is its own digit string |
| Payments.NormalizeIdempotent | payments.ts:16-25 | Normalising a normalised number returns it unchanged |
| Payments.NoDigitsGivesCountryCode | payments.ts:17-23 | Input without digits (including the empty string) normalises to `254`, never an error |
| Payments.NonDigitsIgnored | payments.ts:17 | A non-digit character anywhere in the input does not affect the result |
| PaymentPage.PaymentTotal | Payment.tsx:20-26 | The empty cart's payment total is the shipping alone, and with positive quantities it is never below the cart page's total |
| PaymentPage.PaymentTotalAddsTax | Payment.tsx:20-26 | The payment total is the cart page's total plus 8% of the subtotal, at least the cart total, and just the shipping on an empty cart |
| PaymentPage.MatchesPhonePattern | Payment.tsx:83 | An accepted phone has 10, 12 or 13 characters and ends in a nine-digit subscriber number whose first two digits are 7x, 10 or 11 |
| PaymentPage.PhonePatternShape | Payment.tsx:83 | Every phone the pattern accepts has 10, 12 or 13 characters and ends in a subscriber number. It has 10 exactly when it starts with `0`, and 13 exactly when it starts with `+` |
| PaymentPage.SubscriberNumberIsDigits | Payment.tsx:83 | The nine-character subscriber part is all digits |
| PaymentPage.AcceptedPhoneNormalizes | Payment.tsx:83 | Every phone the pattern accepts, once passed through the normaliser of payments.ts:16-25, becomes 12 digits: `254` followed by its last nine characters |
| PaymentPage.FormValid | Payment.tsx:76-90 | A valid form that pays by `mpesa` holds a phone that normalises to twelve digits |
| PaymentPage.BuildPaymentRequest | Payment.tsx:103-115 | The payload has a phone number exactly for the `mpesa` method, and that number is the normalised phone field. The amount is the payment total; the billing address copies the three form fields verbatim |
| PaymentPage.Submit | Payment.tsx:76-115 | A request is built exactly when the form passes validation, and it is the payload above |
| PaymentPage.SubmittedPhoneIsCanonical | Payment.tsx:77-107 | Every mobile-money request sent carries `254` followed by nine digits |
| PaymentPage.OtherMethodsSendNoPhone | Payment.tsx:77-108 | Any other method (including a tab key such as `videos`) sends no phone and skips the phone rule |
| AuthStore.SetUser | authStore.ts:34-42 | Stores the user and token, marks the session authenticated and not loading, and leaves the error alone |
| AuthStore.ClearAuth | authStore.ts:43-48 | Drops the user and token, marks the session unauthenticated and not loading, and leaves the error alone |
| AuthStore.SetLoading | authStore.ts:49-51 | Changes only the loading flag |
| AuthStore.SetError | authStore.ts:52-54 | Changes only the error |
| AuthStore.ClearError | authStore.ts:60-62 | Changes only the error, to none |
| AuthStore.UpdateProfile | authStore.ts:55-59 | Nothing changes when no user is stored; otherwise only the user changes |
| AuthStore.UpdateProfileFields | authStore.ts:57 | Each field present in the patch takes the patch's value; each absent field keeps its value |
| AuthStore.EmptyPatchIsNoOp | authStore.ts:55-59 | The empty patch changes nothing |
| AuthStore.SetUserThenClearAuth | authStore.ts:22-48 | Signing in then out restores the initial user, token and flags, keeping the error |
| AuthStore.Reduce | authStore.ts:34-63 | One dispatch keeps a token present exactly while the session is authenticated, and only `setError` and `clearError` change the error |
| AuthStore.ReduceAllKeepsValid | authStore.ts:30-64 | Any sequence of dispatches keeps a token present exactly while the session is authenticated |
| AuthStore.InitialIsValid | authStore.ts:22-28 | The initial session has neither a token nor authentication |
| CategoryStore.FindCategoryIndex | category.ts:47-49 | `findIndex` by id gives the first position with that id, and `-1` (here none) exactly when there is none |
| CategoryStore.FindCategory | category.ts:47-49 | The found category is in the list and has the id; none is found exactly when no category has it |
| CategoryStore.FetchStart | category.ts:31-34 | Sets loading, clears the error, and keeps the list |
| CategoryStore.FetchSuccess | category.ts:35-38 | Replaces the list with the payload, stops loading, and keeps the error |
| CategoryStore.FetchFailure | category.ts:39-42 | Stops loading, records the message, and keeps the list |
| CategoryStore.AddCategory | category.ts:43-45 | Appends the payload at the end; earlier entries and the flags are unchanged |
| CategoryStore.UpdateCategory | category.ts:46-53 | Replaces only the first entry with the payload's id, keeping the length and every other entry. An unknown id changes nothing |
| CategoryStore.UpdateThenFind | category.ts:46-53 | After an update of a known id, looking the id up gives the payload; lookups of other ids are unchanged |
| CategoryStore.FirstMatchIsFound | category.ts:47-49 | The first position with the id is the one found |
| CategoryStore.SameIndexAfterUpdate | category.ts:50-52 | Replacing an entry with one of the same id moves no lookup |
| CategoryStore.AddThenFind | category.ts:43-45 | A category added under a new id is then found |
| CategoryStore.AddKeepsOtherLookups | category.ts:43-45 | Adding does not change the lookup of any other id |
| CategoryStore.UpdateIdempotent | category.ts:46-53 | Updating twice with one payload is the same as once |
| Text.ContainsIffOccurs | Category.tsx:47 | `includes` holds exactly when the text occurs at some position |
| Text.JoinSplit | useproducts.ts:70 | Joining the pieces of a split with the separator gives back the string |
| Text.SplitPiecesHaveNoSeparator | useproducts.ts:70 | No search term holds the separator |
| Text.ParseNatText | useproducts.ts:75-76 | The decimal text of a whole number reads back as that number |
| Text.PriceText | useproducts.ts:75-76 | A price's text is digits with at most one decimal point. A whole price has no fraction part; otherwise the text is the whole part, a point, and one fraction digit when the cents end in 0 or two otherwise |
| Text.NatTextInjective | useproducts.ts:75-76 | Different whole numbers have different texts |
| Text.PriceTextHasPoint | useproducts.ts:75-76 | A price's text has a decimal point exactly when the price has cents |
| Text.PriceTextInjective | useproducts.ts:75-76 | Different prices have different texts, so the text names the price |
| Text.PriceTextExamples | useproducts.ts:75-76 | 12.00, 12.50, 12.05 and 9.99 read `12`, `12.5`, `12.05` and `9.99`: trailing zeros of the fraction are dropped |
| Catalog.SearchFields | useproducts.ts:73-77 | The searched fields are the lowercased name and the current price's text, plus the previous price's text when there is one |
| Catalog.MatchesQueryIff | useproducts.ts:70-81 | A product matches exactly when every term of the lowercased query occurs in one of its fields |
| Catalog.EmptyTermMatches | useproducts.ts:70-80 | The empty term, as made by a double space or an empty query, matches every product |
| Catalog.Search | useproducts.ts:72-82 | The result keeps only matching products and is never longer than the catalogue |
| Catalog.SearchKeepsExactlyMatches | useproducts.ts:72-82 | The result is exactly the matching products at their catalogue positions, in order |
| Catalog.EmptySearchKeepsAll | useproducts.ts:70-82 | The empty query returns the whole catalogue |
| Catalog.SearchAsWritten | useproducts.ts:68-83 | As written, the search fails exactly when some product has no previous price, and otherwise agrees with `Catalog.Search` |
| Catalog.MissingPreviousPriceBreaksSearch | useproducts.ts:76 | A single product without a previous price makes the written search fail, although the intended search returns it |
| Catalog.SortProducts | useproducts.ts:87-117 | The result is a permutation of the input. `low` orders by non-decreasing price and `high` by non-increasing price. `rating` orders by non-increasing star rating, a missing rating counting as 0. Any other criterion keeps the order |
| Catalog.SortProductsStable | useproducts.ts:88-113 | Products with equal keys keep their input order |
| Catalog.SortProductsOrderedIsIdentity | useproducts.ts:88-113 | Input already in order is returned as it is |
| Seqs.SortBy | useproducts.ts:88-113 | The stable numeric sort gives a permutation of its input in non-decreasing key order |
| Seqs.SortByStable | Category.tsx:51-58 | Elements with equal keys keep their relative order |
| Seqs.FilterEnumerates | Orders.tsx:42 | `filter` keeps exactly the elements that satisfy the predicate, at increasing positions |
| Seqs.JsSlice | Inventory.tsx:222 | `slice` is the plain subsequence for in-range bounds, is clipped at the end, is empty past the end, and is never longer than `end - start` |
| CategoryPage.CurrentCategory | Category.tsx:37-39 | The current category is the first with the route's id, and none exactly when no category has it |
| CategoryPage.CategoryProducts | Category.tsx:41-65 | An absent or empty list gives nothing. Every product listed is of the category, within the price limit, and has the query in its name (ignoring case); every such product is listed. Each sort option orders the list accordingly |
| CategoryPage.CategoryProductsPermutesFilter | Category.tsx:44-51 | The listing is a permutation of the filtered products |
| CategoryPage.CategoryProductsStable | Category.tsx:51-58 | Products that tie under the chosen order keep their catalogue order |
| CategoryPage.WholeCategoryListed | Category.tsx:44-49 | The empty query with a limit no price exceeds lists every product of the category |
| Inventory.CategoryName | Inventory.tsx:68-70 | The label is the first matching category's name if it is non-empty; otherwise the id |
| Inventory.CategoryNameNonEmpty | Inventory.tsx:68-70 | The label is never empty for a non-empty id |
| Inventory.FilteredProducts | Inventory.tsx:206-214 | Nothing before the list is loaded; otherwise only rows whose joined text contains the query, ignoring case |
| Inventory.FilteredKeepsExactlyMatches | Inventory.tsx:206-214 | The search keeps exactly the matching rows, in order |
| Inventory.EmptyQueryKeepsAll | Inventory.tsx:206-214 | The empty query keeps every row |
| Inventory.FieldMatchFindsRow | Inventory.tsx:208-212 | A query found in any one field value, ignoring case, finds the row |
| Inventory.JoinContainsPiece | Inventory.tsx:209-210 | Each field value occurs in the joined text |
| Inventory.LowerKeepsOccurrence | Inventory.tsx:211-212 | Lower-casing keeps an occurrence at its position |
| Inventory.OccursWithin | Inventory.tsx:209-212 | An occurrence within a field is an occurrence in the row text |
| Inventory.PageCount | Inventory.tsx:204-216 | The page count is the ceiling of the row count over 15: the fewest pages that hold every row |
| Inventory.Page | Inventory.tsx:218-223 | A page holds at most 15 rows; an in-range page is rows `15(p−1)` up to `15p`, or up to the last row |
| Inventory.PageBeyondLastIsEmpty | Inventory.tsx:216-222 | A page number past the last page shows no rows |
| Inventory.FirstPages | Inventory.tsx:216-223 | The first k pages form a list of k pages |
| Inventory.FirstPagesArePrefix | Inventory.tsx:216-223 | The first k pages together are the first 15k rows, or all rows |
| Inventory.AllPagesRebuildList | Inventory.tsx:216-223 | Reading every page in order gives back the filtered list exactly |
| OrdersService.OrString | orders.service.ts:19-20 | `x \|\| fallback` keeps a non-empty string and otherwise gives the fallback |
| OrdersService.WithDefaults | orders.service.ts:17-24 | The id and user are copied. A missing or empty status becomes `pending`, and a missing date becomes the current time. A missing amount becomes 0; missing items or delivery become empty lists; present values are kept |
| OrdersService.CompleteOrderUnchanged | orders.service.ts:17-24 | An order with every field present is left as it is |
| OrdersService.DefaultsIdempotent | orders.service.ts:17-24 | Defaulting an already defaulted order changes nothing |
| OrdersService.DefaultAll | orders.service.ts:17 | Every order is defaulted, in order, with the same length |
| OrdersService.LoadOrders | orders.service.ts:9-28 | A failed request, a missing body or an empty list is an error, never an empty list. Otherwise the orders are the defaulted response, with the same length and ids in order |
| OrdersService.LoadedStatusesNonEmpty | orders.service.ts:20 | No loaded order has an empty status |
| OrdersPage.FilteredOrders | Orders.tsx:38-43 | Nothing before the orders load. The "all" tab shows every order; a status tab shows only orders of that status, never more than all |
| OrdersPage.StatusTabKeepsExactlyMatches | Orders.tsx:40-42 | A status tab shows exactly the orders of that status, in their order |
| OrdersPage.TabCount | Orders.tsx:84-96 | Before the orders load every figure is 0; the "All" figure is the number of orders, and no figure exceeds it |
| OrdersPage.TabCountCounts | Orders.tsx:84-96 | A status tab's figure is the number of orders with that status; the "All" figure is the number of orders |
| OrdersPage.ThreeStatusesWithinAll | Orders.tsx:84-96 | The counts of three distinct statuses add up to at most the number of orders |
| OrdersPage.StatusTabsWithinAll | Orders.tsx:84-96 | The pending, shipped and delivered figures together never exceed the "All" figure |
| OrdersPage.ToggleDetails | Orders.tsx:128-131 | The pressed order is expanded exactly when it was not, no other order is expanded, and the tab is kept |
| OrdersPage.ToggleTwiceCollapses | Orders.tsx:128-131 | Pressing one Details button twice from a collapsed list collapses it again |
| OrdersPage.SelectTab | Orders.tsx:77-80 | Choosing a tab selects it and collapses every order |
| ProtectedRoute.Guard | ProtectedRoute.tsx:16-28 | The spinner is shown exactly while loading. The login redirect happens exactly without a user. The unauthorized redirect happens exactly when a role is required and the user's role differs. Otherwise the children render |
| ProtectedRoute.ChildrenNeedUser | ProtectedRoute.tsx:16-28 | The page renders only for a settled session with a user, and an admin-only page only for an admin |
| ProtectedRoute.GuardAfterSessionChange | ProtectedRoute.tsx:16-28 | Over the session reducers of authStore.ts:34-48: after signing out, a protected page redirects to login. After signing in, a page renders exactly when it needs no role or the user's own role |
| ProductPage.HandleAddQuantity | ProductPage.tsx:105-113 | Without a product, with no stock, or on a rejected call, nothing changes. Otherwise the quantity becomes the smaller of the stock and one more |
| ProductPage.HandleSubtractQuantity | ProductPage.tsx:114-122 | At one or less, without a product, or on a rejected call, nothing changes; otherwise the quantity drops by one and stays at least one |
| ProductPage.StepsStayInStock | ProductPage.tsx:105-122 | From any quantity between one and the stock (the page starts at one, line 67), any sequence of presses and call outcomes stays between one and the stock |
| ProductPage.PlusThenMinus | ProductPage.tsx:105-122 | A successful "+" then "−" returns to the start when there is room for one more |
| ProductPage.At | ProductPage.tsx:199 | Indexing the thumbnails gives an image exactly for an in-range position |
| ProductPage.JsRem | ProductPage.tsx:202-218 | JavaScript's `%`: a zero divisor gives no number, and a non-negative dividend gives the usual remainder |
| ProductPage.Click | ProductPage.tsx:197-200 | Clicking thumbnail k selects k and shows thumbnail k |
| ProductPage.Prev | ProductPage.tsx:202-211 | With no thumbnails, no image is shown |
| ProductPage.Next | ProductPage.tsx:213-218 | With no thumbnails, no image is shown |
| ProductPage.NextMovesForward | ProductPage.tsx:213-218 | Next selects (i+1) mod n and shows that image |
| ProductPage.PrevMovesBack | ProductPage.tsx:202-211 | Previous selects (i−1+n) mod n and shows that image |
| ProductPage.NextThenPrev | ProductPage.tsx:202-218 | Next then previous returns to the starting thumbnail and shows it |
| ProductPage.PrevThenNext | ProductPage.tsx:202-218 | Previous then next returns to the starting thumbnail |
| TruncatedText.Truncate | TruncatedText.tsx:14-18 | Text no longer than the limit is shown unchanged; longer text is its first `maxLength` characters followed by `...` |
| TruncatedText.TruncateBounds | TruncatedText.tsx:14-18 | The shown text is at most `maxLength + 3` long and starts with the first min(length, maxLength) characters. It ends in `...` whenever it was cut |
| TruncatedText.TruncateIdempotent | TruncatedText.tsx:14-18 | Truncating the shown text again changes nothing |

## Left out

- Network and I/O: every API call, the React Query cache, toasts, navigation side effects beyond the handler's decision, and console logging. Each call's settled promise is an `Outcome` input.
- Persistence: the redux-persist wrapping of the cart and category slices is library code.
- The thunks that fetch categories, and `checkoutCart`: they only dispatch reducers already modelled after a network call.
- Sorting by `localeCompare`: the `factory` and `product` criteria of `sortProducts` and the category page's `name-asc` option. Locale collation is not modelled; `CategoryPage.SortOption` omits `name-asc`.
- Floating point: money is exact (whole cents, or `real` for the payment total), so `toFixed`, binary rounding of 9.99 and of the 8% tax, and rounded discount percentages are not modelled.
- Text.PriceText: renders whole-cent prices the way `toString` does for values with at most two decimals; the exponent form for huge or tiny numbers is not modelled.
- TruncatedText.Truncate: lengths and cuts are counted in characters (Unicode scalar values), not the UTF-16 code units that JavaScript's `length` and `slice` count. So for `"😀😀"` and a limit of 3 the model shows the text unchanged, while the page, seeing length 4, cuts it inside the second emoji.
- Text.LowerString: lower-cases only the ASCII letters A–Z; the Unicode case mapping of `toLowerCase` is left out.
- PaymentPage.FormValid: the email format rule (Yup's `email()`) is not modelled; the email field is only required to be non-empty.
- The payment page after the payload is built: `processPayment` is React Query's `mutate`, which returns nothing, so reading `response.success` throws. The confirmation email and navigation are left out with it.
- Inventory.RowMatches: a product row is modelled as the list of its field values' texts. The field order and text rendering of `Object.values` belong to the runtime.
- CategoryPage.OptionKey: `rating-desc` compares `reviews.length`, modelled as a review count. The product slice's type is not part of this model. The declared `Product` type in `product.ts` has an object there, whose `length` would make every comparison `NaN`, meaning no reordering.
- OrdersService.WithDefaults: the default creation date is the current time, read from the clock; here it is the parameter `now`.
- ProductPage.JsRem: for a negative dividend the contract states only the sign and magnitude bound of the result, not its exact value. The carousel lemmas need only non-negative dividends.
- The product page's fetch effect and loading state: they call an undefined `dispatch` and `setSelectedProduct`, and `product` is never assigned. The stepper and carousel are modelled on their handler text, with the product as a parameter.
- `cartItem.ts`: an unregistered duplicate cart slice with trivial setters.
- `order.ts`: its type declarations do not parse.
- `analyticsStore.ts`: setters over untyped payloads.
- Static data, layout, styling, routing and the remaining UI components.

## Findings

| source | as written | input that shows it | evidently intended | confidence | as-written member | corrected member |
|---|---|---|---|---|---|---|
| useproducts.ts:76 | `product.previousPrice.toString()` is called on every product. The field is optional (`previousPrice?: number` in product.ts:14 and product.service.ts:8), and the edit form sends `undefined` when the price is not being changed (EditProduct.tsx:131) | any catalogue holding a product without `previousPrice`, with any query, even the empty one | search only the previous price's text when there is one, so the product is still matched on its name and current price | medium, not executed | Catalog.SearchAsWritten, Catalog.MissingPreviousPriceBreaksSearch | Catalog.Search, Catalog.SearchKeepsExactlyMatches |
