# Storefront checkout pages, modelled in Dafny

A model of the decision logic inside five pages of a guest-checkout
perfume storefront (a Next.js front end that talks to a remote shop API):

- **cart**: the order-summary estimate, the quantity-update requests and toasts, the line guards.
- **checkout**: the subtotal, the shipping quote, the required-field gate, the order-creation payload, the failure message, and the cash/card redirect.
- **payment**: the card-input sanitisers, the ordered validation, the payment descriptor (name and last four digits only), and the order summary rebuilt from the persisted order echo.
- **shop**: slugs, the object-id test, the audience filter, the product query, and the product-to-card projection.
- **confirmation**: the lookup guard and query, the removal of the draft, and the status tones and copy.

The browser's `localStorage` is a map from key to a decoded value
(`Storage.Store`). The keys are `orderData` (the order echo), `checkoutData`
(the draft that was sent) and `blisora_audience` (a bare audience name).
These keys form a small state machine across the pages:

- checkout writes both order keys;
- a successful payment clears both;
- a successful confirmation load clears the draft.

Module `Saga` proves what each hand-over carries from one page to the next,
and that every page keeps each key holding the right kind of value.

Each page handler is a pure function. The page's inputs are its parameters:
the form fields, the URL parameter, the store, and the server's reply. The
reply is consulted only on the paths where the page actually makes a
request. Money is a whole-number `int`, in the units the pages display.

Behaviour of the code that a reader may not expect, kept as written:

- The cart keeps a single `updatingItemId` slot. Starting an update writes the product id into it, which disables every line of that product across all variants. Any update settling clears it, so with two overlapping updates a product's lines can be enabled while its request is still in flight.
- Checkout refuses only a missing cart (`!cart`). A cart with no lines reaches the request, although the page hides the form in that case.
- When neither the `audience` parameter nor the remembered value is valid, the shop filter keeps the value it already had. On the first render that value is none.
- The payment page shows `totalAmount` when it is non-zero. Otherwise it recomputes the total as subtotal + shipping − discount, which ignores any loyalty discount.
- The card-number and CVC inputs cut an edit to 19 and 3 UTF-16 code units before the digit filter runs, so separators and characters outside the Basic Multilingual Plane in pasted text cost digits.

## Model

| member | source | states |
|---|---|---|
| Wrappers.OrElse | src/app/checkout/page.tsx:150 | `a \|\| fallback` on strings: an absent or empty value gives the fallback, any other value is kept |
| Wrappers.NumberOr0 | src/app/payment/page.tsx:70-72 | `n \|\| 0` on numbers: absent gives 0, otherwise the value itself |
| Text.Lower | src/app/shop/page.tsx:40 | same length; every character is lower-cased position by position (ASCII only) |
| Text.DigitsOnly | src/app/payment/page.tsx:213 | `replace(/\D/g, '')` yields only digits and is never longer than its input; the three lemmas below pin down which digits |
| Text.DigitsOnlyAppend | src/app/payment/page.tsx:213 | the digit filter distributes over concatenation |
| Text.DigitsOnlyOfDigits | src/app/payment/page.tsx:213 | a string of digits passes the filter unchanged |
| Text.DigitsOnlyOfNonDigits | src/app/payment/page.tsx:213 | a string with no digit filters to nothing; with the two lemmas above, every digit is kept, in order, and nothing else |
| Text.DigitsOnlyKeepsAllIffDigits | src/app/payment/page.tsx:213 | the digit filter drops nothing exactly when the input is all digits |
| Text.Take | src/app/payment/page.tsx:213 | `slice(0, n)` is the prefix of length min(length, n) |
| Text.TakeUnits | src/app/payment/page.tsx:214 | the `maxLength` cut is a prefix of the text |
| Text.TakeUnitsFits | src/app/payment/page.tsx:214 | the cut is the longest prefix whose UTF-16 length fits the limit, and text that fits is kept whole |
| Text.TakeUnitsOfBmp | src/app/payment/page.tsx:214 | on text inside the Basic Multilingual Plane, the cut keeps the first n characters |
| Text.TakeLast | src/app/payment/page.tsx:119 | `slice(-n)` is the suffix of length min(length, n) |
| Text.Trim | src/app/shop/page.tsx:77 | `trim()` removes exactly the maximal white-space runs at both ends, so the result neither starts nor ends with white space |
| Text.RemoveWhitespace | src/app/payment/page.tsx:96 | `replace(/\s/g, '')` leaves no white space and never lengthens |
| Text.RemoveWhitespaceAppend | src/app/payment/page.tsx:96 | white-space removal distributes over concatenation |
| Text.RemoveWhitespaceOfChar | src/app/payment/page.tsx:96 | a white-space character is removed and any other character is kept; with the lemma above, every other character is kept, in order |
| Text.SplitJoinFields | src/app/checkout/page.tsx:128-129 | a ", "-joined address splits back into its parts when no part holds a comma |
| Storage.Put | src/app/checkout/page.tsx:154-155 | `setItem` stores the value under its key and leaves every other key as it was |
| Storage.Remove | src/app/payment/page.tsx:145-146 | `removeItem` drops the key and leaves every other key as it was |
| CartPage.CartAfterFetch | src/app/cart/page.tsx:45-67 | a body replaces the cart, a non-2xx reply empties it, and a transport failure keeps the cart already held; a toast is raised exactly on a transport failure, and it is the destructive "Error" / "Failed to load cart" one |
| CartPage.CartSummary | src/app/cart/page.tsx:125-131 | shipping 18 and discount 10 only for a positive subtotal; the total is never negative and equals subtotal + 8 when positive; with no cart everything is 0, and with a subtotal of 0 or less shipping, discount and total are 0 |
| CartPage.CartTotalMonotone | src/app/cart/page.tsx:126-129 | a larger subtotal never shows a smaller total |
| CartPage.UpdateBodyKeys | src/app/cart/page.tsx:83-89 | the update item's keys are exactly `productId`, `quantity`, and `variant` when the line has one, in that order and with no repeats |
| CartPage.DecrementRequest | src/app/cart/page.tsx:196-200 | minus sends the same product and variant with quantity − 1, and never a negative quantity |
| CartPage.IncrementRequest | src/app/cart/page.tsx:214-218 | plus sends the same product and variant with quantity + 1 |
| CartPage.RemoveRequest | src/app/cart/page.tsx:118-123 | remove is an update to quantity 0 with the same product and variant |
| CartPage.DecrementUndoesIncrement | src/app/cart/page.tsx:196-218 | minus after plus asks for the original quantity |
| CartPage.LastUnitDecrementIsRemove | src/app/cart/page.tsx:118-123 | minus on the last unit sends exactly the remove request |
| CartPage.UpdateToast | src/app/cart/page.tsx:92-112 | a success toasts exactly for quantity 0, and then with the non-destructive "Item removed" / "Item removed from cart"; a rejection shows the body's `error` or "Failed to update cart"; a transport failure shows its message |
| CartPage.BusyIsPerProduct | src/app/cart/page.tsx:194-226 | while the `updatingItemId` slot holds a product, the lines of that product are disabled and no line of any other product is |
| CartPage.BusyIsLastStart | src/app/cart/page.tsx:38-114 | after any run of update starts and settles, a line is disabled exactly when the last event started an update of its product |
| CartPage.OverlapReleasesFirst | src/app/cart/page.tsx:74-114 | when an update of another product starts, or starts and settles, while one is in flight, the first product's lines are enabled although its request is still running |
| CartPage.FailedLoadShowsEmpty | src/app/cart/page.tsx:125-131 | a cart that never loaded shows an all-zero summary, and its checkout button is marked disabled |
| CartPage.LineKeyStringCollides | src/app/cart/page.tsx:166 | two lines with different variants get the same '-'-joined key |
| CartPage.LineKey | src/app/cart/page.tsx:166 | a line's identity is (product id, size or "", colour or "") |
| CartPage.LineKeySeparatesVariants | src/app/cart/page.tsx:166 | two identities are equal exactly when product, size and colour are all equal |
| CheckoutPage.SubtotalNonNegative | src/app/checkout/page.tsx:205 | non-negative prices and quantities give a non-negative subtotal |
| CheckoutPage.SubtotalByReduce | src/app/checkout/page.tsx:205 | the left-to-right running sum of the `reduce` equals the subtotal defined as the sum of price × quantity |
| CheckoutPage.EnterCheckout | src/app/checkout/page.tsx:64-88 | a quote is requested exactly when the loaded cart has a line, and then for its subtotal; a failed fetch leaves no cart and sets the error state to "Failed to load cart" |
| CheckoutPage.ViewOf | src/app/checkout/page.tsx:176-223 | with no cart or no line the page shows the empty-cart view; otherwise it shows the form, with the error banner exactly when the error state is non-empty |
| CheckoutPage.FailedEntryShowsEmptyView | src/app/checkout/page.tsx:64-88 | after a failed entry fetch the page shows the empty-cart view, so "Failed to load cart" never appears |
| CheckoutPage.ShippingCost | src/app/checkout/page.tsx:90-103 | the quoted cost, or 0 when no quote was requested, the request failed, or the figure is missing |
| CheckoutPage.DisplayedTotal | src/app/checkout/page.tsx:206 | the total is the subtotal plus the quoted shipping cost, or the bare subtotal when there is no usable quote |
| CheckoutPage.ShippingLine | src/app/checkout/page.tsx:128 | the shipping string is line, city, postal code and country joined by ", " |
| CheckoutPage.BillingLine | src/app/checkout/page.tsx:129 | "" when billing is the same as shipping, otherwise line, city and postal code joined by ", " with no country |
| CheckoutPage.ShippingLineRoundTrip | src/app/checkout/page.tsx:128 | the four shipping parts read back from the flattened string when none holds a comma |
| CheckoutPage.BillingLineRoundTrip | src/app/checkout/page.tsx:129 | a separate billing string reads back as exactly its three parts |
| CheckoutPage.CouponField | src/app/checkout/page.tsx:131 | an empty coupon is left out, and any other coupon is sent verbatim |
| CheckoutPage.BuildPayload | src/app/checkout/page.tsx:123-133 | the body carries the contact fields, the two flattened addresses, the coupon field and the payment method |
| CheckoutPage.FailureMessage | src/app/checkout/page.tsx:147-151 | the message is the body's `error`, else its `message`, else "Checkout failed"; a transport failure shows its own message |
| CheckoutPage.PersistCheckout | src/app/checkout/page.tsx:154-155 | success stores the order echo and the draft, and touches no other key |
| CheckoutPage.HandleCheckout | src/app/checkout/page.tsx:105-174 | the gates run in order (required fields, then cart) and send nothing when they fail; on success both keys are written, then cash goes to confirmation by `orderRef` and any other method to payment by `_id`; a failure shows the message and writes nothing |
| CheckoutPage.MissingFieldSendsNothing | src/app/checkout/page.tsx:109-112 | any empty required field gives "Please fill in all required fields", sends nothing and changes nothing, whatever the cart and the server |
| PaymentPage.SanitizeCardNumber | src/app/payment/page.tsx:213 | the onChange filter returns only digits: the first min(digit count, 16) digits of its input, in order |
| PaymentPage.SanitizeCvc | src/app/payment/page.tsx:236 | the onChange filter returns only digits: the first min(digit count, 3) digits of its input, in order |
| PaymentPage.CardNumberInput | src/app/payment/page.tsx:213-214 | an edit into the empty field keeps the first min(digit count, 16) digits of the part that fits in 19 UTF-16 code units; for text that fits, this is the filter alone |
| PaymentPage.CvcInput | src/app/payment/page.tsx:236-237 | an edit into the empty field keeps the first min(digit count, 3) digits of the part that fits in 3 UTF-16 code units; for text that fits, this is the filter alone |
| PaymentPage.DigitPasteKeepsLeadingDigits | src/app/payment/page.tsx:213-237 | pasting plain digits loses nothing to the length cut: the fields hold the first 16 and the first 3 digits |
| PaymentPage.SeparatedCvcPasteIsCut | src/app/payment/page.tsx:236-237 | "1 2 3" pasted into the CVC field leaves "12", while the filter alone would give "123" |
| PaymentPage.AstralPasteCostsDigits | src/app/payment/page.tsx:236-237 | an emoji pasted before "12" takes two of the CVC field's three code units, so the field holds "1", while the filter alone would give "12" |
| PaymentPage.SanitizeKeepsLeadingDigits | src/app/payment/page.tsx:213 | up to 16 digits are all kept; past 16, exactly the first 16 are kept |
| PaymentPage.SanitizeIdempotent | src/app/payment/page.tsx:213 | sanitising a sanitised value changes nothing, for both fields |
| PaymentPage.ValidateCard | src/app/payment/page.tsx:90-104 | the checks run in order (any empty field, then a length other than 16 once white space is removed, then a CVC length other than 3), and all pass exactly when none applies |
| PaymentPage.SanitizedValidIsExact | src/app/payment/page.tsx:96-104 | sanitised fields that pass validation are exactly 16 and 3 digits |
| PaymentPage.BuildPaymentPayload | src/app/payment/page.tsx:115-122 | the descriptor is method "card", the cardholder name, and the number's last four characters |
| PaymentPage.PayloadHidesCardSecrets | src/app/payment/page.tsx:115-122 | two forms with the same name and the same last four characters send the same descriptor, whatever their full number, expiry and CVC |
| PaymentPage.Last4IsNotTheNumber | src/app/payment/page.tsx:119 | for a valid digit-only number, `last4` is four digits and is not the full number |
| PaymentPage.ClearCheckoutKeys | src/app/payment/page.tsx:145-146 | success removes both order keys and keeps every other key unchanged |
| PaymentPage.HandlePayment | src/app/payment/page.tsx:85-158 | failed validation or a missing `orderId` sends nothing; a sent request carries the order id and the descriptor; success clears both keys and goes to the returned `orderRef`; a failure shows `error` or "Payment failed" and keeps the store |
| PaymentPage.SummaryOf | src/app/payment/page.tsx:65-74 | each figure defaults to 0; the total is a non-zero `totalAmount`, otherwise subtotal + shipping − discount |
| PaymentPage.LoadOrderSummary | src/app/payment/page.tsx:48-83 | a missing `orderId`, missing or empty `orderData`, or unparseable `orderData` each give their own error; otherwise the summary comes from the echo alone |
| PaymentPage.ConsistentEchoTotal | src/app/payment/page.tsx:73 | an echo whose total agrees with its parts shows that total, including a zero total |
| PaymentPage.PayButtonTotal | src/app/payment/page.tsx:162 | the button shows the summary total, or 0 without a summary |
| PaymentPage.EchoDiscountShown | src/app/payment/page.tsx:276 | with an echo loaded, the discount line shows exactly when the order's discount is positive |
| ShopPage.CollapseRunsShape | src/app/shop/page.tsx:41 | the result holds only [a-z0-9-] and never two hyphens in a row |
| ShopPage.CollapseRunsWords | src/app/shop/page.tsx:41 | after a run, the result is the words (maximal [a-z0-9] runs) joined by single hyphens, plus one hyphen if a run of other characters ends the input after a word |
| ShopPage.SlugIsJoinedWords | src/app/shop/page.tsx:38-42 | the slug of any name is the words of the lower-cased name joined by single hyphens, so hyphens go exactly between words |
| ShopPage.ToSlug | src/app/shop/page.tsx:38-42 | a slug holds only [a-z0-9-], never two hyphens in a row, and no hyphen at either end |
| ShopPage.SlugKeepsAlnums | src/app/shop/page.tsx:38-42 | a slug keeps every letter and digit of the lower-cased name, in order |
| ShopPage.SlugFixed | src/app/shop/page.tsx:38-42 | every well-formed slug is its own slug |
| ShopPage.SlugIdempotent | src/app/shop/page.tsx:38-42 | `toSlug(toSlug(x)) == toSlug(x)` |
| ShopPage.AllHex | src/app/shop/page.tsx:44 | true exactly when every character is a hex digit of either case |
| ShopPage.IsObjectId | src/app/shop/page.tsx:44 | true exactly when the value has 24 characters and all are hex digits of either case |
| ShopPage.ParseAudience | src/app/shop/page.tsx:56 | only "her", "him" and "unisex" are accepted, and each maps back to its own name |
| ShopPage.ParseAudienceName | src/app/shop/page.tsx:56-58 | the name stored for an audience parses back to that audience |
| ShopPage.ResolveAudience | src/app/shop/page.tsx:54-65 | a valid parameter wins and is stored; otherwise a valid remembered value is used; otherwise the filter keeps its current value; only the first case writes |
| ShopPage.AudienceRemembered | src/app/shop/page.tsx:54-65 | an audience chosen by parameter is still chosen on a later visit without the parameter |
| ShopPage.ProductQuery | src/app/shop/page.tsx:76-87 | `q` is present exactly when the trimmed search is non-empty and carries it; `gender` is present exactly for her or him, mapping to women or men; there is nothing else, and `q` comes first |
| ShopPage.CardCategory | src/app/shop/page.tsx:130-135 | a bare object id is hidden, any other bare string is shown as is, and an object shows its name |
| ShopPage.ToCard | src/app/shop/page.tsx:124-138 | the card keeps id, name and price; its slug is the name's slug; image, description and stock fall back to "", "" and 0 |
| ShopPage.CardProducts | src/app/shop/page.tsx:122-140 | one card per product, in order |
| ShopPage.LoadProducts | src/app/shop/page.tsx:93-106 | a body replaces the list and clears the error; an HTTP failure shows "Failed to load products." and a transport failure its own message, both keeping the list |
| ShopPage.GridAfterLoad | src/app/shop/page.tsx:187-194 | a body shows one card per product received; an HTTP failure, or a transport failure with a message, shows no card; only a transport failure with an empty message leaves the earlier cards on screen |
| ConfirmationPage.LookupParams | src/app/confirmation/page.tsx:58-72 | `orderRef` always comes first; `email` and `phone` from the draft are added exactly when non-empty, email before phone, and nothing else is added; with no draft the query is `orderRef` alone |
| ConfirmationPage.LoadOrder | src/app/confirmation/page.tsx:49-94 | a missing `orderRef` or an unreadable draft sends nothing; otherwise the query is sent; a found order is shown and drops the draft; "Order not found" or a transport failure keeps the store |
| ConfirmationPage.LoadTouchesOnlyDraft | src/app/confirmation/page.tsx:81-90 | loading changes at most the draft key: every other key keeps its presence and its value; a load that shows no order changes nothing |
| ConfirmationPage.OrderTone | src/app/confirmation/page.tsx:121-126 | pending is yellow, shipped is blue, and any other status is green, each in both directions |
| ConfirmationPage.ToneClassInjective | src/app/confirmation/page.tsx:121-131 | the three class lists are distinct, so each panel's class determines its tone |
| ConfirmationPage.StatusColor | src/app/confirmation/page.tsx:121-126 | the order panel's class list is the yellow one exactly for "pending", the blue one exactly for "shipped", and the green one for anything else |
| ConfirmationPage.PaymentStatusColor | src/app/confirmation/page.tsx:128-131 | the payment panel's class list is the yellow one exactly for "pending", the green one otherwise, and never the blue one |
| ConfirmationPage.OrderStatusMessage | src/app/confirmation/page.tsx:154-158 | the message matches the tone: being prepared, on its way, delivered |
| ConfirmationPage.PaymentTone | src/app/confirmation/page.tsx:128-131 | pending is yellow, anything else is green, and never blue |
| ConfirmationPage.TonesAgreeExceptShipped | src/app/confirmation/page.tsx:121-131 | the two panels share a tone for every status except "shipped" |
| ConfirmationPage.PaymentNote | src/app/confirmation/page.tsx:172-181 | a note appears exactly for a pending cash or card payment, with the copy for that method |
| ConfirmationPage.DiscountLinesOnlyPositive | src/app/confirmation/page.tsx:281-290 | the discount and loyalty-discount lines show only for a strictly positive figure |
| Saga.CardCheckoutFeedsPayment | src/app/checkout/page.tsx:154-167 | a card checkout goes to payment by order id, and the payment page then rebuilds its summary from the echo that was written |
| Saga.FailedPaymentAllowsRetry | src/app/payment/page.tsx:139-155 | a failed payment keeps the store, so the same summary loads again for a retry |
| Saga.PaidLookupCarriesOnlyRef | src/app/payment/page.tsx:145-151 | after a paid card order neither key is left, so the confirmation lookup carries `orderRef` alone |
| Saga.CashLookupCarriesContact | src/app/confirmation/page.tsx:58-87 | on the cash path the lookup carries `orderRef`, email and phone, and a successful load drops the draft but keeps the echo |
| Saga.CheckoutKeepsWellFormed | src/app/checkout/page.tsx:154-155 | checkout keeps each key holding its kind of value |
| Saga.PaymentKeepsWellFormed | src/app/payment/page.tsx:145-146 | payment keeps each key holding its kind of value |
| Saga.ConfirmationKeepsWellFormed | src/app/confirmation/page.tsx:87 | confirmation keeps each key holding its kind of value |
| Saga.ShopKeepsWellFormed | src/app/shop/page.tsx:58 | the shop keeps each key holding its kind of value |

## Left out

- Rendering, styling and React state plumbing: presentation only. Loading flags, the `submitting` flag and the cash success card are kept only where they decide something.
- `fetch`, HTTP status handling beyond choosing the message, and the session header and cookie: network I/O. Each reply is a parameter of the handler that would receive it.
- The backend's cart mutation, shipping quote, order creation, payment and lookup: these are external services.
- The two-second `setTimeout` before each redirect, and the `AbortController`/`isActive` cancellation in the shop: timing and concurrency. A redirect is a result value.
- `toFixed` and JavaScript's floating-point numbers: money is a whole-number `int`, and NaN is not modelled.
- `JSON.parse` and `JSON.stringify` of stored values. A stored value is already decoded: an order echo, a draft, or raw non-JSON text.
- ConfirmationPage.LoadOrder: a draft that fails to parse reports a fixed stand-in for the engine's own exception message.
- Unicode case mapping in `toLowerCase`: the slug model lower-cases ASCII only.
- URL encoding of query parameters: queries are lists of key/value pairs.
- A cart line whose product is not populated, which the checkout subtotal counts as price 0: every line here carries a product with a price.
- Text.Take and Text.TakeLast: they count characters, where `slice` counts UTF-16 code units. The pages apply them only to digit strings, for which the two counts agree.
- PaymentPage.ValidateCard: the lengths it checks count characters, where JavaScript counts UTF-16 code units. The fields it measures hold digits only, once the input filters have run, and for digits the two counts agree.
- Edits into a field that already holds text (the browser's cut then depends on the caret and on what is already there): the input models cover an edit into an empty field.
- Static catalog data, static pages and presentational components: no decisions to model. src/lib/catalog.ts and the home, tracking, contact, about and product-detail pages are not part of this model.
- The toast hook itself and `console.error`: presentation and logging. The toasts the cart raises, after a failed fetch and after an update, are modelled as values.

## Findings

| source | as written | input that shows it | evidently intended | confidence | as-written member | corrected member |
|---|---|---|---|---|---|---|
| src/app/cart/page.tsx:166 | the list key joins product id, size and colour with '-' | one product with size "50-ml" and no colour, and the same product with size "50" and colour "ml-", both get key "p-50-ml-" | each distinct line gets a distinct key | low, not executed | CartPage.LineKeyStringCollides | CartPage.LineKeySeparatesVariants |
