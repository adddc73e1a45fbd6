/** The payment page: the input sanitisers of the card form, the ordered
    validation, the outbound descriptor (name and last four digits only),
    the order summary rebuilt from the persisted order echo, and the
    persisted keys cleared on success. */
module PaymentPage {
  import opened Wrappers
  import opened Text
  import opened Records
  import opened Storage

  const CardDigits := 16
  const CvcDigits := 3

  // ----- input sanitisers -------------------------------------------------

  /** The card-number field keeps the digits of what was typed, at most 16. */
  function SanitizeCardNumber(input: string): (r: string)
    ensures AllDigits(r)
    ensures |r| == if |DigitsOnly(input)| <= CardDigits then |DigitsOnly(input)| else CardDigits
    ensures r == DigitsOnly(input)[..|r|]
  {
    Take(DigitsOnly(input), CardDigits)
  }

  /** The CVC field keeps the digits of what was typed, at most 3. */
  function SanitizeCvc(input: string): (r: string)
    ensures AllDigits(r)
    ensures |r| == if |DigitsOnly(input)| <= CvcDigits then |DigitsOnly(input)| else CvcDigits
    ensures r == DigitsOnly(input)[..|r|]
  {
    Take(DigitsOnly(input), CvcDigits)
  }

  /** What the field holds is the longest prefix of the typed digits that
      fits: every digit up to the cap is kept, in order. */
  lemma SanitizeKeepsLeadingDigits(input: string)
    ensures |DigitsOnly(input)| <= CardDigits ==> SanitizeCardNumber(input) == DigitsOnly(input)
    ensures |DigitsOnly(input)| > CardDigits ==> SanitizeCardNumber(input) == DigitsOnly(input)[..CardDigits]
  {
  }

  /** Sanitising an already-sanitised value changes nothing. */
  lemma SanitizeIdempotent(input: string)
    ensures SanitizeCardNumber(SanitizeCardNumber(input)) == SanitizeCardNumber(input)
    ensures SanitizeCvc(SanitizeCvc(input)) == SanitizeCvc(input)
  {
    DigitsOnlyOfDigits(SanitizeCardNumber(input));
    DigitsOnlyOfDigits(SanitizeCvc(input));
  }

  /** The inputs' `maxLength`: the browser keeps at most this many UTF-16
      code units of an edit before the onChange filter sees it. Whether it
      keeps half of a character that straddles the limit does not matter
      here: the filter drops such a half, as it drops any non-digit. */
  const CardInputLimit := 19
  const CvcInputLimit := 3

  /** The card-number field after `raw` is typed or pasted into it while
      empty: the browser's cut, then the onChange filter. */
  function CardNumberInput(raw: string): (r: string)
    ensures AllDigits(r)
    ensures var kept := DigitsOnly(TakeUnits(raw, CardInputLimit));
            |r| == (if |kept| <= CardDigits then |kept| else CardDigits) && r == kept[..|r|]
    ensures Utf16Length(raw) <= CardInputLimit ==> r == SanitizeCardNumber(raw)
  {
    TakeUnitsFits(raw, CardInputLimit);
    SanitizeCardNumber(TakeUnits(raw, CardInputLimit))
  }

  /** The CVC field after `raw` is typed or pasted into it while empty. */
  function CvcInput(raw: string): (r: string)
    ensures AllDigits(r)
    ensures var kept := DigitsOnly(TakeUnits(raw, CvcInputLimit));
            |r| == (if |kept| <= CvcDigits then |kept| else CvcDigits) && r == kept[..|r|]
    ensures Utf16Length(raw) <= CvcInputLimit ==> r == SanitizeCvc(raw)
  {
    TakeUnitsFits(raw, CvcInputLimit);
    SanitizeCvc(TakeUnits(raw, CvcInputLimit))
  }

  /** Pasting plain digits loses nothing to the browser's cut: the field
      holds the first 16 (or 3) of them. */
  lemma DigitPasteKeepsLeadingDigits(raw: string)
    requires AllDigits(raw)
    ensures CardNumberInput(raw) == Take(raw, CardDigits)
    ensures CvcInput(raw) == Take(raw, CvcDigits)
  {
    TakeUnitsOfBmp(raw, CardInputLimit);
    TakeUnitsOfBmp(raw, CvcInputLimit);
    DigitsOnlyOfDigits(Take(raw, CardInputLimit));
    DigitsOnlyOfDigits(Take(raw, CvcInputLimit));
  }

  /** With separators, the browser's cut comes first: "1 2 3" pasted into
      the CVC field keeps "1 2", so the field holds "12" although the
      filter alone would give "123". */
  lemma SeparatedCvcPasteIsCut()
    ensures CvcInput("1 2 3") == "12"
    ensures SanitizeCvc("1 2 3") == "123"
  {
    TakeUnitsOfBmp("1 2 3", CvcInputLimit);
    assert Take("1 2 3", CvcInputLimit) == "1 2";
    assert DigitsOnly("1 2") == "12";
    assert DigitsOnly("1 2 3") == "123";
  }

  /** The cut counts UTF-16 code units: an emoji takes two of the CVC
      field's three, so pasting it before "12" leaves only "1", although
      the filter alone would give "12". */
  lemma AstralPasteCostsDigits()
    ensures CvcInput("\U{1F600}12") == "1"
    ensures SanitizeCvc("\U{1F600}12") == "12"
  {
    var raw := "\U{1F600}12";
    assert Utf16Length(raw[2..]) == 1;
    assert Utf16Length(raw[1..]) == 2;
    assert TakeUnits(raw, CvcInputLimit) == raw[..2];
    assert DigitsOnly(raw[..2]) == "1";
    assert DigitsOnly(raw) == "12";
  }

  // ----- validation and payload -------------------------------------------

  datatype PaymentForm = PaymentForm(cardName: string, cardNumber: string, expiry: string, cvc: string)

  const MissingDetailsError := "Please fill in all card details"
  const CardLengthError := "Card number must be 16 digits"
  const CvcLengthError := "CVC must be 3 digits"

  /** The checks of the submit handler, in order; `None` when all pass. */
  function ValidateCard(f: PaymentForm): (r: Option<string>)
    ensures (f.cardName == "" || f.cardNumber == "" || f.expiry == "" || f.cvc == "")
            <==> r == Some(MissingDetailsError)
    ensures r == Some(CardLengthError) <==>
            f.cardName != "" && f.cardNumber != "" && f.expiry != "" && f.cvc != ""
            && |RemoveWhitespace(f.cardNumber)| != CardDigits
    ensures r == Some(CvcLengthError) <==>
            f.cardName != "" && f.cardNumber != "" && f.expiry != "" && f.cvc != ""
            && |RemoveWhitespace(f.cardNumber)| == CardDigits && |f.cvc| != CvcDigits
    ensures r.None? <==>
            f.cardName != "" && f.expiry != ""
            && |RemoveWhitespace(f.cardNumber)| == CardDigits && |f.cvc| == CvcDigits
  {
    if f.cardName == "" || f.cardNumber == "" || f.expiry == "" || f.cvc == "" then
      Some(MissingDetailsError)
    else if |RemoveWhitespace(f.cardNumber)| != CardDigits then
      Some(CardLengthError)
    else if |f.cvc| != CvcDigits then
      Some(CvcLengthError)
    else
      None
  }

  /** With fields filled through the sanitisers, passing validation means a
      16-digit number and a 3-digit code. */
  lemma SanitizedValidIsExact(name: string, typedNumber: string, expiry: string, typedCvc: string)
    requires ValidateCard(PaymentForm(name, SanitizeCardNumber(typedNumber), expiry, SanitizeCvc(typedCvc))).None?
    ensures |SanitizeCardNumber(typedNumber)| == CardDigits
    ensures |SanitizeCvc(typedCvc)| == CvcDigits
  {
    RemoveWhitespaceOfDigits(SanitizeCardNumber(typedNumber));
  }

  datatype CardDetails = CardDetails(name: string, last4: string)

  /** The body of `POST /orders/{id}/pay`. It has no field for the full
      number, the expiry or the CVC. */
  datatype PaymentPayload = PaymentPayload(paymentMethod: string, cardDetails: CardDetails)

  /** The descriptor built from the form: method "card", the cardholder
      name and `cardNumber.slice(-4)`. */
  function BuildPaymentPayload(f: PaymentForm): (p: PaymentPayload)
    ensures p.paymentMethod == "card"
    ensures p.cardDetails.name == f.cardName
    ensures |f.cardNumber| >= 4 ==> p.cardDetails.last4 == f.cardNumber[|f.cardNumber| - 4..]
    ensures |f.cardNumber| < 4 ==> p.cardDetails.last4 == f.cardNumber
  {
    PaymentPayload("card", CardDetails(f.cardName, TakeLast(f.cardNumber, 4)))
  }

  /** The payload depends on the number only through its last four
      characters, and not at all on the expiry or the CVC. */
  lemma PayloadHidesCardSecrets(f: PaymentForm, g: PaymentForm)
    requires f.cardName == g.cardName
    requires |f.cardNumber| >= 4 && |g.cardNumber| >= 4
    requires f.cardNumber[|f.cardNumber| - 4..] == g.cardNumber[|g.cardNumber| - 4..]
    ensures BuildPaymentPayload(f) == BuildPaymentPayload(g)
  {
  }

  /** For a valid sanitised number, `last4` is four digits and is not the
      full number. */
  lemma Last4IsNotTheNumber(f: PaymentForm)
    requires AllDigits(f.cardNumber) && ValidateCard(f).None?
    ensures |BuildPaymentPayload(f).cardDetails.last4| == 4
    ensures AllDigits(BuildPaymentPayload(f).cardDetails.last4)
    ensures BuildPaymentPayload(f).cardDetails.last4 != f.cardNumber
  {
    RemoveWhitespaceOfDigits(f.cardNumber);
  }

  // ----- submission -------------------------------------------------------

  /** Reply to the payment call. */
  datatype PayResponse =
    | Paid(order: Order)
    | PayRejected(error: Option<string>)
    | PayNetworkError(reason: string)

  const NoOrderError := "No order found"
  const PaymentFailedError := "Payment failed"

  datatype PayRequest = PayRequest(orderId: string, payload: PaymentPayload)

  /** What a submit leaves behind: the request sent (if any), the error
      banner, the order reference to go to, and the store. */
  datatype PaymentResult = PaymentResult(
    sent: Option<PayRequest>,
    error: string,
    confirmRef: Option<string>,
    store: Store)

  /** The store after a successful payment: neither checkout key remains. */
  function ClearCheckoutKeys(store: Store): (r: Store)
    ensures CheckoutDataKey !in r && OrderDataKey !in r
    ensures r.Keys == store.Keys - {CheckoutDataKey, OrderDataKey}
    ensures forall k :: k in r ==> r[k] == store[k]
  {
    Remove(Remove(store, CheckoutDataKey), OrderDataKey)
  }

  /** The submit handler. `orderId` is the `orderId` URL parameter;
      `response` is consulted only when a request is made. */
  function HandlePayment(f: PaymentForm, orderId: Option<string>, response: PayResponse, store: Store): (r: PaymentResult)
    ensures ValidateCard(f).Some? ==> r == PaymentResult(None, ValidateCard(f).value, None, store)
    ensures ValidateCard(f).None? && (orderId.None? || orderId.value == "") ==>
              r == PaymentResult(None, NoOrderError, None, store)
    ensures r.sent.Some? <==> ValidateCard(f).None? && orderId.Some? && orderId.value != ""
    ensures r.sent.Some? ==> r.sent.value == PayRequest(orderId.value, BuildPaymentPayload(f))
    ensures r.sent.Some? && response.Paid? ==>
              r.error == "" && r.confirmRef == Some(response.order.orderRef) && r.store == ClearCheckoutKeys(store)
    ensures r.sent.Some? && response.PayRejected? ==>
              r.error == OrElse(response.error, PaymentFailedError) && r.confirmRef.None? && r.store == store
    ensures r.sent.Some? && response.PayNetworkError? ==>
              r.error == response.reason && r.confirmRef.None? && r.store == store
  {
    var invalid := ValidateCard(f);
    if invalid.Some? then
      PaymentResult(None, invalid.value, None, store)
    else if orderId.None? || orderId.value == "" then
      PaymentResult(None, NoOrderError, None, store)
    else
      var request := PayRequest(orderId.value, BuildPaymentPayload(f));
      match response
      case Paid(order) => PaymentResult(Some(request), "", Some(order.orderRef), ClearCheckoutKeys(store))
      case PayRejected(e) => PaymentResult(Some(request), OrElse(e, PaymentFailedError), None, store)
      case PayNetworkError(reason) => PaymentResult(Some(request), reason, None, store)
  }

  // ----- order summary from the echo --------------------------------------

  datatype OrderSummary = OrderSummary(
    items: seq<OrderItem>,
    subtotal: int,
    shippingCost: int,
    discount: int,
    total: int)

  const MissingOrderIdError := "No order found. Please complete checkout first."
  const MissingOrderDataError := "No order data found. Please complete checkout first."
  const LoadFailedError := "Failed to load order details"

  /** The summary of a decoded echo. A checkout draft decodes but has none
      of the order's fields, so every figure defaults. */
  function SummaryOf(echo: Persisted): (s: OrderSummary)
    requires !echo.Raw?
    ensures echo.Draft? ==> s == OrderSummary([], 0, 0, 0, 0)
    ensures echo.OrderEcho? ==>
              && s.items == echo.order.items
              && s.subtotal == NumberOr0(echo.order.subtotal)
              && s.shippingCost == NumberOr0(echo.order.shippingCost)
              && s.discount == NumberOr0(echo.order.discount)
    ensures echo.OrderEcho? && Truthy(echo.order.totalAmount) ==> s.total == echo.order.totalAmount.value
    ensures !(echo.OrderEcho? && Truthy(echo.order.totalAmount)) ==> s.total == s.subtotal + s.shippingCost - s.discount
  {
    match echo
    case OrderEcho(o) =>
      var subtotal := NumberOr0(o.subtotal);
      var shipping := NumberOr0(o.shippingCost);
      var discount := NumberOr0(o.discount);
      var total := if Truthy(o.totalAmount) then o.totalAmount.value else subtotal + shipping - discount;
      OrderSummary(o.items, subtotal, shipping, discount, total)
    case Draft(_) => OrderSummary([], 0, 0, 0, 0)
  }

  /** Outcome of loading the page: the summary, or the error shown. */
  datatype SummaryLoad = SummaryLoaded(summary: OrderSummary) | SummaryError(message: string)

  /** No stored value, or an empty one. */
  predicate NoOrderData(store: Store) {
    OrderDataKey !in store || store[OrderDataKey] == Raw("")
  }

  /** The page never asks the server: it needs the `orderId` parameter and
      a persisted echo, and rebuilds the summary from the echo alone. A
      stored value that does not parse shows the load failure. */
  function LoadOrderSummary(orderId: Option<string>, store: Store): (r: SummaryLoad)
    ensures (orderId.None? || orderId.value == "") ==> r == SummaryError(MissingOrderIdError)
    ensures orderId.Some? && orderId.value != "" && NoOrderData(store) ==> r == SummaryError(MissingOrderDataError)
    ensures orderId.Some? && orderId.value != "" && !NoOrderData(store) && store[OrderDataKey].Raw? ==>
              r == SummaryError(LoadFailedError)
    ensures r.SummaryLoaded? <==>
              orderId.Some? && orderId.value != "" && OrderDataKey in store && !store[OrderDataKey].Raw?
    ensures r.SummaryLoaded? ==> r.summary == SummaryOf(store[OrderDataKey])
  {
    if orderId.None? || orderId.value == "" then SummaryError(MissingOrderIdError)
    else if NoOrderData(store) then SummaryError(MissingOrderDataError)
    else if store[OrderDataKey].Raw? then SummaryError(LoadFailedError)
    else SummaryLoaded(SummaryOf(store[OrderDataKey]))
  }

  /** An echo whose total agrees with its parts shows that total either way;
      a zero `totalAmount` falls through to the recomputed figure. */
  lemma ConsistentEchoTotal(o: Order)
    requires NumberOr0(o.totalAmount) == NumberOr0(o.subtotal) + NumberOr0(o.shippingCost) - NumberOr0(o.discount)
    ensures SummaryOf(OrderEcho(o)).total == NumberOr0(o.totalAmount)
  {
  }

  /** The amount on the pay button: the summary total, or 0 without one. */
  function PayButtonTotal(load: SummaryLoad): (t: int)
    ensures load.SummaryError? ==> t == 0
    ensures load.SummaryLoaded? ==> t == load.summary.total
  {
    if load.SummaryLoaded? then load.summary.total else 0
  }

  /** The discount line is shown only for a positive discount. */
  predicate ShowsDiscount(load: SummaryLoad) {
    load.SummaryLoaded? && load.summary.discount > 0
  }

  /** With an echo in place, the discount line appears exactly when the
      order carries a positive discount. */
  lemma EchoDiscountShown(orderId: string, store: Store)
    requires orderId != "" && OrderDataKey in store && store[OrderDataKey].OrderEcho?
    ensures ShowsDiscount(LoadOrderSummary(Some(orderId), store)) <==>
            NumberOr0(store[OrderDataKey].order.discount) > 0
  {
  }
}
