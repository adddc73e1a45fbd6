/** The checkout page: the subtotal and shipping quote shown beside the
    form, the required-field gate, the order-creation payload, the failure
    message, the persisted keys written on success and the cash/card
    redirect. */
module CheckoutPage {
  import opened Wrappers
  import opened Text
  import opened Records
  import opened Storage

  // ----- subtotal and shipping quote ---------------------------------------

  /** What one line contributes: its unit price times its quantity. */
  function LineAmount(item: CartItem): int {
    item.product.price * item.quantity
  }

  /** The sum of the line amounts. */
  function Subtotal(items: seq<CartItem>): int
    decreases |items|
  {
    if |items| == 0 then 0 else LineAmount(items[0]) + Subtotal(items[1..])
  }

  /** Summing a concatenation sums the parts. */
  lemma {:induction false} SubtotalAppend(a: seq<CartItem>, b: seq<CartItem>)
    ensures Subtotal(a + b) == Subtotal(a) + Subtotal(b)
    decreases |a|
  {
    if |a| == 0 {
      assert a + b == b;
    } else {
      assert (a + b)[1..] == a[1..] + b;
      SubtotalAppend(a[1..], b);
    }
  }

  /** Non-negative prices and quantities give a non-negative subtotal. */
  lemma {:induction false} SubtotalNonNegative(items: seq<CartItem>)
    requires forall i :: 0 <= i < |items| ==> items[i].product.price >= 0 && items[i].quantity >= 0
    ensures Subtotal(items) >= 0
    decreases |items|
  {
    if |items| > 0 {
      SubtotalNonNegative(items[1..]);
    }
  }

  /** The page's `reduce`: a left-to-right running sum starting at 0. */
  method SubtotalByReduce(items: seq<CartItem>) returns (sum: int)
    ensures sum == Subtotal(items)
  {
    sum := 0;
    var i := 0;
    while i < |items|
      invariant 0 <= i <= |items|
      invariant sum == Subtotal(items[..i])
    {
      SubtotalAppend(items[..i], [items[i]]);
      assert items[..i + 1] == items[..i] + [items[i]];
      sum := sum + LineAmount(items[i]);
      i := i + 1;
    }
    assert items[..i] == items;
  }

  /** Outcome of `GET /cart` on entering checkout. */
  datatype CartFetch = CartLoaded(cart: Cart) | CartFetchFailed

  /** State after the entry fetch: the cart, the error state, and the
      subtotal a shipping quote is requested for, if any. */
  datatype Entry = Entry(cart: Option<Cart>, error: string, quoteFor: Option<int>)

  /** A quote is requested only for a cart with at least one line. */
  function EnterCheckout(fetch: CartFetch): (e: Entry)
    ensures e.quoteFor.Some? <==> fetch.CartLoaded? && |fetch.cart.items| > 0
    ensures e.quoteFor.Some? ==> e.quoteFor.value == Subtotal(fetch.cart.items)
    ensures fetch.CartLoaded? ==> e.cart == Some(fetch.cart) && e.error == ""
    ensures fetch.CartFetchFailed? ==> e.cart.None? && e.error == "Failed to load cart"
  {
    match fetch
    case CartLoaded(c) =>
      Entry(Some(c), "", if |c.items| > 0 then Some(Subtotal(c.items)) else None)
    case CartFetchFailed =>
      Entry(None, "Failed to load cart", None)
  }

  /** What the page renders once loading is over (the cash success card
      aside): the empty-cart view, or the form with the error banner when
      the error state is non-empty. */
  datatype View = EmptyCartView | FormView(banner: Option<string>)

  function ViewOf(cart: Option<Cart>, error: string): (v: View)
    ensures v.EmptyCartView? <==> cart.None? || |cart.value.items| == 0
    ensures v.FormView? ==> (v.banner.Some? <==> error != "")
    ensures v.FormView? && v.banner.Some? ==> v.banner.value == error
  {
    if cart.None? || |cart.value.items| == 0 then EmptyCartView
    else FormView(if error != "" then Some(error) else None)
  }

  /** A failed entry fetch sets the error state, but with no cart the page
      shows the empty-cart view, so the message never appears. */
  lemma FailedEntryShowsEmptyView()
    ensures var e := EnterCheckout(CartFetchFailed);
            e.error == "Failed to load cart" && ViewOf(e.cart, e.error) == EmptyCartView
  {
  }

  /** Reply to `POST /shipping/quote`: a readable body (whatever its status)
      or a failure to get one. */
  datatype QuoteResponse = QuoteBody(shippingCost: Option<int>) | QuoteFailed

  /** The shipping cost shown: the quoted figure, or 0 when no quote was
      requested, none came back, or it was missing or zero. */
  function ShippingCost(quote: Option<QuoteResponse>): (c: int)
    ensures quote.Some? && quote.value.QuoteBody? ==> c == NumberOr0(quote.value.shippingCost)
    ensures quote.None? || quote.value.QuoteFailed? ==> c == 0
  {
    if quote.Some? && quote.value.QuoteBody? then NumberOr0(quote.value.shippingCost) else 0
  }

  /** The total beside the form: the subtotal plus the quoted shipping,
      or the bare subtotal without a usable quote. */
  function DisplayedTotal(cart: Cart, quote: Option<QuoteResponse>): (t: int)
    ensures quote.Some? && quote.value.QuoteBody? && quote.value.shippingCost.Some? ==>
              t == Subtotal(cart.items) + quote.value.shippingCost.value
    ensures quote.None? || quote.value.QuoteFailed? || quote.value == QuoteBody(None) ==>
              t == Subtotal(cart.items)
  {
    Subtotal(cart.items) + ShippingCost(quote)
  }

  // ----- the form and its payload -----------------------------------------

  datatype CheckoutForm = CheckoutForm(
    fullName: string,
    email: string,
    phone: string,
    shippingAddress: string,
    city: string,
    postalCode: string,
    country: string,
    billingSame: bool,
    billingAddress: string,
    billingCity: string,
    billingPostal: string,
    couponCode: string,
    paymentMethod: string)

  const RequiredFieldsError := "Please fill in all required fields"
  const EmptyCartError := "Cart is empty"
  const CheckoutFailedError := "Checkout failed"

  /** The seven fields the submit handler insists on. */
  predicate RequiredFilled(f: CheckoutForm) {
    && f.fullName != "" && f.email != "" && f.phone != ""
    && f.shippingAddress != "" && f.city != "" && f.postalCode != "" && f.country != ""
  }

  /** The flattened shipping address: line, city, postal code, country. */
  function ShippingLine(f: CheckoutForm): (r: string)
    ensures r == f.shippingAddress + ", " + f.city + ", " + f.postalCode + ", " + f.country
  {
    var parts := [f.shippingAddress, f.city, f.postalCode, f.country];
    assert parts[1..][1..][1..] == [f.country];
    assert JoinFields(parts[1..][1..]) == f.postalCode + ", " + f.country;
    assert JoinFields(parts[1..]) == f.city + ", " + (f.postalCode + ", " + f.country);
    assert JoinFields(parts) == f.shippingAddress + ", " + f.city + ", " + f.postalCode + ", " + f.country;
    JoinFields(parts)
  }

  /** The flattened billing address: empty when it is the shipping address;
      otherwise line, city and postal code, with no country. */
  function BillingLine(f: CheckoutForm): (r: string)
    ensures f.billingSame ==> r == ""
    ensures !f.billingSame ==> r == f.billingAddress + ", " + f.billingCity + ", " + f.billingPostal
  {
    if f.billingSame then ""
    else
      var parts := [f.billingAddress, f.billingCity, f.billingPostal];
      assert parts[1..][1..] == [f.billingPostal];
      assert JoinFields(parts[1..]) == f.billingCity + ", " + f.billingPostal;
      assert JoinFields(parts) == f.billingAddress + ", " + f.billingCity + ", " + f.billingPostal;
      JoinFields(parts)
  }

  /** The shipping line loses nothing when no part holds a comma: the four
      parts read back from it. */
  lemma ShippingLineRoundTrip(f: CheckoutForm)
    requires NoComma(f.shippingAddress) && NoComma(f.city) && NoComma(f.postalCode) && NoComma(f.country)
    ensures SplitFields(ShippingLine(f)) == [f.shippingAddress, f.city, f.postalCode, f.country]
  {
    SplitJoinFields([f.shippingAddress, f.city, f.postalCode, f.country]);
  }

  /** A separate billing line reads back as exactly three parts: the country
      is not sent. */
  lemma BillingLineRoundTrip(f: CheckoutForm)
    requires !f.billingSame
    requires NoComma(f.billingAddress) && NoComma(f.billingCity) && NoComma(f.billingPostal)
    ensures SplitFields(BillingLine(f)) == [f.billingAddress, f.billingCity, f.billingPostal]
  {
    SplitJoinFields([f.billingAddress, f.billingCity, f.billingPostal]);
  }

  /** `couponCode || undefined`: an empty code is left out of the body. */
  function CouponField(code: string): (r: Option<string>)
    ensures r.None? <==> code == ""
    ensures r.GetOr("") == code
  {
    if code == "" then None else Some(code)
  }

  /** The order-creation body built from the form. */
  function BuildPayload(f: CheckoutForm): (p: CheckoutPayload)
    ensures p.customer == Customer(f.fullName, f.email, f.phone, ShippingLine(f), BillingLine(f))
    ensures p.couponCode == CouponField(f.couponCode)
    ensures p.paymentMethod == f.paymentMethod
  {
    CheckoutPayload(
      Customer(f.fullName, f.email, f.phone, ShippingLine(f), BillingLine(f)),
      CouponField(f.couponCode),
      f.paymentMethod)
  }

  // ----- submission -------------------------------------------------------

  /** Reply to `POST /orders/checkout`. */
  datatype CheckoutResponse =
    | Created(order: Order)
    | CheckoutRejected(error: Option<string>, message: Option<string>)
    | CheckoutNetworkError(reason: string)

  /** The message shown for a failed submission: the body's `error`, else
      its `message`, else a generic one; a transport failure shows its own. */
  function FailureMessage(response: CheckoutResponse): (m: string)
    requires !response.Created?
    ensures response.CheckoutRejected? && response.error.Some? && response.error.value != "" ==> m == response.error.value
    ensures (response.CheckoutRejected? && (response.error.None? || response.error.value == "")
             && response.message.Some? && response.message.value != "") ==> m == response.message.value
    ensures (response.CheckoutRejected? && (response.error.None? || response.error.value == "")
             && (response.message.None? || response.message.value == "")) ==> m == CheckoutFailedError
    ensures response.CheckoutNetworkError? ==> m == response.reason
  {
    match response
    case CheckoutRejected(e, msg) => OrElse(e, OrElse(msg, CheckoutFailedError))
    case CheckoutNetworkError(msg) => msg
  }

  /** Where the browser goes next. */
  datatype Redirect = ToConfirmation(orderRef: string) | ToPayment(orderId: string)

  /** What a submit leaves behind: the body sent (if any), the error banner,
      whether the cash success card shows, the redirect and the store. */
  datatype CheckoutResult = CheckoutResult(
    sent: Option<CheckoutPayload>,
    error: string,
    cashSuccess: bool,
    redirect: Option<Redirect>,
    store: Store)

  /** The store after a successful submission: the order echo and the draft. */
  function PersistCheckout(store: Store, order: Order, payload: CheckoutPayload): (r: Store)
    ensures OrderDataKey in r && r[OrderDataKey] == OrderEcho(order)
    ensures CheckoutDataKey in r && r[CheckoutDataKey] == Draft(payload)
    ensures r.Keys == store.Keys + {OrderDataKey, CheckoutDataKey}
    ensures forall k :: k in store && k != OrderDataKey && k != CheckoutDataKey ==> r[k] == store[k]
  {
    Put(Put(store, OrderDataKey, OrderEcho(order)), CheckoutDataKey, Draft(payload))
  }

  /** The submit handler. `response` is what the server would answer; it is
      consulted only when a request is actually made. */
  function HandleCheckout(f: CheckoutForm, cart: Option<Cart>, response: CheckoutResponse, store: Store): (r: CheckoutResult)
    ensures !RequiredFilled(f) ==> r == CheckoutResult(None, RequiredFieldsError, false, None, store)
    ensures RequiredFilled(f) && cart.None? ==> r == CheckoutResult(None, EmptyCartError, false, None, store)
    ensures r.sent.Some? <==> RequiredFilled(f) && cart.Some?
    ensures r.sent.Some? ==> r.sent.value == BuildPayload(f)
    ensures r.redirect.Some? <==> r.sent.Some? && response.Created?
    ensures r.sent.Some? && response.Created? ==>
              && r.error == ""
              && r.store == PersistCheckout(store, response.order, BuildPayload(f))
              && r.cashSuccess == (f.paymentMethod == "cash")
              && r.redirect.value == (if f.paymentMethod == "cash"
                                      then ToConfirmation(response.order.orderRef)
                                      else ToPayment(response.order.id))
    ensures r.sent.Some? && !response.Created? ==>
              r.error == FailureMessage(response) && r.store == store && !r.cashSuccess
  {
    if !RequiredFilled(f) then
      CheckoutResult(None, RequiredFieldsError, false, None, store)
    else if cart.None? then
      CheckoutResult(None, EmptyCartError, false, None, store)
    else
      var payload := BuildPayload(f);
      match response
      case Created(order) =>
        var store' := PersistCheckout(store, order, payload);
        if f.paymentMethod == "cash" then
          CheckoutResult(Some(payload), "", true, Some(ToConfirmation(order.orderRef)), store')
        else
          CheckoutResult(Some(payload), "", false, Some(ToPayment(order.id)), store')
      case _ =>
        CheckoutResult(Some(payload), FailureMessage(response), false, None, store)
  }

  /** A missing required field stops the submit whatever the cart and the
      server would have done, and shows the same message. */
  lemma MissingFieldSendsNothing(f: CheckoutForm, cart: Option<Cart>, response: CheckoutResponse, store: Store)
    requires f.fullName == "" || f.email == "" || f.phone == "" || f.shippingAddress == ""
             || f.city == "" || f.postalCode == "" || f.country == ""
    ensures HandleCheckout(f, cart, response, store).sent.None?
    ensures HandleCheckout(f, cart, response, store).error == RequiredFieldsError
    ensures HandleCheckout(f, cart, response, store).store == store
  {
  }
}
