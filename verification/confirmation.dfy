/** The confirmation page: the guard on the `orderRef` parameter, the lookup
    parameters recovered from the persisted draft, the one-time removal of
    that draft, and the mapping of order and payment status to display
    tone and copy. */
module ConfirmationPage {
  import opened Wrappers
  import opened Records
  import opened Storage

  const NoOrderRefError := "No order reference found"
  const OrderNotFoundError := "Order not found"
  /** Stands for the message of the parser's own exception, which depends
      on the script engine. */
  const DraftParseError := "SyntaxError"

  // ----- lookup -----------------------------------------------------------

  /** `customer.email || ''` of the persisted draft, if any. */
  function ContactEmail(store: Store): string {
    if CheckoutDataKey !in store then ""
    else match store[CheckoutDataKey]
      case Draft(p) => p.customer.email
      case OrderEcho(o) => o.customer.email
      case Raw(_) => ""
  }

  /** `customer.phone || ''` of the persisted draft, if any. */
  function ContactPhone(store: Store): string {
    if CheckoutDataKey !in store then ""
    else match store[CheckoutDataKey]
      case Draft(p) => p.customer.phone
      case OrderEcho(o) => o.customer.phone
      case Raw(_) => ""
  }

  /** The query of `GET /orders`: always `orderRef` first, then `email` and
      `phone` from the draft, each only when non-empty. */
  function LookupParams(orderRef: string, store: Store): (r: seq<(string, string)>)
    ensures |r| >= 1 && r[0] == ("orderRef", orderRef)
    ensures (exists i :: 1 <= i < |r| && r[i] == ("email", ContactEmail(store))) <==> ContactEmail(store) != ""
    ensures (exists i :: 1 <= i < |r| && r[i] == ("phone", ContactPhone(store))) <==> ContactPhone(store) != ""
    ensures forall i :: 1 <= i < |r| ==> r[i].1 != "" && (r[i].0 == "email" || r[i].0 == "phone")
    ensures forall i :: 1 <= i < |r| && r[i].0 == "email" ==> r[i].1 == ContactEmail(store)
    ensures forall i :: 1 <= i < |r| && r[i].0 == "phone" ==> r[i].1 == ContactPhone(store)
    ensures CheckoutDataKey !in store ==> r == [("orderRef", orderRef)]
    ensures |r| == 1 + (if ContactEmail(store) != "" then 1 else 0) + (if ContactPhone(store) != "" then 1 else 0)
    ensures ContactEmail(store) != "" && ContactPhone(store) != "" ==> r[1].0 == "email" && r[2].0 == "phone"
  {
    var email := ContactEmail(store);
    var phone := ContactPhone(store);
    var es := if email != "" then [("email", email)] else [];
    var ps := if phone != "" then [("phone", phone)] else [];
    var r := [("orderRef", orderRef)] + es + ps;
    assert forall i :: 1 <= i < |r| ==> r[i] == (if i < 1 + |es| then es[i - 1] else ps[i - 1 - |es|]);
    assert email != "" ==> r[1] == ("email", email);
    assert phone != "" ==> r[1 + |es|] == ("phone", phone);
    r
  }

  /** The draft key holds non-empty text that is not JSON, so reading the
      contact details throws before any request is made. */
  predicate DraftUnreadable(store: Store) {
    CheckoutDataKey in store && store[CheckoutDataKey].Raw? && store[CheckoutDataKey].text != ""
  }

  /** Reply to the lookup. */
  datatype LookupResponse =
    | Found(order: Order)
    | NotFound
    | LookupNetworkError(reason: string)

  /** What loading leaves behind: the query sent (if any), the order shown,
      the error, and the store. */
  datatype ConfirmationResult = ConfirmationResult(
    query: Option<seq<(string, string)>>,
    order: Option<Order>,
    error: string,
    store: Store)

  /** The load on entry. `response` is consulted only when a request is made. */
  function LoadOrder(orderRef: Option<string>, store: Store, response: LookupResponse): (r: ConfirmationResult)
    ensures (orderRef.None? || orderRef.value == "") ==> r == ConfirmationResult(None, None, NoOrderRefError, store)
    ensures orderRef.Some? && orderRef.value != "" && DraftUnreadable(store) ==>
              r == ConfirmationResult(None, None, DraftParseError, store)
    ensures r.query.Some? <==> orderRef.Some? && orderRef.value != "" && !DraftUnreadable(store)
    ensures r.query.Some? ==> r.query.value == LookupParams(orderRef.value, store)
    ensures r.query.Some? && response.Found? ==>
              r.order == Some(response.order) && r.error == "" && r.store == Remove(store, CheckoutDataKey)
    ensures r.query.Some? && response.NotFound? ==>
              r.order.None? && r.error == OrderNotFoundError && r.store == store
    ensures r.query.Some? && response.LookupNetworkError? ==>
              r.order.None? && r.error == response.reason && r.store == store
  {
    if orderRef.None? || orderRef.value == "" then
      ConfirmationResult(None, None, NoOrderRefError, store)
    else if DraftUnreadable(store) then
      ConfirmationResult(None, None, DraftParseError, store)
    else
      var query := LookupParams(orderRef.value, store);
      match response
      case Found(order) => ConfirmationResult(Some(query), Some(order), "", Remove(store, CheckoutDataKey))
      case NotFound => ConfirmationResult(Some(query), None, OrderNotFoundError, store)
      case LookupNetworkError(reason) => ConfirmationResult(Some(query), None, reason, store)
  }

  /** Only a successful load touches the store, and then only the draft. */
  lemma LoadTouchesOnlyDraft(orderRef: Option<string>, store: Store, response: LookupResponse)
    ensures var r := LoadOrder(orderRef, store, response);
            forall k :: k != CheckoutDataKey ==>
              (k in r.store <==> k in store) && (k in store ==> r.store[k] == store[k])
    ensures var r := LoadOrder(orderRef, store, response);
            r.order.None? ==> r.store == store
  {
  }

  // ----- status display ---------------------------------------------------

  /** The colour family of a status panel. */
  datatype Tone = Yellow | Blue | Green

  /** The class list of a panel in that colour family. */
  function ToneClass(t: Tone): string {
    match t
    case Yellow => "bg-yellow-50 border-yellow-200 text-yellow-800"
    case Blue => "bg-blue-50 border-blue-200 text-blue-800"
    case Green => "bg-green-50 border-green-200 text-green-800"
  }

  /** The three class lists are distinct, so the tone can be read back
      from the class. */
  lemma ToneClassInjective(a: Tone, b: Tone)
    ensures ToneClass(a) == ToneClass(b) <==> a == b
  {
    ToneClassMark(a);
    ToneClassMark(b);
  }

  /** The fourth character of each class list names its colour. */
  lemma ToneClassMark(t: Tone)
    ensures |ToneClass(t)| > 3
    ensures ToneClass(t)[3] == (match t case Yellow => 'y' case Blue => 'b' case Green => 'g')
  {
  }

  /** Order status: pending is yellow, shipped blue, anything else green. */
  function OrderTone(status: string): (t: Tone)
    ensures t == Yellow <==> status == "pending"
    ensures t == Blue <==> status == "shipped"
    ensures t == Green <==> status != "pending" && status != "shipped"
  {
    if status == "pending" then Yellow else if status == "shipped" then Blue else Green
  }

  /** `statusColor`: the class list of the order-status panel. */
  function StatusColor(status: string): (c: string)
    ensures c == "bg-yellow-50 border-yellow-200 text-yellow-800" <==> status == "pending"
    ensures c == "bg-blue-50 border-blue-200 text-blue-800" <==> status == "shipped"
    ensures c == "bg-green-50 border-green-200 text-green-800" <==> status != "pending" && status != "shipped"
  {
    ToneClassInjective(OrderTone(status), Yellow);
    ToneClassInjective(OrderTone(status), Blue);
    ToneClassInjective(OrderTone(status), Green);
    ToneClass(OrderTone(status))
  }

  /** The sentence under the order status. */
  function OrderStatusMessage(status: string): (m: string)
    ensures OrderTone(status) == Yellow ==> m == "Your order is being prepared for shipment."
    ensures OrderTone(status) == Blue ==> m == "Your order is on its way to you."
    ensures OrderTone(status) == Green ==> m == "Your order has been delivered."
  {
    if status == "pending" then "Your order is being prepared for shipment."
    else if status == "shipped" then "Your order is on its way to you."
    else "Your order has been delivered."
  }

  /** Payment status: pending is yellow, anything else green; never blue. */
  function PaymentTone(status: string): (t: Tone)
    ensures t == Yellow <==> status == "pending"
    ensures t != Blue
  {
    if status == "pending" then Yellow else Green
  }

  /** `paymentStatusColor`: the class list of the payment-status panel. */
  function PaymentStatusColor(status: string): (c: string)
    ensures c == "bg-yellow-50 border-yellow-200 text-yellow-800" <==> status == "pending"
    ensures c == "bg-green-50 border-green-200 text-green-800" <==> status != "pending"
    ensures c != "bg-blue-50 border-blue-200 text-blue-800"
  {
    ToneClassInjective(PaymentTone(status), Yellow);
    ToneClassInjective(PaymentTone(status), Blue);
    ToneClassInjective(PaymentTone(status), Green);
    ToneClass(PaymentTone(status))
  }

  /** Pending reads the same in both panels; the panels part ways only on
      "shipped", which is blue for an order and green for a payment. */
  lemma TonesAgreeExceptShipped(status: string)
    ensures status != "shipped" ==> OrderTone(status) == PaymentTone(status)
    ensures status == "shipped" ==> OrderTone(status) == Blue && PaymentTone(status) == Green
  {
  }

  /** The note under a pending payment, by method. */
  function PaymentNote(paymentMethod: string, paymentStatus: string): (n: Option<string>)
    ensures n.Some? <==> paymentStatus == "pending" && (paymentMethod == "cash" || paymentMethod == "card")
    ensures n.Some? && paymentMethod == "cash" ==> n.value == "Payment will be collected on delivery."
    ensures n.Some? && paymentMethod == "card" ==> n.value == "Your card will be charged shortly."
  {
    if paymentStatus != "pending" then None
    else if paymentMethod == "cash" then Some("Payment will be collected on delivery.")
    else if paymentMethod == "card" then Some("Your card will be charged shortly.")
    else None
  }

  /** `order.discount > 0`: an absent discount is not shown. */
  predicate ShowsDiscount(order: Order) {
    order.discount.Some? && order.discount.value > 0
  }

  /** `order.loyaltyDiscount > 0`. */
  predicate ShowsLoyaltyDiscount(order: Order) {
    order.loyaltyDiscount.Some? && order.loyaltyDiscount.value > 0
  }

  /** A zero or negative figure is never shown as a discount line. */
  lemma DiscountLinesOnlyPositive(order: Order)
    ensures ShowsDiscount(order) <==> NumberOr0(order.discount) > 0
    ensures ShowsLoyaltyDiscount(order) <==> NumberOr0(order.loyaltyDiscount) > 0
  {
  }
}
