/** The pages together: what the persisted keys carry from one page to the
    next along the card path (checkout, payment, confirmation) and the cash
    path (checkout, confirmation), and that every page keeps each key
    holding the kind of value it should. */
module Saga {
  import opened Wrappers
  import opened Records
  import opened Storage
  import opened CheckoutPage
  import opened PaymentPage
  import opened ConfirmationPage
  import opened ShopPage

  /** A card checkout hands over to payment by order id, and the payment page
      then rebuilds its summary from the echo alone, showing the echoed
      `totalAmount` whenever it is non-zero. */
  lemma CardCheckoutFeedsPayment(f: CheckoutForm, cart: Cart, order: Order, store: Store)
    requires RequiredFilled(f) && f.paymentMethod != "cash" && order.id != ""
    ensures var c := HandleCheckout(f, Some(cart), Created(order), store);
            && c.redirect == Some(ToPayment(order.id))
            && !c.cashSuccess
            && LoadOrderSummary(Some(order.id), c.store) == SummaryLoaded(SummaryOf(OrderEcho(order)))
            && (Truthy(order.totalAmount) ==>
                  PayButtonTotal(LoadOrderSummary(Some(order.id), c.store)) == order.totalAmount.value)
  {
  }

  /** A failed payment keeps the echo, so the summary can be rebuilt and the
      payment retried. */
  lemma FailedPaymentAllowsRetry(p: PaymentForm, orderId: string, response: PayResponse, store: Store)
    requires !response.Paid? && orderId != ""
    ensures var r := HandlePayment(p, Some(orderId), response, store);
            r.store == store && LoadOrderSummary(Some(orderId), r.store) == LoadOrderSummary(Some(orderId), store)
  {
  }

  /** After a successful payment neither checkout key is left, so the
      confirmation lookup carries the order reference alone. */
  lemma PaidLookupCarriesOnlyRef(f: CheckoutForm, cart: Cart, order: Order, p: PaymentForm, paid: Order,
                                 response: LookupResponse, store: Store)
    requires RequiredFilled(f) && f.paymentMethod != "cash" && order.id != ""
    requires ValidateCard(p).None? && paid.orderRef != ""
    ensures var c := HandleCheckout(f, Some(cart), Created(order), store);
            var pay := HandlePayment(p, Some(order.id), Paid(paid), c.store);
            && pay.confirmRef == Some(paid.orderRef)
            && OrderDataKey !in pay.store && CheckoutDataKey !in pay.store
            && LoadOrder(pay.confirmRef, pay.store, response).query == Some([("orderRef", paid.orderRef)])
  {
  }

  /** On the cash path the draft is still there when confirmation loads, and
      the required-field gate guarantees its email and phone are non-empty,
      so the lookup carries both. A successful load then drops the draft but
      leaves the order echo behind. */
  lemma CashLookupCarriesContact(f: CheckoutForm, cart: Cart, order: Order, found: Order, store: Store)
    requires RequiredFilled(f) && f.paymentMethod == "cash" && order.orderRef != ""
    ensures var c := HandleCheckout(f, Some(cart), Created(order), store);
            var conf := LoadOrder(Some(order.orderRef), c.store, Found(found));
            && c.cashSuccess
            && c.redirect == Some(ToConfirmation(order.orderRef))
            && conf.query == Some([("orderRef", order.orderRef), ("email", f.email), ("phone", f.phone)])
            && CheckoutDataKey !in conf.store
            && OrderDataKey in conf.store && conf.store[OrderDataKey] == OrderEcho(order)
  {
    var c := HandleCheckout(f, Some(cart), Created(order), store);
    assert c.store[CheckoutDataKey] == Draft(BuildPayload(f));
    var q := LookupParams(order.orderRef, c.store);
    assert ContactEmail(c.store) == f.email && ContactPhone(c.store) == f.phone;
    assert q[0] == ("orderRef", order.orderRef);
    assert |q| == 3 && q[1] == ("email", f.email) && q[2] == ("phone", f.phone);
    assert q == [("orderRef", order.orderRef), ("email", f.email), ("phone", f.phone)];
    var conf := LoadOrder(Some(order.orderRef), c.store, Found(found));
    assert conf.store == Remove(c.store, CheckoutDataKey);
    assert OrderDataKey in c.store && OrderDataKey != CheckoutDataKey;
  }

  /** Checkout keeps every key holding the right kind of value. */
  lemma CheckoutKeepsWellFormed(f: CheckoutForm, cart: Option<Cart>, response: CheckoutResponse, store: Store)
    requires WellFormed(store)
    ensures WellFormed(HandleCheckout(f, cart, response, store).store)
  {
  }

  /** Payment keeps every key holding the right kind of value. */
  lemma PaymentKeepsWellFormed(p: PaymentForm, orderId: Option<string>, response: PayResponse, store: Store)
    requires WellFormed(store)
    ensures WellFormed(HandlePayment(p, orderId, response, store).store)
  {
  }

  /** Confirmation keeps every key holding the right kind of value. */
  lemma ConfirmationKeepsWellFormed(orderRef: Option<string>, response: LookupResponse, store: Store)
    requires WellFormed(store)
    ensures WellFormed(LoadOrder(orderRef, store, response).store)
  {
  }

  /** The shop keeps every key holding the right kind of value. */
  lemma ShopKeepsWellFormed(param: Option<string>, current: Option<Audience>, store: Store)
    requires WellFormed(store)
    ensures WellFormed(ResolveAudience(param, current, store).store)
  {
  }
}
