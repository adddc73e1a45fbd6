/** The cart page: the order-summary estimate, the quantity-update requests
    its buttons send, the toast after an update, and the guards on its
    controls. */
module CartPage {
  import opened Wrappers
  import opened Records

  /** Flat estimate applied to any non-empty cart. */
  const FlatShipping := 18
  const FlatDiscount := 10

  function Max(a: int, b: int): int {
    if a >= b then a else b
  }

  // ----- loading the cart -------------------------------------------------

  /** Outcome of `GET /cart`. */
  datatype CartResponse =
    | CartBody(cart: Cart)
    | CartHttpError
    | CartNetworkError

  /** What a fetch leaves behind: the cart held and the toast raised, if any. */
  datatype FetchOutcome = FetchOutcome(cart: Option<Cart>, toast: Option<Toast>)

  /** A fetch of the cart: a body replaces the cart, a non-2xx reply empties
      it silently, and a transport failure keeps whatever was held and
      raises the destructive "Failed to load cart" toast. */
  function CartAfterFetch(current: Option<Cart>, response: CartResponse): (r: FetchOutcome)
    ensures response.CartBody? ==> r.cart == Some(response.cart)
    ensures response.CartHttpError? ==> r.cart.None?
    ensures response.CartNetworkError? ==> r.cart == current
    ensures r.toast.Some? <==> response.CartNetworkError?
    ensures r.toast.Some? ==> r.toast == Some(Toast(true, "Error", "Failed to load cart"))
  {
    match response
    case CartBody(c) => FetchOutcome(Some(c), None)
    case CartHttpError => FetchOutcome(None, None)
    case CartNetworkError => FetchOutcome(current, Some(Toast(true, "Error", "Failed to load cart")))
  }

  // ----- summary ----------------------------------------------------------

  datatype Summary = Summary(subtotal: int, shipping: int, discount: int, total: int)

  /** The summary box. Shipping and discount are charged only on a positive
      subtotal, and the total is clamped at zero. */
  function CartSummary(cart: Option<Cart>): (s: Summary)
    ensures s.subtotal == (if cart.Some? then cart.value.subtotal else 0)
    ensures s.total >= 0
    ensures s.subtotal > 0 ==> s.shipping == 18 && s.discount == 10 && s.total == s.subtotal + 8
    ensures s.subtotal <= 0 ==> s.shipping == 0 && s.discount == 0 && s.total == 0
  {
    var subtotal := if cart.Some? then cart.value.subtotal else 0;
    var shipping := if subtotal > 0 then FlatShipping else 0;
    var discount := if subtotal > 0 then FlatDiscount else 0;
    Summary(subtotal, shipping, discount, Max(subtotal + shipping - discount, 0))
  }

  /** A bigger subtotal never shows a smaller total. */
  lemma CartTotalMonotone(a: Option<Cart>, b: Option<Cart>)
    requires CartSummary(a).subtotal <= CartSummary(b).subtotal
    ensures CartSummary(a).total <= CartSummary(b).total
  {
  }

  // ----- quantity updates -------------------------------------------------

  /** The `item` of the `PUT /cart/update` body. */
  datatype UpdateRequest = UpdateRequest(productId: string, quantity: int, variant: Option<Variant>)

  /** The keys of the `item` object as serialised: `variant` is spread in
      only when the line has one. */
  function UpdateBodyKeys(request: UpdateRequest): (keys: seq<string>)
    ensures |keys| == 2 + (if request.variant.Some? then 1 else 0)
    ensures keys[0] == "productId" && keys[1] == "quantity"
    ensures "variant" in keys <==> request.variant.Some?
    ensures forall i, j :: 0 <= i < j < |keys| ==> keys[i] != keys[j]
  {
    ["productId", "quantity"] + (if request.variant.Some? then ["variant"] else [])
  }

  /** The minus button: one fewer, never below zero. */
  function DecrementRequest(item: CartItem): (r: UpdateRequest)
    ensures r.productId == item.product.id && r.variant == item.variant
    ensures r.quantity >= 0
    ensures item.quantity >= 1 ==> r.quantity == item.quantity - 1
    ensures item.quantity < 1 ==> r.quantity == 0
  {
    UpdateRequest(item.product.id, Max(0, item.quantity - 1), item.variant)
  }

  /** The plus button: one more. */
  function IncrementRequest(item: CartItem): (r: UpdateRequest)
    ensures r.productId == item.product.id && r.variant == item.variant
    ensures r.quantity == item.quantity + 1
  {
    UpdateRequest(item.product.id, item.quantity + 1, item.variant)
  }

  /** The remove button: an update to quantity zero for the same line. */
  function RemoveRequest(productId: string, variant: Option<Variant>): (r: UpdateRequest)
    ensures r.productId == productId && r.variant == variant
    ensures r.quantity == 0
  {
    UpdateRequest(productId, 0, variant)
  }

  /** Decrement undoes increment on any non-negative quantity. */
  lemma DecrementUndoesIncrement(item: CartItem)
    requires item.quantity >= 0
    ensures DecrementRequest(item.(quantity := IncrementRequest(item).quantity))
            == UpdateRequest(item.product.id, item.quantity, item.variant)
  {
  }

  /** Decrementing the last unit sends exactly what the remove button sends. */
  lemma LastUnitDecrementIsRemove(item: CartItem)
    requires item.quantity <= 1
    ensures DecrementRequest(item) == RemoveRequest(item.product.id, item.variant)
  {
  }

  /** Outcome of the update call. */
  datatype UpdateResponse =
    | Updated
    | UpdateRejected(error: Option<string>)
    | UpdateNetworkError(message: string)

  datatype Toast = Toast(destructive: bool, title: string, description: string)

  /** The toast shown once an update settles. */
  function UpdateToast(request: UpdateRequest, response: UpdateResponse): (t: Option<Toast>)
    ensures response.Updated? ==> (t.Some? <==> request.quantity == 0)
    ensures response.Updated? && request.quantity == 0 ==>
              t == Some(Toast(false, "Item removed", "Item removed from cart"))
    ensures t.Some? && !t.value.destructive ==> response.Updated? && t.value.title == "Item removed"
    ensures response.UpdateRejected? ==> t == Some(Toast(true, "Error", OrElse(response.error, "Failed to update cart")))
    ensures response.UpdateNetworkError? ==> t == Some(Toast(true, "Error", response.message))
  {
    match response
    case Updated =>
      if request.quantity == 0 then Some(Toast(false, "Item removed", "Item removed from cart")) else None
    case UpdateRejected(e) => Some(Toast(true, "Error", OrElse(e, "Failed to update cart")))
    case UpdateNetworkError(m) => Some(Toast(true, "Error", m))
  }

  // ----- guards and line identity -----------------------------------------

  /** The line's buttons are disabled while the single `updatingItemId`
      slot holds its product's id. */
  predicate LineBusy(updating: Option<string>, item: CartItem) {
    updating == Some(item.product.id)
  }

  /** An update of a product starting, or settling (success or failure). */
  datatype SlotEvent = Start(productId: string) | Settle(productId: string)

  /** Starting writes the product id into the slot; settling clears the slot,
      whichever product it held. */
  function SlotAfter(updating: Option<string>, e: SlotEvent): Option<string> {
    match e
    case Start(id) => Some(id)
    case Settle(_) => None
  }

  /** The slot after a run of events, starting from its initial `null`. */
  function Slot(events: seq<SlotEvent>): Option<string>
    decreases |events|
  {
    if events == [] then None else SlotAfter(Slot(events[..|events| - 1]), events[|events| - 1])
  }

  /** The number of updates of a product still in flight after a run of
      events. */
  function InFlight(events: seq<SlotEvent>, productId: string): (n: nat)
    ensures n <= |events|
    decreases |events|
  {
    if events == [] then 0
    else
      var prior := InFlight(events[..|events| - 1], productId);
      match events[|events| - 1]
      case Start(id) => if id == productId then prior + 1 else prior
      case Settle(id) => if id == productId && prior > 0 then prior - 1 else prior
  }

  /** A line is busy exactly when the last event started an update of its
      product: an earlier start is forgotten once another starts, and any
      settle frees every line. */
  lemma {:induction false} BusyIsLastStart(events: seq<SlotEvent>, item: CartItem)
    ensures LineBusy(Slot(events), item) <==>
              |events| > 0 && events[|events| - 1] == Start(item.product.id)
  {
    if events != [] {
      assert Slot(events) == SlotAfter(Slot(events[..|events| - 1]), events[|events| - 1]);
    }
  }

  /** Two overlapping updates of different products: once the second one
      starts, and again once it settles, the first product's lines are
      enabled while its own request is still in flight. */
  lemma OverlapReleasesFirst(a: CartItem, other: string)
    requires other != a.product.id
    ensures var events := [Start(a.product.id), Start(other)];
            InFlight(events, a.product.id) == 1 && !LineBusy(Slot(events), a)
    ensures var events := [Start(a.product.id), Start(other), Settle(other)];
            InFlight(events, a.product.id) == 1 && !LineBusy(Slot(events), a)
  {
    var events := [Start(a.product.id), Start(other), Settle(other)];
    assert events[..2] == [Start(a.product.id), Start(other)];
    assert events[..2][..1] == [Start(a.product.id)];
    assert events[..2][..1][..0] == [];
  }

  /** While the slot holds a product, it disables exactly that product's
      lines: every variant of it, and no line of another product. */
  lemma BusyIsPerProduct(updating: Option<string>, a: CartItem, b: CartItem)
    requires LineBusy(updating, a)
    ensures LineBusy(updating, b) <==> b.product.id == a.product.id
  {
  }

  /** "Proceed to Checkout" is marked disabled unless there is at least one
      line. */
  predicate CanProceed(cart: Option<Cart>) {
    cart.Some? && |cart.value.items| > 0
  }

  /** A cart that failed to load from the initial state shows an all-zero
      summary and its checkout button is marked disabled. */
  lemma FailedLoadShowsEmpty(response: CartResponse)
    requires !response.CartBody?
    ensures CartSummary(CartAfterFetch(None, response).cart) == Summary(0, 0, 0, 0)
    ensures !CanProceed(CartAfterFetch(None, response).cart)
  {
  }

  function SizeOf(item: CartItem): string {
    if item.variant.Some? then item.variant.value.size.GetOr("") else ""
  }

  function ColorOf(item: CartItem): string {
    if item.variant.Some? then item.variant.value.color.GetOr("") else ""
  }

  /** The list key as the page writes it: the three parts joined by '-'. */
  function LineKeyString(item: CartItem): string {
    item.product.id + "-" + SizeOf(item) + "-" + ColorOf(item)
  }

  /** Two different lines of the same product can get the same joined key
      once a size or colour holds a '-'. */
  lemma LineKeyStringCollides()
    ensures var a := CartItem(Product("p", "n", 1, []), 1, Some(Variant(Some("50-ml"), None)));
            var b := CartItem(Product("p", "n", 1, []), 1, Some(Variant(Some("50"), Some("ml-"))));
            LineKey(a) != LineKey(b) && LineKeyString(a) == LineKeyString(b)
  {
    var a := CartItem(Product("p", "n", 1, []), 1, Some(Variant(Some("50-ml"), None)));
    var b := CartItem(Product("p", "n", 1, []), 1, Some(Variant(Some("50"), Some("ml-"))));
    assert SizeOf(a) != SizeOf(b);
    assert LineKeyString(a) == "p-50-ml-";
    assert LineKeyString(b) == "p-50-ml-";
  }

  /** A line's identity: product, size or "", colour or "". */
  function LineKey(item: CartItem): (k: (string, string, string))
    ensures k.0 == item.product.id
    ensures item.variant.None? ==> k.1 == "" && k.2 == ""
    ensures item.variant.Some? ==> k.1 == item.variant.value.size.GetOr("") && k.2 == item.variant.value.color.GetOr("")
  {
    (item.product.id, SizeOf(item), ColorOf(item))
  }

  /** Lines of one product that differ in size or colour have different
      identities, whatever characters those hold. */
  lemma LineKeySeparatesVariants(a: CartItem, b: CartItem)
    ensures LineKey(a) == LineKey(b) <==>
            a.product.id == b.product.id && SizeOf(a) == SizeOf(b) && ColorOf(a) == ColorOf(b)
  {
  }
}
