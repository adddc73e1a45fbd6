/** The browser-persisted keys the pages share, as a map from key to an
    already-decoded value. Checkout writes `orderData` and `checkoutData`,
    payment success clears both, confirmation success clears
    `checkoutData`, and the shop remembers the last audience. */
module Storage {
  import opened Records

  /** A stored value: the JSON of an order or a checkout draft, or a raw
      string that is not JSON (the audience key is written that way). */
  datatype Persisted =
    | OrderEcho(order: Order)
    | Draft(payload: CheckoutPayload)
    | Raw(text: string)

  type Store = map<string, Persisted>

  const OrderDataKey := "orderData"
  const CheckoutDataKey := "checkoutData"
  const AudienceKey := "blisora_audience"

  /** `localStorage.setItem`. */
  function Put(store: Store, key: string, value: Persisted): (r: Store)
    ensures key in r && r[key] == value
    ensures r.Keys == store.Keys + {key}
    ensures forall k :: k in store && k != key ==> r[k] == store[k]
  {
    store[key := value]
  }

  /** `localStorage.removeItem`: absent afterwards, every other key untouched. */
  function Remove(store: Store, key: string): (r: Store)
    ensures key !in r
    ensures r.Keys == store.Keys - {key}
    ensures forall k :: k in r ==> r[k] == store[k]
  {
    store - {key}
  }

  /** Every key the pages write holds the kind of value the pages write there. */
  ghost predicate WellFormed(store: Store) {
    && (OrderDataKey in store ==> store[OrderDataKey].OrderEcho?)
    && (CheckoutDataKey in store ==> store[CheckoutDataKey].Draft?)
    && (AudienceKey in store ==> store[AudienceKey].Raw?)
  }
}
