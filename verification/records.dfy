/** The records the pages exchange with the backend, as already-decoded
    values. Money is an integer number of whole currency units; a field the
    JSON may leave out is an `Option`. */
module Records {
  import opened Wrappers

  datatype Variant = Variant(size: Option<string>, color: Option<string>)

  /** The populated `productId` of a cart line. */
  datatype Product = Product(id: string, name: string, price: int, images: seq<string>)

  datatype CartItem = CartItem(product: Product, quantity: int, variant: Option<Variant>)

  /** The server's cart. Its `_id` and `sessionId` drive no client decision
      and are not carried. */
  datatype Cart = Cart(items: seq<CartItem>, subtotal: int)

  datatype Customer = Customer(
    fullName: string,
    email: string,
    phone: string,
    shippingAddress: string,
    billingAddress: string)

  /** The body of the order-creation request; also the persisted checkout draft. */
  datatype CheckoutPayload = CheckoutPayload(
    customer: Customer,
    couponCode: Option<string>,
    paymentMethod: string)

  datatype OrderItem = OrderItem(name: string, price: int, quantity: int, variant: Option<Variant>)

  /** The server-created order: returned by checkout, persisted as the order
      echo, and fetched again by the confirmation page. */
  datatype Order = Order(
    id: string,
    orderRef: string,
    customer: Customer,
    items: seq<OrderItem>,
    subtotal: Option<int>,
    shippingCost: Option<int>,
    discount: Option<int>,
    loyaltyDiscount: Option<int>,
    totalAmount: Option<int>,
    paymentMethod: string,
    paymentStatus: string,
    orderStatus: string)
}
