/** The cart page's handlers: the "+" and "−" steppers, confirmed removal of one line,
    and checkout, which turns the cart into an order request and clears the cart only
    once that request resolves. */
module CartPage {
  import opened Base
  import opened Seqs
  import opened CartSlice
  import opened AuthStore

  /** Flat shipping charge, in cents (Ksh 9.99). */
  const Shipping: int := 999

  /** Subtotal plus shipping, in cents: the figure shown and sent as the order total. */
  function CartTotal(cart: Cart): (r: int)
    ensures cart == [] ==> r == Shipping
    ensures PositiveQuantities(cart) ==> r >= Shipping
  {
    TotalAmount(cart) + Shipping
  }

  /** The "+" button: one more of a product already in the cart; nothing for any other id. */
  function AddQuantity(cart: Cart, id: string): (r: Cart)
    ensures !InCart(cart, id) ==> r == cart
    ensures InCart(cart, id) ==> QuantityOf(r, id) == QuantityOf(cart, id) + 1
    ensures forall other :: other != id ==> QuantityOf(r, other) == QuantityOf(cart, other)
    ensures TotalItems(r) == TotalItems(cart) + (if InCart(cart, id) then 1 else 0)
  {
    match FindIndex(cart, id)
    case None => cart
    case Some(k) =>
      var line := cart[k].(quantity := 1);
      AddItemTotals(cart, line);
      forall other ensures other != id ==> QuantityOf(AddItem(cart, line), other) == QuantityOf(cart, other) {
        AddItemQuantities(cart, line, other);
      }
      AddItem(cart, line)
  }

  /** The "−" button: `subtractItemQuantity` with a quantity of one. */
  function SubtractQuantity(cart: Cart, id: string): (r: Cart)
    ensures !InCart(cart, id) ==> r == cart
    ensures QuantityOf(r, id) == if QuantityOf(cart, id) > 1 then QuantityOf(cart, id) - 1 else 0
  {
    if !InCart(cart, id) then
      SubtractAbsentIsNoOp(cart, id, 1);
      SubtractItem(cart, id, 1)
    else SubtractItem(cart, id, 1)
  }

  /** On a cart with positive quantities, "−" takes exactly one away from the product
      (dropping its line when that was the last one) and leaves other products alone. */
  lemma SubtractQuantityTakesOne(cart: Cart, id: string, other: string)
    requires UniqueIds(cart) && PositiveQuantities(cart)
    ensures QuantityOf(SubtractQuantity(cart, id), id) ==
      QuantityOf(cart, id) - (if InCart(cart, id) then 1 else 0)
    ensures other != id ==> QuantityOf(SubtractQuantity(cart, id), other) == QuantityOf(cart, other)
  {
    SubtractItemQuantities(cart, id, 1, other);
  }

  /** The line named in the open confirmation dialog. */
  datatype ModalItem = ModalItem(id: string, name: string)

  datatype RemovalState = RemovalState(cart: Cart, modalItem: Option<ModalItem>)

  /** Confirming removal: when the dialog's product is in the cart with a quantity of at least
      one, its line is removed and the dialog's item is cleared; otherwise nothing happens. */
  function HandleRemoveFromCart(cart: Cart, modalItem: Option<ModalItem>): (r: RemovalState)
    ensures r.cart != cart ==> modalItem.Some? && InCart(cart, modalItem.value.id)
    ensures modalItem.Some? && InCart(cart, modalItem.value.id) &&
            QuantityOf(cart, modalItem.value.id) >= 1 ==>
      r.cart == RemoveItem(cart, modalItem.value.id) && r.modalItem.None?
    ensures !(modalItem.Some? && InCart(cart, modalItem.value.id) &&
              QuantityOf(cart, modalItem.value.id) >= 1) ==>
      r == RemovalState(cart, modalItem)
  {
    match modalItem
    case None => RemovalState(cart, modalItem)
    case Some(m) =>
      match FindIndex(cart, m.id)
      case Some(k) =>
        if cart[k].quantity >= 1 then RemovalState(RemoveItem(cart, m.id), None)
        else RemovalState(cart, modalItem)
      case None => RemovalState(cart, modalItem)
  }

  // ---------------------------------------------------------------------------
  // checkout
  // ---------------------------------------------------------------------------

  datatype OrderItem = OrderItem(productId: string, quantity: int)

  datatype OrderRequest = OrderRequest(userId: string, totalAmount: int, orderItems: seq<OrderItem>)

  datatype Navigation = Stay | ToLogin(from: string, message: string) | ToOrders

  /** What one checkout attempt leaves behind: the cart, the order request it sent (if any),
      and where it navigated. */
  datatype CheckoutState = CheckoutState(cart: Cart, request: Option<OrderRequest>, navigation: Navigation)

  const LoginMessage: string := "Please login to proceed with checkout"

  /** One `{productId, quantity}` per cart line, in cart order. */
  function ToOrderItems(cart: Cart): (r: seq<OrderItem>)
    ensures |r| == |cart|
    ensures forall i :: 0 <= i < |cart| ==> r[i].productId == cart[i].id && r[i].quantity == cart[i].quantity
  {
    if |cart| == 0 then [] else [OrderItem(cart[0].id, cart[0].quantity)] + ToOrderItems(cart[1..])
  }

  /** `handleCheckout`, with the settled order-creation call given as `createOrder`. */
  function HandleCheckout(cart: Cart, user: Option<User>, path: string, createOrder: Outcome): (r: CheckoutState)
    ensures user.None? ==> r == CheckoutState(cart, None, ToLogin(path, LoginMessage))
    ensures user.Some? ==> r.request.Some?
    ensures user.Some? ==> r.request.value.userId == user.value.id
    ensures user.Some? ==> r.request.value.totalAmount == TotalAmount(cart) + 999
    ensures user.Some? ==> |r.request.value.orderItems| == |cart|
    ensures user.Some? ==> forall i :: 0 <= i < |cart| ==>
      r.request.value.orderItems[i] == OrderItem(cart[i].id, cart[i].quantity)
    ensures user.Some? && createOrder == Resolved ==> r.cart == [] && r.navigation == ToOrders
    ensures user.Some? && createOrder == Rejected ==> r.cart == cart && r.navigation == Stay
  {
    match user
    case None => CheckoutState(cart, None, ToLogin(path, LoginMessage))
    case Some(u) =>
      var request := OrderRequest(u.id, CartTotal(cart), ToOrderItems(cart));
      match createOrder
      case Resolved => CheckoutState(ClearCart(cart), Some(request), ToOrders)
      case Rejected => CheckoutState(cart, Some(request), Stay)
  }

  /** The cart changes only when a request was sent and it resolved. */
  lemma CheckoutClearsOnlyOnSuccess(cart: Cart, user: Option<User>, path: string, createOrder: Outcome)
    requires HandleCheckout(cart, user, path, createOrder).cart != cart
    ensures HandleCheckout(cart, user, path, createOrder).request.Some?
    ensures createOrder == Resolved
    ensures HandleCheckout(cart, user, path, createOrder).cart == []
  {
  }

  /** The order items carry, in total, exactly the number of items the cart holds. */
  lemma {:induction false} OrderItemsCountItems(cart: Cart)
    ensures TotalItems(cart) == SumQuantities(ToOrderItems(cart))
  {
    if |cart| > 0 {
      OrderItemsCountItems(cart[1..]);
      assert ToOrderItems(cart)[1..] == ToOrderItems(cart[1..]);
    }
  }

  function SumQuantities(items: seq<OrderItem>): int
  {
    if |items| == 0 then 0 else items[0].quantity + SumQuantities(items[1..])
  }
}
