/** The cart slice of the global store: an ordered list of cart lines, at most one per
    product id, updated by the reducers `addItemToCart`, `subtractItemQuantity`,
    `removeItemFromCart` and `clearCart`, and summarised by two selectors. */
module CartSlice {
  import opened Base
  import opened Seqs

  /** One product's presence in the cart. Prices are whole cents. */
  datatype CartItem = CartItem(
    id: string,
    name: string,
    currentPrice: nat,
    previousPrice: Option<nat>,
    quantity: int,
    imageUrl: string)

  type Cart = seq<CartItem>

  // ---------------------------------------------------------------------------
  // invariants and the keyed view of a cart
  // ---------------------------------------------------------------------------

  ghost predicate UniqueIds(cart: Cart)
  {
    forall i, j :: 0 <= i < j < |cart| ==> cart[i].id != cart[j].id
  }

  ghost predicate PositiveQuantities(cart: Cart)
  {
    forall i :: 0 <= i < |cart| ==> cart[i].quantity > 0
  }

  /** `cart.find(item => item.id === id)`, as the position of the first matching line. */
  function FindIndex(cart: Cart, id: string): (r: Option<nat>)
    ensures r.Some? ==> r.value < |cart| && cart[r.value].id == id
    ensures r.Some? ==> forall j :: 0 <= j < r.value ==> cart[j].id != id
    ensures r.None? <==> forall j :: 0 <= j < |cart| ==> cart[j].id != id
  {
    if |cart| == 0 then None
    else if cart[0].id == id then Some(0)
    else match FindIndex(cart[1..], id)
      case None => None
      case Some(k) => Some(k + 1)
  }

  predicate InCart(cart: Cart, id: string)
  {
    FindIndex(cart, id).Some?
  }

  /** The quantity the cart holds of product `id`: the keyed-multiset view of the cart. */
  function QuantityOf(cart: Cart, id: string): int
  {
    match FindIndex(cart, id)
    case None => 0
    case Some(k) => cart[k].quantity
  }

  /** Two carts with the same ids at the same positions locate every id alike. */
  lemma SameIdsSameIndex(a: Cart, b: Cart, id: string)
    requires |a| == |b|
    requires forall j :: 0 <= j < |a| ==> a[j].id == b[j].id
    ensures FindIndex(a, id) == FindIndex(b, id)
  {
    match FindIndex(a, id)
    case None =>
    case Some(k) =>
  }

  /** Appending a line keeps every earlier id where it was. */
  lemma AppendIndex(cart: Cart, line: CartItem, id: string)
    ensures FindIndex(cart + [line], id) ==
      if InCart(cart, id) then FindIndex(cart, id)
      else if line.id == id then Some(|cart|)
      else None
  {
    var r := cart + [line];
    match FindIndex(cart, id)
    case Some(k) =>
      assert r[k].id == id;
    case None =>
      if line.id == id {
        assert r[|cart|].id == id;
      }
  }

  // ---------------------------------------------------------------------------
  // reducers
  // ---------------------------------------------------------------------------

  /** `addItemToCart`: adds the payload quantity to the line with the payload's id, or
      appends the payload as a new line when no line has that id. */
  function AddItem(cart: Cart, payload: CartItem): (r: Cart)
    ensures InCart(cart, payload.id) ==> |r| == |cart|
    ensures InCart(cart, payload.id) ==>
      var k := FindIndex(cart, payload.id).value;
      && r[k].quantity == cart[k].quantity + payload.quantity
      && r[k].id == cart[k].id && r[k].name == cart[k].name
      && r[k].currentPrice == cart[k].currentPrice && r[k].previousPrice == cart[k].previousPrice
      && r[k].imageUrl == cart[k].imageUrl
      && forall j :: 0 <= j < |cart| && j != k ==> r[j] == cart[j]
    ensures !InCart(cart, payload.id) ==>
      |r| == |cart| + 1 && r[..|cart|] == cart && r[|cart|] == payload
  {
    match FindIndex(cart, payload.id)
    case Some(k) => cart[k := cart[k].(quantity := cart[k].quantity + payload.quantity)]
    case None => cart + [payload]
  }

  /** `removeItemFromCart`: drops every line with the given id. */
  function RemoveItem(cart: Cart, id: string): (r: Cart)
    ensures forall j :: 0 <= j < |r| ==> r[j].id != id
    ensures forall x :: x in cart && x.id != id ==> x in r
    ensures !InCart(r, id)
  {
    FilterMembers(cart, (line: CartItem) => line.id != id);
    Filter(cart, (line: CartItem) => line.id != id)
  }

  /** `subtractItemQuantity`: lowers the line's quantity when the result stays positive;
      otherwise drops every line with that id (which changes nothing when none has it). */
  function SubtractItem(cart: Cart, id: string, quantity: int): (r: Cart)
    ensures InCart(cart, id) && cart[FindIndex(cart, id).value].quantity - quantity > 0 ==>
      var k := FindIndex(cart, id).value;
      && |r| == |cart|
      && r[k] == cart[k].(quantity := cart[k].quantity - quantity)
      && forall j :: 0 <= j < |cart| && j != k ==> r[j] == cart[j]
    ensures !(InCart(cart, id) && cart[FindIndex(cart, id).value].quantity - quantity > 0) ==>
      !InCart(r, id) && forall x :: x in cart && x.id != id ==> x in r
    ensures !(InCart(cart, id) && cart[FindIndex(cart, id).value].quantity - quantity > 0) ==>
      r == RemoveItem(cart, id)
  {
    match FindIndex(cart, id)
    case Some(k) =>
      if cart[k].quantity - quantity > 0 then
        cart[k := cart[k].(quantity := cart[k].quantity - quantity)]
      else RemoveItem(cart, id)
    case None => RemoveItem(cart, id)
  }

  /** `clearCart`. */
  function ClearCart(cart: Cart): (r: Cart)
    ensures |r| == 0
  {
    []
  }

  // ---------------------------------------------------------------------------
  // selectors
  // ---------------------------------------------------------------------------

  function LineAmount(line: CartItem): int
  {
    line.currentPrice * line.quantity
  }

  /** `getTotalAmount`: Σ currentPrice × quantity, in cents. */
  function TotalAmount(cart: Cart): (r: int)
    ensures cart == [] ==> r == 0
    ensures PositiveQuantities(cart) ==> r >= 0
  {
    if |cart| == 0 then 0 else LineAmount(cart[0]) + TotalAmount(cart[1..])
  }

  /** `getTotalItems`: Σ quantity. */
  function TotalItems(cart: Cart): (r: int)
    ensures cart == [] ==> r == 0
    ensures PositiveQuantities(cart) ==> r >= |cart|
  {
    if |cart| == 0 then 0 else cart[0].quantity + TotalItems(cart[1..])
  }

  lemma {:induction false} TotalsOfConcat(a: Cart, b: Cart)
    ensures TotalAmount(a + b) == TotalAmount(a) + TotalAmount(b)
    ensures TotalItems(a + b) == TotalItems(a) + TotalItems(b)
  {
    if |a| == 0 {
      assert a + b == b;
    } else {
      assert (a + b)[1..] == a[1..] + b;
      TotalsOfConcat(a[1..], b);
    }
  }

  /** Replacing line `k` changes each total by exactly that line's difference. */
  lemma {:induction false} TotalsOfUpdate(cart: Cart, k: nat, line: CartItem)
    requires k < |cart|
    ensures TotalAmount(cart[k := line]) == TotalAmount(cart) - LineAmount(cart[k]) + LineAmount(line)
    ensures TotalItems(cart[k := line]) == TotalItems(cart) - cart[k].quantity + line.quantity
  {
    if k > 0 {
      assert cart[k := line][1..] == cart[1..][k - 1 := line];
      TotalsOfUpdate(cart[1..], k - 1, line);
    }
  }

  // ---------------------------------------------------------------------------
  // properties of the reducers
  // ---------------------------------------------------------------------------

  /** Adding keeps at most one line per id. */
  lemma AddItemKeepsUniqueIds(cart: Cart, payload: CartItem)
    requires UniqueIds(cart)
    ensures UniqueIds(AddItem(cart, payload))
  {
  }

  /** Adding a positive quantity keeps every quantity positive. */
  lemma AddItemKeepsPositive(cart: Cart, payload: CartItem)
    requires PositiveQuantities(cart)
    requires payload.quantity > 0
    ensures PositiveQuantities(AddItem(cart, payload))
  {
  }

  /** In the keyed view, adding raises the payload id's quantity by the payload quantity
      and leaves every other id's quantity alone. */
  lemma AddItemQuantities(cart: Cart, payload: CartItem, other: string)
    ensures QuantityOf(AddItem(cart, payload), payload.id) == QuantityOf(cart, payload.id) + payload.quantity
    ensures other != payload.id ==> QuantityOf(AddItem(cart, payload), other) == QuantityOf(cart, other)
  {
    var r := AddItem(cart, payload);
    if InCart(cart, payload.id) {
      SameIdsSameIndex(r, cart, payload.id);
      SameIdsSameIndex(r, cart, other);
    } else {
      AppendIndex(cart, payload, payload.id);
      AppendIndex(cart, payload, other);
    }
  }

  /** Adding raises the item count by the payload quantity and the amount by that quantity
      at the price of the line that receives it. */
  lemma AddItemTotals(cart: Cart, payload: CartItem)
    ensures TotalItems(AddItem(cart, payload)) == TotalItems(cart) + payload.quantity
    ensures TotalAmount(AddItem(cart, payload)) == TotalAmount(cart) +
      (if InCart(cart, payload.id) then cart[FindIndex(cart, payload.id).value].currentPrice
       else payload.currentPrice) * payload.quantity
  {
    match FindIndex(cart, payload.id)
    case Some(k) =>
      var line := cart[k].(quantity := cart[k].quantity + payload.quantity);
      assert AddItem(cart, payload) == cart[k := line];
      TotalsOfUpdate(cart, k, line);
      LineAmountGrows(cart[k], payload.quantity);
    case None =>
      assert AddItem(cart, payload) == cart + [payload];
      TotalsOfConcat(cart, [payload]);
      assert TotalAmount([payload]) == LineAmount(payload);
  }

  lemma LineAmountGrows(line: CartItem, q: int)
    ensures LineAmount(line.(quantity := line.quantity + q)) == LineAmount(line) + line.currentPrice * q
  {
  }

  /** Removing keeps the lines of other ids, in their order, and nothing else. */
  lemma RemoveItemKeepsOthersInOrder(cart: Cart, id: string) returns (idx: seq<int>)
    ensures Enumerates(idx, cart, RemoveItem(cart, id), (line: CartItem) => line.id != id)
  {
    idx := FilterEnumerates(cart, (line: CartItem) => line.id != id);
  }

  lemma RemoveItemKeepsInvariants(cart: Cart, id: string)
    requires UniqueIds(cart) && PositiveQuantities(cart)
    ensures UniqueIds(RemoveItem(cart, id)) && PositiveQuantities(RemoveItem(cart, id))
  {
    var idx := RemoveItemKeepsOthersInOrder(cart, id);
  }

  /** In the keyed view, removing zeroes the id's quantity and leaves every other id's alone. */
  lemma {:induction false} RemoveItemQuantities(cart: Cart, id: string, other: string)
    requires UniqueIds(cart)
    ensures QuantityOf(RemoveItem(cart, id), id) == 0
    ensures other != id ==> QuantityOf(RemoveItem(cart, id), other) == QuantityOf(cart, other)
  {
    if |cart| > 0 && other != id {
      var f := (line: CartItem) => line.id != id;
      RemoveItemQuantities(cart[1..], id, other);
      if f(cart[0]) {
        assert RemoveItem(cart, id) == [cart[0]] + RemoveItem(cart[1..], id);
        if cart[0].id != other {
          SameIdsSameIndex(cart[1..], cart[1..], other);
        }
      }
    }
  }

  /** Removing lowers the item count by the quantity the cart held of that id. */
  lemma {:induction false} RemoveItemTotals(cart: Cart, id: string)
    requires UniqueIds(cart)
    ensures TotalItems(RemoveItem(cart, id)) == TotalItems(cart) - QuantityOf(cart, id)
    ensures TotalAmount(RemoveItem(cart, id)) == TotalAmount(cart) -
      (if InCart(cart, id) then LineAmount(cart[FindIndex(cart, id).value]) else 0)
  {
    var f := (line: CartItem) => line.id != id;
    if |cart| > 0 {
      if cart[0].id == id {
        FilterAllMatch(cart[1..], f);
      } else {
        RemoveItemTotals(cart[1..], id);
      }
    }
  }

  /** Subtracting keeps at most one line per id and, with positive quantities, keeps them positive. */
  lemma SubtractItemKeepsInvariants(cart: Cart, id: string, quantity: int)
    requires UniqueIds(cart) && PositiveQuantities(cart)
    ensures UniqueIds(SubtractItem(cart, id, quantity))
    ensures PositiveQuantities(SubtractItem(cart, id, quantity))
  {
    RemoveItemKeepsInvariants(cart, id);
  }

  /** Subtracting from an id the cart does not hold changes nothing. */
  lemma SubtractAbsentIsNoOp(cart: Cart, id: string, quantity: int)
    requires !InCart(cart, id)
    ensures SubtractItem(cart, id, quantity) == cart
  {
    FilterAllMatch(cart, (line: CartItem) => line.id != id);
  }

  /** In the keyed view, subtracting leaves the id with what remains when that stays
      positive, with nothing otherwise, and leaves every other id alone. */
  lemma SubtractItemQuantities(cart: Cart, id: string, quantity: int, other: string)
    requires UniqueIds(cart)
    ensures QuantityOf(SubtractItem(cart, id, quantity), id) ==
      if InCart(cart, id) && QuantityOf(cart, id) - quantity > 0 then QuantityOf(cart, id) - quantity else 0
    ensures other != id ==> QuantityOf(SubtractItem(cart, id, quantity), other) == QuantityOf(cart, other)
  {
    var r := SubtractItem(cart, id, quantity);
    if InCart(cart, id) && QuantityOf(cart, id) - quantity > 0 {
      SameIdsSameIndex(r, cart, id);
      SameIdsSameIndex(r, cart, other);
    } else {
      RemoveItemQuantities(cart, id, other);
    }
  }

  lemma ClearCartKeepsInvariants(cart: Cart)
    ensures UniqueIds(ClearCart(cart)) && PositiveQuantities(ClearCart(cart))
    ensures TotalItems(ClearCart(cart)) == 0 && TotalAmount(ClearCart(cart)) == 0
  {
  }

  /** Adding 2 then 3 of one product to an empty cart leaves a single line of 5. */
  lemma AddTwiceMerges(line: CartItem)
    ensures var c := AddItem(AddItem([], line.(quantity := 2)), line.(quantity := 3));
      |c| == 1 && c[0].id == line.id && c[0].quantity == 5
  {
  }

  /** Subtracting 5 from a line of 3 removes the line. */
  lemma SubtractPastZeroRemoves(line: CartItem)
    requires line.quantity == 3
    ensures SubtractItem([line], line.id, 5) == []
  {
  }

  // ---------------------------------------------------------------------------
  // thunks: each awaits one call to the cart API, given here as its outcome
  // ---------------------------------------------------------------------------

  /** `deleteQuantityFromCart`: nothing for an absent id; otherwise, once the API call
      resolves, subtracts when the remaining quantity is positive and removes otherwise.
      A rejected call leaves the cart as it was. */
  function DeleteQuantityFromCart(cart: Cart, id: string, quantity: int, api: Outcome): (r: Cart)
    ensures !InCart(cart, id) ==> r == cart
    ensures api == Rejected ==> r == cart
  {
    match FindIndex(cart, id)
    case None => cart
    case Some(k) =>
      var newQuantity := cart[k].quantity - quantity;
      if api == Rejected then cart
      else if newQuantity > 0 then SubtractItem(cart, id, quantity)
      else RemoveItem(cart, id)
  }

  /** The thunk's own choice between subtracting and removing gives the same cart as
      `subtractItemQuantity` alone. */
  lemma DeleteQuantityAgreesWithSubtract(cart: Cart, id: string, quantity: int)
    requires InCart(cart, id)
    ensures DeleteQuantityFromCart(cart, id, quantity, Resolved) == SubtractItem(cart, id, quantity)
  {
  }

  /** `addToCartThunk`: once the API call resolves, adds the line; a rejected call changes nothing. */
  function AddToCartThunk(cart: Cart, payload: CartItem, api: Outcome): (r: Cart)
    ensures api == Rejected ==> r == cart
    ensures api == Resolved ==> r == AddItem(cart, payload)
    ensures api == Resolved ==> QuantityOf(r, payload.id) == QuantityOf(cart, payload.id) + payload.quantity
    ensures api == Resolved ==> forall other :: other != payload.id ==> QuantityOf(r, other) == QuantityOf(cart, other)
    ensures api == Resolved ==> TotalItems(r) == TotalItems(cart) + payload.quantity
  {
    AddItemTotals(cart, payload);
    AddItemQuantities(cart, payload, payload.id);
    forall other ensures other != payload.id ==> QuantityOf(AddItem(cart, payload), other) == QuantityOf(cart, other) {
      AddItemQuantities(cart, payload, other);
    }
    if api == Resolved then AddItem(cart, payload) else cart
  }

  /** `addQuantityToCart`: like `addToCartThunk`, but an existing line's name, prices and
      image are reused for the dispatched payload. */
  function AddQuantityToCart(cart: Cart, payload: CartItem, api: Outcome): (r: Cart)
    ensures r == AddToCartThunk(cart, payload, api)
  {
    if api == Rejected then cart
    else
      var sent := match FindIndex(cart, payload.id)
        case Some(k) => cart[k].(quantity := payload.quantity)
        case None => payload;
      AddItem(cart, sent)
  }
}
