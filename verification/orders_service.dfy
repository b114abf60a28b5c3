/** Loading a user's orders: the request's outcome is checked, and every fetched order has
    its optional fields given defaults before the order list page sees it. */
module OrdersService {
  import opened Base

  datatype OrderLine = OrderLine(productId: string, quantity: int)

  /** An order as the server sends it; any of the defaulted fields may be missing. A
      missing amount or status and an empty status or date count as absent alike. */
  datatype RawOrder = RawOrder(
    id: string,
    userId: string,
    createdAt: Option<string>,
    status: Option<string>,
    totalAmount: Option<int>,
    orderItems: Option<seq<OrderLine>>,
    delivery: Option<seq<string>>)

  /** An order with every field present. */
  datatype Order = Order(
    id: string,
    userId: string,
    createdAt: string,
    status: string,
    totalAmount: int,
    orderItems: seq<OrderLine>,
    delivery: seq<string>)

  const DefaultStatus: string := "pending"

  const NoOrdersMessage: string := "Failed to fetch orders: Error: No orders found for this user"

  /** JavaScript's `x || fallback` on an optional string: the empty string is falsy too. */
  function OrString(x: Option<string>, fallback: string): (r: string)
    ensures x.Some? && x.value != "" ==> r == x.value
    ensures x.None? || x.value == "" ==> r == fallback
  {
    match x
    case Some(v) => if v != "" then v else fallback
    case None => fallback
  }

  /** The per-order defaulting; `now` is the current time as an ISO string. */
  function WithDefaults(o: RawOrder, now: string): (r: Order)
    ensures r.id == o.id && r.userId == o.userId
    ensures r.status == OrString(o.status, DefaultStatus)
    ensures r.createdAt == OrString(o.createdAt, now)
    ensures o.totalAmount.Some? ==> r.totalAmount == o.totalAmount.value
    ensures o.totalAmount.None? ==> r.totalAmount == 0
    ensures o.orderItems.Some? ==> r.orderItems == o.orderItems.value
    ensures o.orderItems.None? ==> r.orderItems == []
    ensures o.delivery.Some? ==> r.delivery == o.delivery.value
    ensures o.delivery.None? ==> r.delivery == []
  {
    Order(
      o.id,
      o.userId,
      OrString(o.createdAt, now),
      OrString(o.status, DefaultStatus),
      match o.totalAmount case Some(a) => a case None => 0,
      match o.orderItems case Some(items) => items case None => [],
      match o.delivery case Some(d) => d case None => [])
  }

  /** An order that arrives complete is left as it is. */
  lemma CompleteOrderUnchanged(o: RawOrder, now: string)
    requires o.createdAt.Some? && o.createdAt.value != ""
    requires o.status.Some? && o.status.value != ""
    requires o.totalAmount.Some? && o.orderItems.Some? && o.delivery.Some?
    ensures WithDefaults(o, now) == Order(o.id, o.userId, o.createdAt.value, o.status.value,
      o.totalAmount.value, o.orderItems.value, o.delivery.value)
  {
  }

  /** The defaults are a fixed point: re-sending a defaulted order defaults to itself. */
  lemma DefaultsIdempotent(o: RawOrder, now: string, later: string)
    requires now != ""
    ensures var d := WithDefaults(o, now);
      WithDefaults(RawOrder(d.id, d.userId, Some(d.createdAt), Some(d.status), Some(d.totalAmount),
        Some(d.orderItems), Some(d.delivery)), later) == d
  {
  }

  /** Defaults every order of a response, in order. */
  function DefaultAll(orders: seq<RawOrder>, now: string): (r: seq<Order>)
    ensures |r| == |orders|
    ensures forall i :: 0 <= i < |orders| ==> r[i] == WithDefaults(orders[i], now)
  {
    if |orders| == 0 then [] else [WithDefaults(orders[0], now)] + DefaultAll(orders[1..], now)
  }

  /** The query function of `useGetOrders`: `data` is the response body when the request
      succeeds. A failed request, a missing body or an empty list is an error. */
  function LoadOrders(api: Outcome, data: Option<seq<RawOrder>>, now: string): (r: Result<seq<Order>>)
    ensures api == Rejected ==> r.Err?
    ensures data.None? || data.value == [] ==> r.Err?
    ensures r.Ok? ==> api == Resolved && data.Some? && |r.value| == |data.value| > 0
    ensures r.Ok? ==> forall i :: 0 <= i < |r.value| ==> r.value[i].id == data.value[i].id
    ensures api == Resolved && data.Some? && data.value != [] ==> r == Ok(DefaultAll(data.value, now))
  {
    match api
    case Rejected => Err("Failed to fetch orders: request failed")
    case Resolved =>
      match data
      case None => Err(NoOrdersMessage)
      case Some(orders) =>
        if |orders| == 0 then Err(NoOrdersMessage) else Ok(DefaultAll(orders, now))
  }

  /** A loaded list never holds an order without a status. */
  lemma LoadedStatusesNonEmpty(api: Outcome, data: Option<seq<RawOrder>>, now: string)
    requires LoadOrders(api, data, now).Ok?
    ensures forall o :: o in LoadOrders(api, data, now).value ==> o.status != ""
  {
  }
}
