/** The customer's order list: tabs that filter by status, a count on each tab, and a
    Details button that expands at most one order at a time. */
module OrdersPage {
  import opened Base
  import opened Seqs
  import opened OrdersService

  datatype Tab = All | Status(status: string)

  function HasStatus(status: string): Order -> bool
  {
    (o: Order) => o.status == status
  }

  /** `filteredOrders`: nothing before the orders are loaded; every order on the "all"
      tab; otherwise the orders of the tab's status, in their order. */
  function FilteredOrders(orders: Option<seq<Order>>, tab: Tab): (r: seq<Order>)
    ensures orders.None? ==> r == []
    ensures orders.Some? && tab == All ==> r == orders.value
    ensures tab.Status? ==> forall i :: 0 <= i < |r| ==> r[i].status == tab.status
    ensures orders.Some? ==> |r| <= |orders.value|
  {
    match orders
    case None => []
    case Some(os) =>
      match tab
      case All => os
      case Status(s) => Filter(os, HasStatus(s))
  }

  /** A status tab shows exactly the orders of that status, in their order. */
  lemma StatusTabKeepsExactlyMatches(os: seq<Order>, status: string) returns (idx: seq<int>)
    ensures Enumerates(idx, os, FilteredOrders(Some(os), Status(status)), HasStatus(status))
  {
    idx := FilterEnumerates(os, HasStatus(status));
  }

  /** The number of orders with the status, counted one by one. */
  function CountStatus(os: seq<Order>, status: string): nat
  {
    if |os| == 0 then 0
    else (if os[0].status == status then 1 else 0) + CountStatus(os[1..], status)
  }

  /** The figure on a tab's title: `orders?.length || 0` or the length of the filter. */
  function TabCount(orders: Option<seq<Order>>, tab: Tab): (r: nat)
    ensures orders.None? ==> r == 0
    ensures orders.Some? && tab == All ==> r == |orders.value|
    ensures orders.Some? ==> r <= |orders.value|
  {
    |FilteredOrders(orders, tab)|
  }

  /** A status tab's figure is the number of orders with that status; the "All" figure is
      the number of orders. */
  lemma {:induction false} TabCountCounts(os: seq<Order>, status: string)
    ensures TabCount(Some(os), Status(status)) == CountStatus(os, status)
    ensures TabCount(Some(os), All) == |os|
  {
    if |os| > 0 {
      TabCountCounts(os[1..], status);
      assert os == [os[0]] + os[1..];
      FilterConcat([os[0]], os[1..], HasStatus(status));
    }
  }

  /** Orders of three different statuses together never outnumber all orders. */
  lemma {:induction false} ThreeStatusesWithinAll(os: seq<Order>, a: string, b: string, c: string)
    requires a != b && b != c && a != c
    ensures CountStatus(os, a) + CountStatus(os, b) + CountStatus(os, c) <= |os|
  {
    if |os| > 0 {
      ThreeStatusesWithinAll(os[1..], a, b, c);
    }
  }

  /** The pending, shipped and delivered figures add up to at most the "All" figure. */
  lemma StatusTabsWithinAll(orders: Option<seq<Order>>)
    ensures TabCount(orders, Status("pending")) + TabCount(orders, Status("shipped")) +
      TabCount(orders, Status("delivered")) <= TabCount(orders, All)
  {
    if orders.Some? {
      TabCountCounts(orders.value, "pending");
      TabCountCounts(orders.value, "shipped");
      TabCountCounts(orders.value, "delivered");
      ThreeStatusesWithinAll(orders.value, "pending", "shipped", "delivered");
    }
  }

  // ---------------------------------------------------------------------------
  // expanded order
  // ---------------------------------------------------------------------------

  datatype View = View(activeTab: Tab, selectedOrder: Option<string>)

  predicate Expanded(v: View, orderId: string)
  {
    v.selectedOrder == Some(orderId)
  }

  /** The Details button of order `orderId`. */
  function ToggleDetails(v: View, orderId: string): (r: View)
    ensures r.activeTab == v.activeTab
    ensures Expanded(r, orderId) <==> !Expanded(v, orderId)
    ensures forall other :: other != orderId ==> !Expanded(r, other)
  {
    v.(selectedOrder := if v.selectedOrder == Some(orderId) then None else Some(orderId))
  }

  /** Pressing the same button twice from a collapsed list collapses it again. */
  lemma ToggleTwiceCollapses(v: View, orderId: string)
    requires v.selectedOrder.None?
    ensures ToggleDetails(ToggleDetails(v, orderId), orderId) == v
  {
  }

  /** Choosing a tab collapses any expanded order. */
  function SelectTab(v: View, tab: Tab): (r: View)
    ensures r.activeTab == tab
    ensures forall orderId :: !Expanded(r, orderId)
  {
    View(tab, None)
  }
}
