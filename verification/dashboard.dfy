/**
  The restaurant dashboard page: the action buttons offered per status, the URL
  it fetches, the client-side "active" filter and the header statistics.
*/
module Dashboard {
  import opened Common
  import opened Ordering
  import opened Orders
  import opened OrderRepository
  import OrderService
  import Routes

  /** `STATUS_ACTIONS`: the next statuses a button is shown for. */
  function StatusActions(st: Status): seq<Status> {
    match st
    case OrderPlaced => [OrderConfirmed, Cancelled]
    case OrderConfirmed => [Preparing, Cancelled]
    case Preparing => [ReadyForPickup, Cancelled]
    case ReadyForPickup => [OutForDelivery, Cancelled]
    case OutForDelivery => [Delivered]
    case Delivered => []
    case Cancelled => []
  }

  /** The action row is rendered only for a non-empty action list. */
  predicate ShowsActions(st: Status) {
    |StatusActions(st)| > 0
  }

  /**
    Every dashboard button is a move the service's table lists; the only table
    entry without a button is cancelling an order that is out for delivery.
  */
  lemma ActionsAgainstServiceTable(from: Status, to: Status)
    ensures to in StatusActions(from) ==> OrderService.ServiceTransition(from, to)
    ensures OrderService.ServiceTransition(from, to) && to !in StatusActions(from) <==>
      from == OutForDelivery && to == Cancelled
  {
  }

  /** Buttons are shown exactly for orders that are neither delivered nor cancelled. */
  lemma ShowsActionsIffActive(st: Status)
    ensures ShowsActions(st) <==> !st.IsTerminal()
  {
  }

  /** A cancel button is shown exactly where the service would allow the cancellation. */
  lemma CancelButtonMatchesService(st: Status)
    ensures Cancelled in StatusActions(st) <==> OrderService.CanCancel(st)
  {
  }

  // ---------------------------------------------------------------- fetching

  const ActiveStatusList: string := "order_placed,order_confirmed,preparing,ready_for_pickup,out_for_delivery"

  /** The `status` query parameter `fetchOrders` adds for a filter value, if any. */
  function StatusParam(filter: string): (p: Option<string>)
    ensures filter == "all" <==> p.None?
    ensures filter != "all" && filter != "active" ==> p == Some(filter)
  {
    if filter == "active" then Some(ActiveStatusList)
    else if filter != "all" then Some(filter)
    else None
  }

  /** The URL `fetchOrders` requests: always the restaurant, then the status parameter if any. */
  function OrdersUrl(restaurantId: string, filter: string): (url: string)
    ensures StartsWith(url, "/api/orders?restaurantId=" + restaurantId)
    ensures StatusParam(filter).None? ==> url == "/api/orders?restaurantId=" + restaurantId
    ensures StatusParam(filter).Some? ==> EndsWith(url, "&status=" + StatusParam(filter).value)
  {
    var head := "/api/orders?restaurantId=" + restaurantId;
    match StatusParam(filter)
    case None => head
    case Some(p) =>
      assert (head + ("&status=" + p))[..|head|] == head;
      assert (head + ("&status=" + p))[|head|..] == "&status=" + p;
      head + "&status=" + p
  }

  /**
    The comma-joined list is not a status, so on its own it would select nothing.
    This takes `status` to be a text column compared by equality; were it a
    PostgreSQL enum, the database would reject the literal instead.
  */
  lemma ActiveListIsNotAStatus(orders: seq<Order>)
    ensures ParseStatus(ActiveStatusList).None?
    ensures FindByStatus(orders, ActiveStatusList) == []
  {
  }

  /** `getActiveOrders`: the orders neither delivered nor cancelled, in their order (the service's own test). */
  function ActiveOrders(orders: seq<Order>): (r: seq<Order>)
    ensures forall i :: 0 <= i < |r| ==> r[i] in orders && !r[i].status.IsTerminal()
    ensures forall i :: 0 <= i < |orders| && !orders[i].status.IsTerminal() ==> orders[i] in r
    ensures forall o :: multiset(r)[o] == if o.status.IsTerminal() then 0 else multiset(orders)[o]
  {
    FilterMultiplicities(orders, OrderService.IsActive);
    Filter(orders, OrderService.IsActive)
  }

  /**
    The list the page shows: what `GET /api/orders` returns for the URL's
    parameters, narrowed on the client only for the "active" filter.
  */
  function ShownOrders(store: seq<Order>, restaurantId: string, filter: string): seq<Order>
    requires restaurantId != ""
  {
    var served := Routes.OrdersGet(store, None, Some(restaurantId), StatusParam(filter)).body.orders;
    if filter == "active" then ActiveOrders(served) else served
  }

  /**
    The route honours the restaurant before the status, so a specific status filter
    narrows nothing: it shows every order of the restaurant, as "all" does.
  */
  lemma StatusFilterDoesNotNarrow(store: seq<Order>, restaurantId: string, filter: string)
    requires restaurantId != "" && filter != "active"
    ensures ShownOrders(store, restaurantId, filter) == ShownOrders(store, restaurantId, "all")
    ensures ShownOrders(store, restaurantId, filter) == FindByRestaurantId(store, restaurantId)
  {
  }

  /** The "active" view is what the service computes as the restaurant's active orders. */
  lemma ActiveViewMatchesService(store: seq<Order>, restaurantId: string)
    requires restaurantId != ""
    ensures ShownOrders(store, restaurantId, "active") == OrderService.ActiveOrdersForRestaurant(store, restaurantId)
  {
  }

  // ---------------------------------------------------------------- statistics

  datatype DashboardStats = DashboardStats(total: nat, active: nat, delivered: nat, revenue: real)

  function IsDelivered(o: Order): bool { o.status == Delivered }

  /** `getOrderStats`: counts, and the revenue of delivered orders only. */
  function OrderStats(orders: seq<Order>): (s: DashboardStats)
    ensures s.total == |orders|
    ensures s.delivered == OrderService.StatusCount(orders, Delivered)
    ensures s.active == |orders| - OrderService.StatusCount(orders, Delivered) - OrderService.StatusCount(orders, Cancelled)
    ensures s.revenue == OrderService.SumTotals(Filter(orders, IsDelivered))
  {
    StatusPartition(orders);
    DashboardStats(|orders|, |ActiveOrders(orders)|, |Filter(orders, IsDelivered)|,
                   OrderService.SumTotals(Filter(orders, IsDelivered)))
  }

  /** Every order is active, delivered or cancelled, and exactly one of the three. */
  lemma {:induction false} StatusPartition(orders: seq<Order>)
    ensures |Filter(orders, IsDelivered)| == OrderService.StatusCount(orders, Delivered)
    ensures |ActiveOrders(orders)| + OrderService.StatusCount(orders, Delivered)
          + OrderService.StatusCount(orders, Cancelled) == |orders|
  {
    if |orders| > 0 {
      StatusPartition(orders[1..]);
    }
  }

  /**
    With non-negative totals the dashboard's revenue never exceeds the service's:
    it counts delivered orders, the service every order not cancelled.
  */
  lemma RevenueBelowService(orders: seq<Order>)
    requires forall i :: 0 <= i < |orders| ==> orders[i].total >= 0.0
    ensures OrderStats(orders).revenue <= OrderService.Revenue(orders)
  {
    DeliveredSumBelow(orders);
  }

  /** The sum over the delivered orders is at most the sum over the orders not cancelled. */
  lemma {:induction false} DeliveredSumBelow(orders: seq<Order>)
    requires forall i :: 0 <= i < |orders| ==> orders[i].total >= 0.0
    ensures OrderService.SumTotals(Filter(orders, IsDelivered)) <= OrderService.SumTotals(Filter(orders, OrderService.NotCancelled))
  {
    if |orders| > 0 {
      var n := |orders|;
      var init := orders[..n - 1];
      var last := orders[n - 1];
      assert orders == init + [last];
      DeliveredSumBelow(init);
      FilterAppend(init, [last], IsDelivered);
      FilterAppend(init, [last], OrderService.NotCancelled);
      var d, c := Filter([last], IsDelivered), Filter([last], OrderService.NotCancelled);
      OrderService.SumTotalsAppend(Filter(init, IsDelivered), d);
      OrderService.SumTotalsAppend(Filter(init, OrderService.NotCancelled), c);
      assert OrderService.SumTotals([last]) == last.total by {
        assert [last][..0] == [];
      }
      assert OrderService.SumTotals(d) <= OrderService.SumTotals(c);
    }
  }

  /** The two revenues differ by the orders still in progress: any such order counts for the service and not for the dashboard. */
  lemma RevenuesDiffer(o: Order)
    requires !o.status.IsTerminal()
    ensures OrderStats([o]).revenue == 0.0
    ensures OrderService.Revenue([o]) == o.total
  {
    assert [o][..0] == [];
  }
}
