/**
  The customer's order-history page: the search form, how a fetch response
  updates the page, and the status/date filter with its newest-first sort.
  The calendar arithmetic behind the date ranges is outside the model: the
  three cutoffs and the current time are parameters.
*/
module OrderHistory {
  import opened Common
  import opened Ordering
  import opened Orders
  import opened OrderRepository
  import JsString

  /** `handleSearch`: the trimmed email to fetch, or nothing when it is blank. */
  function SearchEmail(input: string): (r: Option<string>)
    ensures r.None? <==> forall i :: 0 <= i < |input| ==> JsString.IsSpace(input[i])
    ensures r.Some? ==> r.value == JsString.Trim(input) && |r.value| > 0
    ensures r.Some? ==> !JsString.IsSpace(r.value[0]) && !JsString.IsSpace(r.value[|r.value| - 1])
  {
    var t := JsString.Trim(input);
    if t != "" then Some(t) else None
  }

  /** The page state a fetch writes. */
  datatype Page = Page(orders: seq<OrderWithItems>, error: string)

  /** What `fetch` produced: a response with its status and decoded list, or a thrown error. */
  datatype Reply = Reply(status: int, body: seq<OrderWithItems>) | Failure

  const FetchFailed: string := "Failed to fetch orders"

  /** `response.ok`. */
  predicate Ok(status: int) { 200 <= status <= 299 }

  /**
    `fetchOrders` after the request: a success replaces the list and clears the
    error; a 404 empties the list with no error; any other failure sets the error
    and keeps the list shown before.
  */
  function OnReply(p: Page, reply: Reply): (r: Page)
    ensures reply.Reply? && Ok(reply.status) ==> r == Page(reply.body, "")
    ensures reply.Reply? && reply.status == 404 ==> r == Page([], "")
    ensures r.error == "" <==> reply.Reply? && (Ok(reply.status) || reply.status == 404)
    ensures r.error != "" ==> r == p.(error := FetchFailed)
  {
    match reply
    case Failure => p.(error := FetchFailed)
    case Reply(status, body) =>
      if !Ok(status) then
        if status == 404 then Page([], "") else p.(error := FetchFailed)
      else Page(body, "")
  }

  /** A 404 reads as "no orders yet", not as an error, unlike a 500. */
  lemma NotFoundIsEmptyHistory(p: Page)
    ensures OnReply(p, Reply(404, [])) == OnReply(p, Reply(200, []))
    ensures OnReply(p, Reply(500, [])).error == FetchFailed && OnReply(p, Reply(500, [])).orders == p.orders
  {
  }

  // ---------------------------------------------------------------- filtering

  /**
    The cutoff for a date range: none for "all"; for the three named ranges the
    given instants; any other value keeps `cutoffDate` at the current time.
  */
  function Cutoff(range: string, now: int, weekAgo: int, monthAgo: int, threeMonthsAgo: int): (c: Option<int>)
    ensures range == "all" <==> c.None?
  {
    if range == "all" then None
    else if range == "week" then Some(weekAgo)
    else if range == "month" then Some(monthAgo)
    else if range == "3months" then Some(threeMonthsAgo)
    else Some(now)
  }

  /** The two filters `filterOrders` applies. */
  predicate Keep(o: OrderWithItems, status: string, cutoff: Option<int>) {
    && (status == "all" || o.order.status.Name() == status)
    && (cutoff.None? || o.order.createdAt >= cutoff.value)
  }

  /** The page sorts by its orders' creation time, newest first, as the repository does. */
  function HistoryOrder(o: OrderWithItems): SortKey {
    OrderRepository.NewestFirst(o.order)
  }

  /** The status step: exact matches on the status name, unless "all". */
  function ByStatus(orders: seq<OrderWithItems>, status: string): seq<OrderWithItems> {
    if status != "all" then Filter(orders, (o: OrderWithItems) => o.order.status.Name() == status) else orders
  }

  /** The date step: orders created at or after the cutoff, if there is one. */
  function ByDate(orders: seq<OrderWithItems>, cutoff: Option<int>): seq<OrderWithItems> {
    if cutoff.Some? then Filter(orders, (o: OrderWithItems) => o.order.createdAt >= cutoff.value) else orders
  }

  /**
    `filterOrders`: a copy filtered by status (unless "all") and by creation
    time (unless no cutoff), then sorted newest first.
  */
  function FilterOrders(orders: seq<OrderWithItems>, status: string, cutoff: Option<int>): (r: seq<OrderWithItems>)
    ensures multiset(r) == multiset(Filter(orders, o => Keep(o, status, cutoff)))
    ensures forall i :: 0 <= i < |r| ==> r[i] in orders && Keep(r[i], status, cutoff)
    ensures forall i :: 0 <= i < |orders| && Keep(orders[i], status, cutoff) ==> orders[i] in r
    ensures SortedBy(r, HistoryOrder)
  {
    FilterTwice(orders, status, cutoff);
    var kept := Filter(orders, o => Keep(o, status, cutoff));
    var r := SortBy(ByDate(ByStatus(orders, status), cutoff), HistoryOrder);
    SameElements(r, kept);
    r
  }

  /** Two sequences with the same multiset hold the same elements. */
  lemma SameElements<T>(a: seq<T>, b: seq<T>)
    requires multiset(a) == multiset(b)
    ensures forall i :: 0 <= i < |a| ==> a[i] in b
    ensures forall i :: 0 <= i < |b| ==> b[i] in a
  {
    forall i | 0 <= i < |a| ensures a[i] in b {
      assert a[i] in multiset(a);
    }
    forall i | 0 <= i < |b| ensures b[i] in a {
      assert b[i] in multiset(b);
    }
  }

  /** Filtering by status and then by date keeps exactly what `Keep` keeps, in order. */
  lemma {:induction false} FilterTwice(orders: seq<OrderWithItems>, status: string, cutoff: Option<int>)
    ensures ByDate(ByStatus(orders, status), cutoff) == Filter(orders, o => Keep(o, status, cutoff))
  {
    if |orders| > 0 {
      FilterTwice(orders[1..], status, cutoff);
    }
  }

  /** With both filters off the page shows every order, just reordered. */
  lemma AllKeepsEverything(orders: seq<OrderWithItems>)
    ensures multiset(FilterOrders(orders, "all", None)) == multiset(orders)
  {
    KeepAll(orders);
  }

  lemma {:induction false} KeepAll(orders: seq<OrderWithItems>)
    ensures Filter(orders, o => Keep(o, "all", None)) == orders
  {
    if |orders| > 0 {
      KeepAll(orders[1..]);
      assert orders == [orders[0]] + orders[1..];
    }
  }

  /**
    A range other than the four the form offers leaves the cutoff at the current
    time: only orders created at or after now pass the date step, whatever the status.
  */
  lemma UnknownRangeKeepsFutureOnly(o: OrderWithItems, range: string, status: string, now: int, w: int, m: int, t: int)
    requires range != "all" && range != "week" && range != "month" && range != "3months"
    ensures Cutoff(range, now, w, m, t) == Some(now)
    ensures Keep(o, status, Cutoff(range, now, w, m, t)) <==>
      (status == "all" || o.order.status.Name() == status) && o.order.createdAt >= now
  {
  }
}
