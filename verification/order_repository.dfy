/**
  `OrderRepository`: the `orders` table as a sequence of rows keyed by order id.
  Order ids and the clock are parameters. `updateStatus` is modelled twice: the
  statement as the source numbers its parameters, and the corrected numbering
  that the rest of the model uses.
*/
module OrderRepository {
  import opened Common
  import opened Ordering
  import opened Catalog
  import opened Orders
  import opened Table
  import opened Sql

  function OrderKey(o: Order): string { o.id }

  /** `ORDER BY created_at DESC`. */
  function NewestFirst(o: Order): SortKey { [IntDesc(o.createdAt)] }

  /** The column setter the UPDATE statements of this repository need. */
  function SetOrderColumn(o: Order, column: string, v: Value): Order {
    if column == "status" && v.Text? && ParseStatus(v.s).Some? then o.(status := ParseStatus(v.s).value)
    else if column == "actual_delivery_time" && v.Time? then o.(actualDeliveryTime := Some(v.t))
    else if column == "estimated_delivery_time" && v.Time? then o.(estimatedDeliveryTime := Some(v.t))
    else o
  }

  const DuplicateKey: string := "duplicate key value violates unique constraint \"orders_pkey\""

  /**
    `create`: inserts a row whose status is always order_placed, whatever the caller
    passed, with no actual delivery time, both timestamps `now`, and every other
    column copied from the data. An id already in the table is rejected.
  */
  function Create(rows: seq<Order>, data: NewOrder, id: string, now: int): (r: Result<(seq<Order>, Order)>)
    ensures r.Err? <==> Find(rows, OrderKey, id).Some?
    ensures r.Ok? ==>
      var (rows', o) := r.value;
      && rows' == rows + [o]
      && o.id == id && o.status == OrderPlaced && o.actualDeliveryTime.None?
      && o.estimatedDeliveryTime == data.estimatedDeliveryTime
      && o.restaurantId == data.restaurantId && o.customerName == data.customerName
      && o.customerEmail == data.customerEmail && o.customerPhone == data.customerPhone
      && o.deliveryAddress == data.deliveryAddress && o.paymentMethod == data.paymentMethod
      && o.paymentTransactionId == data.paymentTransactionId && o.specialInstructions == data.specialInstructions
      && o.subtotal == data.subtotal && o.tax == data.tax && o.deliveryFee == data.deliveryFee && o.total == data.total
      && o.createdAt == now && o.updatedAt == now
  {
    if Find(rows, OrderKey, id).Some? then Err(DuplicateKey)
    else
      var o := Order(id, data.restaurantId, data.customerName, data.customerEmail, data.customerPhone,
                     data.deliveryAddress, OrderPlaced, data.subtotal, data.tax, data.deliveryFee, data.total,
                     data.paymentMethod, data.paymentTransactionId, data.estimatedDeliveryTime, None,
                     data.specialInstructions, now, now);
      Ok((rows + [o], o))
  }

  /** Creating keeps primary keys unique, and the new order is then found under its id. */
  lemma CreateKeepsKeysUnique(rows: seq<Order>, data: NewOrder, id: string, now: int)
    requires UniqueKeys(rows, OrderKey)
    requires Create(rows, data, id, now).Ok?
    ensures var (rows', o) := Create(rows, data, id, now).value;
      UniqueKeys(rows', OrderKey) && Find(rows', OrderKey, id) == Some(o)
  {
    var (rows', o) := Create(rows, data, id, now).value;
    assert rows'[|rows|] == o;
    FindUnique(rows', OrderKey, |rows|);
  }

  function FindById(rows: seq<Order>, id: string): Option<Order> {
    Find(rows, OrderKey, id)
  }

  /** `findAll`: every order, newest first. */
  function FindAll(rows: seq<Order>): (r: seq<Order>)
    ensures |r| == |rows| && multiset(r) == multiset(rows)
    ensures SortedBy(r, NewestFirst)
  {
    var r := Select(rows, (o: Order) => true, NewestFirst);
    FilterAll(rows);
    r
  }

  lemma {:induction false} FilterAll(rows: seq<Order>)
    ensures Filter(rows, (o: Order) => true) == rows
  {
    if |rows| > 0 {
      FilterAll(rows[1..]);
      assert rows == [rows[0]] + rows[1..];
    }
  }

  /** `findByCustomerEmail`: exactly that customer's orders, newest first. */
  function FindByCustomerEmail(rows: seq<Order>, email: string): (r: seq<Order>)
    ensures forall i :: 0 <= i < |r| ==> r[i] in rows && r[i].customerEmail == email
    ensures forall i :: 0 <= i < |rows| && rows[i].customerEmail == email ==> rows[i] in r
    ensures multiset(r) == multiset(Filter(rows, (o: Order) => o.customerEmail == email))
    ensures SortedBy(r, NewestFirst)
  {
    Select(rows, (o: Order) => o.customerEmail == email, NewestFirst)
  }

  /** `findByRestaurantId`: exactly that restaurant's orders, newest first. */
  function FindByRestaurantId(rows: seq<Order>, restaurantId: string): (r: seq<Order>)
    ensures forall i :: 0 <= i < |r| ==> r[i] in rows && r[i].restaurantId == restaurantId
    ensures forall i :: 0 <= i < |rows| && rows[i].restaurantId == restaurantId ==> rows[i] in r
    ensures multiset(r) == multiset(Filter(rows, (o: Order) => o.restaurantId == restaurantId))
    ensures SortedBy(r, NewestFirst)
  {
    Select(rows, (o: Order) => o.restaurantId == restaurantId, NewestFirst)
  }

  /** `findByStatus`: the status text is compared as given, so an unknown status matches nothing. */
  function FindByStatus(rows: seq<Order>, status: string): (r: seq<Order>)
    ensures forall i :: 0 <= i < |r| ==> r[i] in rows && r[i].status.Name() == status
    ensures forall i :: 0 <= i < |rows| && rows[i].status.Name() == status ==> rows[i] in r
    ensures multiset(r) == multiset(Filter(rows, (o: Order) => o.status.Name() == status))
    ensures ParseStatus(status).None? ==> r == []
    ensures SortedBy(r, NewestFirst)
  {
    var r := Select(rows, (o: Order) => o.status.Name() == status, NewestFirst);
    if ParseStatus(status).None? then NoStatusHasUnknownName(status); r else r
  }

  lemma NoStatusHasUnknownName(s: string)
    requires ParseStatus(s).None?
    ensures forall st: Status :: st.Name() != s
  {
    forall st: Status ensures st.Name() != s {
      ParseStatusName(st);
    }
  }

  // ---------------------------------------------------------------- updateStatus

  /**
    The statement `updateStatus` builds, numbered as written: values start as
    [status, id]; in the delivered branch the time is spliced in at position 1 and
    `actual_delivery_time = $3` is appended; WHERE names `$values.length`.
  */
  function UpdateStatusQueryAsWritten(id: string, status: Status, time: Option<int>): (u: Update)
    ensures u.whereSlot == |u.values|
  {
    if time.Some? && status == Delivered then
      Update([Assignment("status", 1), Assignment("actual_delivery_time", 3)], 3,
             [Text(status.Name()), Time(time.value), Text(id)])
    else
      Update([Assignment("status", 1)], 2, [Text(status.Name()), Text(id)])
  }

  /** The same statement with the delivery time named by `$2`, the slot it was spliced into. */
  function UpdateStatusQuery(id: string, status: Status, time: Option<int>): (u: Update)
    ensures WellFormed(u)
    ensures u.whereSlot == |u.values| && u.values[u.whereSlot - 1] == Text(id)
  {
    if time.Some? && status == Delivered then
      var u := Update([Assignment("status", 1), Assignment("actual_delivery_time", 2)], 3,
                      [Text(status.Name()), Time(time.value), Text(id)]);
      assert Uses(u, 1) == 1 && Uses(u, 2) == 1 && Uses(u, 3) == 1;
      u
    else
      var u := Update([Assignment("status", 1)], 2, [Text(status.Name()), Text(id)]);
      assert Uses(u, 1) == 1 && Uses(u, 2) == 1;
      u
  }

  /** Outside the delivered-with-time branch the two numberings are the same statement. */
  lemma AsWrittenAgreesOutsideDelivered(id: string, status: Status, time: Option<int>)
    requires !(time.Some? && status == Delivered)
    ensures UpdateStatusQueryAsWritten(id, status, time) == UpdateStatusQuery(id, status, time)
  {
  }

  /**
    In the delivered branch the statement as written names the id slot for
    `actual_delivery_time` and never names `$2`, so the database rejects it and no row changes.
  */
  lemma AsWrittenDeliveredIsRejected(rows: seq<Order>, id: string, t: int)
    ensures var u := UpdateStatusQueryAsWritten(id, Delivered, Some(t));
      && u.assignments[1] == Assignment("actual_delivery_time", 3)
      && u.values[u.assignments[1].slot - 1] == Text(id)
      && Uses(u, 2) == 0
      && !WellFormed(u)
      && ExecUpdate(rows, u, OrderKey, SetOrderColumn) == Err(RejectedStatement)
  {
    var u := UpdateStatusQueryAsWritten(id, Delivered, Some(t));
    assert Uses(u, 2) == 0;
  }

  function UpdateStatusAsWritten(rows: seq<Order>, id: string, status: Status, time: Option<int>): (r: Result<Outcome<Order>>)
    ensures time.Some? && status == Delivered ==> r.Err?
  {
    AsWrittenDeliveredIsRejected(rows, id, if time.Some? then time.value else 0);
    ExecUpdate(rows, UpdateStatusQueryAsWritten(id, status, time), OrderKey, SetOrderColumn)
  }

  /** The row as the corrected `updateStatus` leaves it. */
  function StatusUpdated(o: Order, status: Status, time: Option<int>): Order {
    o.(status := status,
       actualDeliveryTime := if time.Some? && status == Delivered then time else o.actualDeliveryTime)
  }

  /**
    `updateStatus` with corrected numbering: sets the status, and the actual delivery
    time only when the status is delivered and a time is given; changes nothing else;
    returns null exactly when no order has that id.
  */
  function UpdateStatus(rows: seq<Order>, id: string, status: Status, time: Option<int>): (r: Outcome<Order>)
    ensures |r.rows| == |rows|
    ensures forall i :: 0 <= i < |rows| ==>
      r.rows[i] == if rows[i].id == id then StatusUpdated(rows[i], status, time) else rows[i]
    ensures r.returned.None? <==> FindById(rows, id).None?
    ensures r.returned.Some? ==> r.returned == Some(StatusUpdated(FindById(rows, id).value, status, time))
  {
    var u := UpdateStatusQuery(id, status, time);
    ApplyStatusQuery(id, status, time);
    ExecUpdate(rows, u, OrderKey, SetOrderColumn).value
  }

  lemma ApplyStatusQuery(id: string, status: Status, time: Option<int>)
    ensures var u := UpdateStatusQuery(id, status, time);
      forall o: Order :: ApplyAssignments(o, u.assignments, u.values, SetOrderColumn) == StatusUpdated(o, status, time)
  {
    var u := UpdateStatusQuery(id, status, time);
    ParseStatusName(status);
    forall o: Order ensures ApplyAssignments(o, u.assignments, u.values, SetOrderColumn) == StatusUpdated(o, status, time) {
      var o1 := SetOrderColumn(o, "status", Text(status.Name()));
      assert o1 == o.(status := status);
      if time.Some? && status == Delivered {
        assert ApplyAssignments(o, u.assignments, u.values, SetOrderColumn)
            == ApplyAssignments(o1, u.assignments[1..], u.values, SetOrderColumn);
        assert ApplyAssignments(o1, u.assignments[1..], u.values, SetOrderColumn)
            == ApplyAssignments(SetOrderColumn(o1, "actual_delivery_time", Time(time.value)), [], u.values, SetOrderColumn);
      } else {
        assert ApplyAssignments(o, u.assignments, u.values, SetOrderColumn)
            == ApplyAssignments(o1, [], u.values, SetOrderColumn);
      }
    }
  }

  /** `updateEstimatedDeliveryTime`: changes only the ETA of the order with that id; null when absent. */
  function UpdateEstimatedDeliveryTime(rows: seq<Order>, id: string, eta: int): (r: Outcome<Order>)
    ensures |r.rows| == |rows|
    ensures forall i :: 0 <= i < |rows| ==>
      r.rows[i] == if rows[i].id == id then rows[i].(estimatedDeliveryTime := Some(eta)) else rows[i]
    ensures r.returned.None? <==> FindById(rows, id).None?
    ensures r.returned.Some? ==> r.returned == Some(FindById(rows, id).value.(estimatedDeliveryTime := Some(eta)))
  {
    ApplyEtaQuery(id, eta);
    ExecUpdate(rows, EtaQuery(id, eta), OrderKey, SetOrderColumn).value
  }

  /** `SET estimated_delivery_time = $1 ... WHERE id = $2`. */
  function EtaQuery(id: string, eta: int): (u: Update)
    ensures WellFormed(u) && u.values[u.whereSlot - 1] == Text(id)
  {
    var u := Update([Assignment("estimated_delivery_time", 1)], 2, [Time(eta), Text(id)]);
    assert Uses(u, 1) == 1 && Uses(u, 2) == 1;
    u
  }

  lemma ApplyEtaQuery(id: string, eta: int)
    ensures var u := EtaQuery(id, eta);
      forall o: Order :: ApplyAssignments(o, u.assignments, u.values, SetOrderColumn) == o.(estimatedDeliveryTime := Some(eta))
  {
    var u := EtaQuery(id, eta);
    forall o: Order ensures ApplyAssignments(o, u.assignments, u.values, SetOrderColumn) == o.(estimatedDeliveryTime := Some(eta)) {
      assert ApplyAssignments(o, u.assignments, u.values, SetOrderColumn)
          == ApplyAssignments(o.(estimatedDeliveryTime := Some(eta)), [], u.values, SetOrderColumn);
    }
  }

  /** `delete`: removes the order with that id; true exactly when one existed. */
  function Delete(rows: seq<Order>, id: string): (r: (seq<Order>, bool))
    ensures r.1 <==> FindById(rows, id).Some?
    ensures forall i :: 0 <= i < |r.0| ==> r.0[i] in rows && r.0[i].id != id
    ensures forall i :: 0 <= i < |rows| && rows[i].id != id ==> rows[i] in r.0
  {
    var (rest, count) := DeleteWhere(rows, (o: Order) => o.id == id);
    (rest, count > 0)
  }

  // ---------------------------------------------------------------- findWithItems

  /** An order with its restaurant (absent when the join finds none) and its lines. */
  datatype OrderWithItems = OrderWithItems(order: Order, restaurant: Option<Restaurant>, items: seq<OrderItem>)

  function RestaurantKey(x: Restaurant): string { x.id }

  /**
    `findWithItems`: null for a missing order; otherwise the order, the restaurant the
    join finds for it, and its lines. An order without lines is given the empty list
    (over the LEFT JOIN the database aggregates it into one all-null element, which
    is not modelled).
  */
  function FindWithItems(orders: seq<Order>, restaurants: seq<Restaurant>, items: seq<OrderItem>, id: string)
    : (r: Option<OrderWithItems>)
    ensures r.None? <==> FindById(orders, id).None?
    ensures r.Some? ==>
      && r.value.order == FindById(orders, id).value
      && r.value.restaurant == Find(restaurants, RestaurantKey, r.value.order.restaurantId)
      && (forall i :: 0 <= i < |r.value.items| ==> r.value.items[i] in items && r.value.items[i].orderId == id)
      && (forall i :: 0 <= i < |items| && items[i].orderId == id ==> items[i] in r.value.items)
      && multiset(r.value.items) == multiset(Filter(items, (it: OrderItem) => it.orderId == id))
  {
    match FindById(orders, id)
    case None => None
    case Some(o) =>
      Some(OrderWithItems(o, Find(restaurants, RestaurantKey, o.restaurantId),
                          Filter(items, (it: OrderItem) => it.orderId == id)))
  }

  /** Each order's lines are its own: the views of two different orders share no line. */
  lemma FindWithItemsPartitionsLines(orders: seq<Order>, restaurants: seq<Restaurant>, items: seq<OrderItem>,
                                     id1: string, id2: string)
    requires id1 != id2
    requires FindById(orders, id1).Some? && FindById(orders, id2).Some?
    ensures var a := FindWithItems(orders, restaurants, items, id1).value.items;
      var b := FindWithItems(orders, restaurants, items, id2).value.items;
      forall i, j :: 0 <= i < |a| && 0 <= j < |b| ==> a[i] != b[j]
  {
  }
}
