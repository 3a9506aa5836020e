/**
  `OrderItemRepository`: the `order_items` table as a sequence of rows keyed by
  line id. The multi-row INSERT of `createMany` is built by a loop whose
  placeholder numbering is proved here; line ids and the clock are parameters.
*/
module OrderItemRepository {
  import opened Common
  import opened Ordering
  import opened Orders
  import opened Table
  import opened Sql

  function ItemKey(it: OrderItem): string { it.id }

  /** `ORDER BY created_at ASC` and `ORDER BY created_at DESC`. */
  function OldestFirst(it: OrderItem): SortKey { [IntAsc(it.createdAt)] }
  function NewestFirst(it: OrderItem): SortKey { [IntDesc(it.createdAt)] }

  const DuplicateKey: string := "duplicate key value violates unique constraint \"order_items_pkey\""

  /** The row an INSERT of `data` under `id` stores: the given prices verbatim, `created_at` from the clock. */
  function NewRow(id: string, orderId: string, data: NewOrderItem, now: int): (it: OrderItem)
    ensures it.id == id && it.orderId == orderId && it.menuItemId == data.menuItemId
    ensures it.quantity == data.quantity && it.unitPrice == data.unitPrice && it.totalPrice == data.totalPrice
  {
    OrderItem(id, orderId, data.menuItemId, data.quantity, data.unitPrice, data.totalPrice, now)
  }

  /** `create`: one INSERT; an id already present is rejected by the primary key. */
  function Create(rows: seq<OrderItem>, orderId: string, data: NewOrderItem, id: string, now: int)
    : (r: Result<(seq<OrderItem>, OrderItem)>)
    ensures r.Err? <==> Find(rows, ItemKey, id).Some?
    ensures r.Ok? ==> r.value.0 == rows + [r.value.1] && r.value.1 == NewRow(id, orderId, data, now)
  {
    if Find(rows, ItemKey, id).Some? then Err(DuplicateKey)
    else
      var it := NewRow(id, orderId, data, now);
      Ok((rows + [it], it))
  }

  /** Nothing in `create` relates the total to the unit price: an inconsistent line is stored as given. */
  lemma CreateKeepsInconsistentPrices(orderId: string, id: string, now: int)
    ensures var data := NewOrderItem("1", 2, 16.99, 1.0);
      && data.totalPrice != data.unitPrice * data.quantity as real
      && Create([], orderId, data, id, now) == Ok(([NewRow(id, orderId, data, now)], NewRow(id, orderId, data, now)))
      && NewRow(id, orderId, data, now).totalPrice == 1.0
  {
    var data := NewOrderItem("1", 2, 16.99, 1.0);
    assert data.quantity as real == 2.0;
    assert data.unitPrice * 2.0 == 33.98;
    var row := NewRow(id, orderId, data, now);
    assert [] + [row] == [row];
  }

  // ---------------------------------------------------------------- createMany

  /** The parameter tuple `($p, $p+1, ..., $p+5)` of one row. */
  function Tuple(p: nat): (t: seq<nat>)
    ensures |t| == 6 && forall j :: 0 <= j < 6 ==> t[j] == p + j
  {
    [p, p + 1, p + 2, p + 3, p + 4, p + 5]
  }

  /** The six bound values of one row, in column order id, order_id, menu_item_id, quantity, unit_price, total_price. */
  function RowValues(id: string, orderId: string, data: NewOrderItem): (v: seq<Value>)
    ensures |v| == 6
  {
    [Text(id), Text(orderId), Text(data.menuItemId), Int(data.quantity), Real(data.unitPrice), Real(data.totalPrice)]
  }

  /** Reads one row's six values back into the id, the order id and the line data. */
  function DecodeRow(v: seq<Value>): (r: Option<(string, string, NewOrderItem)>)
    requires |v| == 6
  {
    if v[0].Text? && v[1].Text? && v[2].Text? && v[3].Int? && v[4].Real? && v[5].Real? then
      Some((v[0].s, v[1].s, NewOrderItem(v[2].s, v[3].i, v[4].x, v[5].x)))
    else None
  }

  lemma DecodeRowValues(id: string, orderId: string, data: NewOrderItem)
    ensures DecodeRow(RowValues(id, orderId, data)) == Some((id, orderId, data))
  {
  }

  /**
    The statement `createMany` builds: one placeholder tuple and six values per
    line, `paramIndex` advancing by six each time. Line `i` (from 0) gets
    `$(6i+1) ... $(6i+6)` and occupies values `6i .. 6i+5`.
  */
  method CreateManyStatement(orderId: string, items: seq<NewOrderItem>, ids: seq<string>)
    returns (tuples: seq<seq<nat>>, values: seq<Value>)
    requires |ids| == |items|
    ensures |tuples| == |items| && |values| == 6 * |items|
    ensures forall i :: 0 <= i < |items| ==> tuples[i] == Tuple(6 * i + 1)
    ensures forall i :: 0 <= i < |items| ==> values[6 * i .. 6 * i + 6] == RowValues(ids[i], orderId, items[i])
  {
    tuples := [];
    values := [];
    var paramIndex := 1;
    for k := 0 to |items|
      invariant |tuples| == k && |values| == 6 * k && paramIndex == 6 * k + 1
      invariant forall i :: 0 <= i < k ==> tuples[i] == Tuple(6 * i + 1)
      invariant forall i :: 0 <= i < k ==> values[6 * i .. 6 * i + 6] == RowValues(ids[i], orderId, items[i])
    {
      var row := RowValues(ids[k], orderId, items[k]);
      forall i | 0 <= i < k ensures (values + row)[6 * i .. 6 * i + 6] == values[6 * i .. 6 * i + 6] {
        assert 6 * i + 6 <= |values|;
      }
      assert (values + row)[6 * k .. 6 * k + 6] == row;
      tuples := tuples + [Tuple(paramIndex)];
      values := values + row;
      paramIndex := paramIndex + 6;
    }
  }

  /** The line (from 0) and the position within its tuple that slot `p` belongs to. */
  function SlotLine(p: nat): nat
    requires p >= 1
  {
    (p - 1) / 6
  }

  function SlotColumn(p: nat): nat
    requires p >= 1
  {
    (p - 1) % 6
  }

  /**
    The tuples number the slots `1 .. 6n` each exactly once: slot `p` sits at
    line `SlotLine(p)`, position `SlotColumn(p)`, and no two positions share a slot.
  */
  lemma TuplesNumberEachSlotOnce(n: nat, tuples: seq<seq<nat>>)
    requires |tuples| == n
    requires forall i :: 0 <= i < n ==> |tuples[i]| == 6 && tuples[i] == Tuple(6 * i + 1)
    ensures forall p: nat :: 1 <= p <= 6 * n ==>
      SlotLine(p) < n && SlotColumn(p) < 6 && tuples[SlotLine(p)][SlotColumn(p)] == p
    ensures forall i, j, i', j' :: 0 <= i < n && 0 <= j < 6 && 0 <= i' < n && 0 <= j' < 6 && tuples[i][j] == tuples[i'][j'] ==>
      i == i' && j == j'
    ensures forall i, j :: 0 <= i < n && 0 <= j < 6 ==> 1 <= tuples[i][j] <= 6 * n
  {
    forall p: nat | 1 <= p <= 6 * n ensures SlotLine(p) < n && SlotColumn(p) < 6 && tuples[SlotLine(p)][SlotColumn(p)] == p {
      var i, j := SlotLine(p), SlotColumn(p);
      assert p - 1 == 6 * i + j;
    }
    forall i, j, i', j' | 0 <= i < n && 0 <= j < 6 && 0 <= i' < n && 0 <= j' < 6 && tuples[i][j] == tuples[i'][j']
      ensures i == i' && j == j'
    {
      assert 6 * i + j == 6 * i' + j';
    }
  }

  /**
    `createMany`: an empty list issues no statement and yields []; otherwise every
    line is inserted under its fresh id with the same order id, in list order, or
    the whole statement fails when an id is already used.
  */
  function CreateMany(rows: seq<OrderItem>, orderId: string, items: seq<NewOrderItem>, ids: seq<string>, now: int)
    : (r: Result<(seq<OrderItem>, seq<OrderItem>)>)
    requires |ids| == |items|
    ensures |items| == 0 ==> r == Ok((rows, []))
    ensures r.Ok? ==> r.value.0 == rows + r.value.1 && |r.value.1| == |items|
    ensures r.Ok? ==> forall i :: 0 <= i < |items| ==> r.value.1[i] == NewRow(ids[i], orderId, items[i], now)
    ensures |items| > 0 ==>
      (r.Err? <==> !Distinct(ids) || exists i :: 0 <= i < |ids| && Find(rows, ItemKey, ids[i]).Some?)
  {
    if |items| == 0 then Ok((rows, []))
    else if !Distinct(ids) || exists i :: 0 <= i < |ids| && Find(rows, ItemKey, ids[i]).Some? then Err(DuplicateKey)
    else
      var inserted := seq(|items|, i requires 0 <= i < |items| => NewRow(ids[i], orderId, items[i], now));
      Ok((rows + inserted, inserted))
  }

  /** Each inserted row is exactly what its six bound values of the statement encode. */
  lemma CreateManyRowsMatchStatement(rows: seq<OrderItem>, orderId: string, items: seq<NewOrderItem>,
                                     ids: seq<string>, now: int, values: seq<Value>, i: nat)
    requires |ids| == |items| && i < |items| && |values| == 6 * |items|
    requires forall k :: 0 <= k < |items| ==> values[6 * k .. 6 * k + 6] == RowValues(ids[k], orderId, items[k])
    requires CreateMany(rows, orderId, items, ids, now).Ok?
    ensures var row := CreateMany(rows, orderId, items, ids, now).value.1[i];
      DecodeRow(values[6 * i .. 6 * i + 6]) == Some((row.id, row.orderId,
        NewOrderItem(row.menuItemId, row.quantity, row.unitPrice, row.totalPrice)))
  {
    DecodeRowValues(ids[i], orderId, items[i]);
  }

  // ---------------------------------------------------------------- other statements

  function FindById(rows: seq<OrderItem>, id: string): Option<OrderItem> {
    Find(rows, ItemKey, id)
  }

  /** `findByOrderId`: the order's lines, oldest first. */
  function FindByOrderId(rows: seq<OrderItem>, orderId: string): (r: seq<OrderItem>)
    ensures multiset(r) == multiset(Filter(rows, (it: OrderItem) => it.orderId == orderId))
    ensures forall i :: 0 <= i < |r| ==> r[i].orderId == orderId
    ensures forall i :: 0 <= i < |rows| && rows[i].orderId == orderId ==> rows[i] in r
    ensures SortedBy(r, OldestFirst)
  {
    Select(rows, (it: OrderItem) => it.orderId == orderId, OldestFirst)
  }

  /** `findByMenuItemId`: every line of that menu item, newest first. */
  function FindByMenuItemId(rows: seq<OrderItem>, menuItemId: string): (r: seq<OrderItem>)
    ensures multiset(r) == multiset(Filter(rows, (it: OrderItem) => it.menuItemId == menuItemId))
    ensures forall i :: 0 <= i < |r| ==> r[i].menuItemId == menuItemId
    ensures forall i :: 0 <= i < |rows| && rows[i].menuItemId == menuItemId ==> rows[i] in r
    ensures SortedBy(r, NewestFirst)
  {
    Select(rows, (it: OrderItem) => it.menuItemId == menuItemId, NewestFirst)
  }

  /** `SET quantity = $1, total_price = $2 WHERE id = $3`. */
  function QuantityQuery(id: string, quantity: int, totalPrice: real): (u: Update)
    ensures WellFormed(u) && u.values[u.whereSlot - 1] == Text(id)
  {
    var u := Update([Assignment("quantity", 1), Assignment("total_price", 2)], 3,
                    [Int(quantity), Real(totalPrice), Text(id)]);
    assert Uses(u, 1) == 1 && Uses(u, 2) == 1 && Uses(u, 3) == 1;
    u
  }

  function SetItemColumn(it: OrderItem, column: string, v: Value): OrderItem {
    if column == "quantity" && v.Int? then it.(quantity := v.i)
    else if column == "total_price" && v.Real? then it.(totalPrice := v.x)
    else it
  }

  lemma ApplyQuantityQuery(id: string, quantity: int, totalPrice: real)
    ensures var u := QuantityQuery(id, quantity, totalPrice);
      forall it: OrderItem :: ApplyAssignments(it, u.assignments, u.values, SetItemColumn)
                           == it.(quantity := quantity, totalPrice := totalPrice)
  {
    var u := QuantityQuery(id, quantity, totalPrice);
    forall it: OrderItem ensures ApplyAssignments(it, u.assignments, u.values, SetItemColumn)
                              == it.(quantity := quantity, totalPrice := totalPrice) {
      var it1 := it.(quantity := quantity);
      assert ApplyAssignments(it, u.assignments, u.values, SetItemColumn)
          == ApplyAssignments(it1, u.assignments[1..], u.values, SetItemColumn);
      assert ApplyAssignments(it1, u.assignments[1..], u.values, SetItemColumn)
          == ApplyAssignments(it1.(totalPrice := totalPrice), [], u.values, SetItemColumn);
    }
  }

  /** `updateQuantity`: sets exactly the quantity and the total of that line; null when the id is absent. */
  function UpdateQuantity(rows: seq<OrderItem>, id: string, quantity: int, totalPrice: real): (r: Outcome<OrderItem>)
    ensures |r.rows| == |rows|
    ensures forall i :: 0 <= i < |rows| ==>
      r.rows[i] == if rows[i].id == id then rows[i].(quantity := quantity, totalPrice := totalPrice) else rows[i]
    ensures r.returned.None? <==> FindById(rows, id).None?
    ensures r.returned.Some? ==> r.returned == Some(FindById(rows, id).value.(quantity := quantity, totalPrice := totalPrice))
  {
    ApplyQuantityQuery(id, quantity, totalPrice);
    ExecUpdate(rows, QuantityQuery(id, quantity, totalPrice), ItemKey, SetItemColumn).value
  }

  /** `deleteByOrderId`: removes the order's lines; true exactly when at least one was removed. */
  function DeleteByOrderId(rows: seq<OrderItem>, orderId: string): (r: (seq<OrderItem>, bool))
    ensures r.1 <==> |r.0| < |rows|
    ensures r.1 <==> exists i :: 0 <= i < |rows| && rows[i].orderId == orderId
    ensures forall i :: 0 <= i < |r.0| ==> r.0[i] in rows && r.0[i].orderId != orderId
    ensures forall i :: 0 <= i < |rows| && rows[i].orderId != orderId ==> rows[i] in r.0
  {
    var (rest, count) := DeleteWhere(rows, (it: OrderItem) => it.orderId == orderId);
    (rest, count > 0)
  }

  // ---------------------------------------------------------------- total quantity

  /** Whether the line's order exists and is not cancelled (the inner join and the NOT IN filter). */
  predicate CountsTowardTotal(orders: seq<Order>, it: OrderItem) {
    var o := Find(orders, (x: Order) => x.id, it.orderId);
    o.Some? && o.value.status != Cancelled
  }

  /**
    `getTotalQuantityByMenuItemId`: `COALESCE(SUM(quantity), 0)` over that menu
    item's lines whose order exists and is not cancelled.
  */
  function TotalQuantity(items: seq<OrderItem>, orders: seq<Order>, menuItemId: string): (n: int)
    ensures (forall i :: 0 <= i < |items| ==> items[i].menuItemId != menuItemId || !CountsTowardTotal(orders, items[i])) ==> n == 0
  {
    if |items| == 0 then 0
    else
      var it := items[0];
      (if it.menuItemId == menuItemId && CountsTowardTotal(orders, it) then it.quantity else 0)
        + TotalQuantity(items[1..], orders, menuItemId)
  }

  /** The sum is additive over the line table. */
  lemma {:induction false} TotalQuantityAppend(a: seq<OrderItem>, b: seq<OrderItem>, orders: seq<Order>, menuItemId: string)
    ensures TotalQuantity(a + b, orders, menuItemId) == TotalQuantity(a, orders, menuItemId) + TotalQuantity(b, orders, menuItemId)
  {
    if |a| > 0 {
      assert (a + b)[1..] == a[1..] + b;
      TotalQuantityAppend(a[1..], b, orders, menuItemId);
    } else {
      assert a + b == b;
    }
  }

  /** Lines of a cancelled order never count: appending them leaves the total unchanged. */
  lemma CancelledLinesDoNotCount(items: seq<OrderItem>, orders: seq<Order>, menuItemId: string, it: OrderItem)
    requires var o := Find(orders, (x: Order) => x.id, it.orderId); o.Some? && o.value.status == Cancelled
    ensures TotalQuantity(items + [it], orders, menuItemId) == TotalQuantity(items, orders, menuItemId)
  {
    TotalQuantityAppend(items, [it], orders, menuItemId);
  }

  /** A line of a live order for that item adds exactly its quantity. */
  lemma LiveLineAddsQuantity(items: seq<OrderItem>, orders: seq<Order>, it: OrderItem)
    requires CountsTowardTotal(orders, it)
    ensures TotalQuantity(items + [it], orders, it.menuItemId) == TotalQuantity(items, orders, it.menuItemId) + it.quantity
  {
    TotalQuantityAppend(items, [it], orders, it.menuItemId);
  }
}
