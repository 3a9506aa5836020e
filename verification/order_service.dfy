/**
  `OrderService`: order creation from a cart, status updates with their ETA
  side effects, cancellation, the active-order filter and the statistics. The
  two tables are one `Store` value. The clock (`now`, in milliseconds), the
  `Math.random()` draw (`draw`, in [0, 1)) and fresh ids are parameters.
*/
module OrderService {
  import opened Common
  import opened Ordering
  import opened Catalog
  import opened CartState
  import opened Orders
  import opened Table
  import opened OrderRepository
  import OrderItems = OrderItemRepository
  import Sql

  /** The `orders` and `order_items` tables. */
  datatype Store = Store(orders: seq<Order>, items: seq<OrderItem>)

  // ---------------------------------------------------------------- ETA

  const MinuteMs: int := 60 * 1000

  /** `Math.floor(Math.random() * width)` lies in `0 .. width - 1`. */
  lemma FloorInRange(draw: real, width: nat)
    requires 0.0 <= draw < 1.0 && width > 0
    ensures 0 <= (draw * width as real).Floor < width
  {
    assert 0.0 <= draw * width as real;
    assert draw * width as real < 1.0 * width as real;
  }

  /** The offset `calculateEstimatedDeliveryTime` draws for a new order. */
  function InitialEtaMinutes(draw: real): (m: int)
    requires 0.0 <= draw < 1.0
    ensures 30 <= m < 60
  {
    FloorInRange(draw, 30);
    30 + (draw * 30.0).Floor
  }

  /** The statuses after which the ETA is recomputed. */
  predicate ShouldRecalculate(st: Status) {
    st == OrderConfirmed || st == Preparing || st == ReadyForPickup || st == OutForDelivery
  }

  /** The offset `calculateEstimatedDeliveryTimeForStatus` draws; 0 for every other status. */
  function StatusEtaMinutes(st: Status, draw: real): (m: int)
    requires 0.0 <= draw < 1.0
    ensures st == OrderConfirmed ==> 25 <= m < 45
    ensures st == Preparing ==> 20 <= m < 35
    ensures st == ReadyForPickup ==> 10 <= m < 20
    ensures st == OutForDelivery ==> 5 <= m < 15
    ensures !ShouldRecalculate(st) ==> m == 0
  {
    match st
    case OrderConfirmed => FloorInRange(draw, 20); 25 + (draw * 20.0).Floor
    case Preparing => FloorInRange(draw, 15); 20 + (draw * 15.0).Floor
    case ReadyForPickup => FloorInRange(draw, 10); 10 + (draw * 10.0).Floor
    case OutForDelivery => FloorInRange(draw, 10); 5 + (draw * 10.0).Floor
    case _ => 0
  }

  /** A point `minutes` after `now`. */
  function After(now: int, minutes: int): int {
    now + minutes * MinuteMs
  }

  /** Later stages promise an earlier arrival: each stage's window lies no later than the previous one's upper bound. */
  lemma EtaWindowsShrink(draw: real)
    requires 0.0 <= draw < 1.0
    ensures StatusEtaMinutes(OutForDelivery, draw) < 15 <= 25 <= StatusEtaMinutes(OrderConfirmed, draw)
    ensures 0 < StatusEtaMinutes(OutForDelivery, draw) < InitialEtaMinutes(draw)
  {
  }

  // ---------------------------------------------------------------- createOrder

  /** What a write sequence leaves in the store, and what the call returns or throws. */
  datatype Written = Written(store: Store, result: Result<Order>)

  /**
    `createOrder`: the header first; then, only for a non-empty list, the lines.
    The two writes are not in one transaction: when the line insert fails the
    header stays and the call still throws.
  */
  function CreateOrder(s: Store, data: NewOrder, orderId: string, itemIds: seq<string>, now: int): (w: Written)
    requires |itemIds| == |data.items|
    ensures OrderRepository.Create(s.orders, data, orderId, now).Err? ==> w == Written(s, Err(OrderRepository.DuplicateKey))
    ensures OrderRepository.Create(s.orders, data, orderId, now).Ok? ==>
      var (orders', header) := OrderRepository.Create(s.orders, data, orderId, now).value;
      && w.store.orders == orders'
      && (|data.items| == 0 ==> w == Written(Store(orders', s.items), Ok(header)))
      && (|data.items| > 0 ==>
            var lines := OrderItems.CreateMany(s.items, orderId, data.items, itemIds, now);
            && (lines.Ok? ==> w == Written(Store(orders', lines.value.0), Ok(header)))
            && (lines.Err? ==> w == Written(Store(orders', s.items), Err(lines.message))))
      && (w.result.Ok? ==>
            var lines := OrderItems.CreateMany(s.items, orderId, data.items, itemIds, now);
            w.result.value == header && lines.Ok? && w.store.items == lines.value.0)
      && (w.result.Err? ==> w.store.items == s.items)
  {
    match OrderRepository.Create(s.orders, data, orderId, now)
    case Err(e) => Written(s, Err(e))
    case Ok((orders', header)) =>
      if |data.items| == 0 then Written(Store(orders', s.items), Ok(header))
      else
        match OrderItems.CreateMany(s.items, header.id, data.items, itemIds, now)
        case Err(e) => Written(Store(orders', s.items), Err(e))
        case Ok((items', _)) => Written(Store(orders', items'), Ok(header))
  }

  /** A failing line insert leaves the header in place: there is no rollback. */
  lemma CreateOrderNoRollback(s: Store, data: NewOrder, orderId: string, itemIds: seq<string>, now: int)
    requires |itemIds| == |data.items| && |data.items| > 0
    requires OrderRepository.Create(s.orders, data, orderId, now).Ok?
    requires OrderItems.CreateMany(s.items, orderId, data.items, itemIds, now).Err?
    ensures var w := CreateOrder(s, data, orderId, itemIds, now);
      && w.result.Err?
      && |w.store.orders| == |s.orders| + 1
      && FindById(w.store.orders, orderId).Some?
  {
    var w := CreateOrder(s, data, orderId, itemIds, now);
    var (orders', header) := OrderRepository.Create(s.orders, data, orderId, now).value;
    assert orders'[|s.orders|] == header;
  }

  // ---------------------------------------------------------------- createOrderFromCart

  datatype CustomerInfo = CustomerInfo(
    customerName: string, customerEmail: string, customerPhone: Option<string>,
    deliveryAddress: string, specialInstructions: Option<string>)

  datatype PaymentInfo = PaymentInfo(paymentMethod: string, paymentTransactionId: Option<string>)

  datatype Pricing = Pricing(subtotal: real, tax: real, deliveryFee: real, total: real)

  /** The order line made from one cart line. */
  function CartLine(it: CartItem): NewOrderItem {
    NewOrderItem(it.menuItem.id, it.quantity, it.menuItem.price, it.menuItem.price * it.quantity as real)
  }

  /** `cart.items.map(...)`: one order line per cart line, in cart order. */
  function CartLines(items: seq<CartItem>): (lines: seq<NewOrderItem>)
    ensures |lines| == |items|
    ensures forall i :: 0 <= i < |items| ==>
      && lines[i].menuItemId == items[i].menuItem.id
      && lines[i].quantity == items[i].quantity
      && lines[i].unitPrice == items[i].menuItem.price
      && lines[i].totalPrice == LineTotal(items[i])
  {
    seq(|items|, i requires 0 <= i < |items| => CartLine(items[i]))
  }

  /** The sum of the lines' totals, accumulated left to right. */
  function LinesTotal(lines: seq<NewOrderItem>): real {
    if |lines| == 0 then 0.0 else LinesTotal(lines[..|lines| - 1]) + lines[|lines| - 1].totalPrice
  }

  /** The order lines of a cart add up to the cart total the checkout page shows. */
  lemma {:induction false} CartLinesTotal(items: seq<CartItem>)
    ensures LinesTotal(CartLines(items)) == Total(items)
  {
    if |items| > 0 {
      var n := |items|;
      assert CartLines(items)[..n - 1] == CartLines(items[..n - 1]);
      CartLinesTotal(items[..n - 1]);
    }
  }

  /** The data `createOrderFromCart` hands to `createOrder`: pricing copied, not recomputed. */
  function FromCartData(cart: Cart, customer: CustomerInfo, payment: PaymentInfo, pricing: Pricing, eta: int)
    : (d: NewOrder)
    requires cart.restaurantId.Some?
    ensures d.restaurantId == cart.restaurantId.value
    ensures d.subtotal == pricing.subtotal && d.tax == pricing.tax
    ensures d.deliveryFee == pricing.deliveryFee && d.total == pricing.total
    ensures d.customerName == customer.customerName && d.customerEmail == customer.customerEmail
    ensures d.customerPhone == customer.customerPhone && d.deliveryAddress == customer.deliveryAddress
    ensures d.specialInstructions == customer.specialInstructions
    ensures d.paymentMethod == payment.paymentMethod && d.paymentTransactionId == payment.paymentTransactionId
    ensures d.estimatedDeliveryTime == Some(eta)
    ensures d.items == CartLines(cart.items)
  {
    NewOrder(cart.restaurantId.value, customer.customerName, customer.customerEmail, customer.customerPhone,
             customer.deliveryAddress, pricing.subtotal, pricing.tax, pricing.deliveryFee, pricing.total,
             payment.paymentMethod, payment.paymentTransactionId, Some(eta), customer.specialInstructions,
             CartLines(cart.items))
  }

  const EmptyCartMessage: string := "Cart is empty or invalid"

  /**
    `createOrderFromCart`: a cart without a (truthy) restaurant id or without lines
    is refused before anything is written; otherwise the order is created with an
    initial ETA 30 to 59 minutes after `now`.
  */
  function CreateOrderFromCart(s: Store, cart: Cart, customer: CustomerInfo, payment: PaymentInfo, pricing: Pricing,
                               orderId: string, itemIds: seq<string>, now: int, draw: real): (w: Written)
    requires |itemIds| == |cart.items| && 0.0 <= draw < 1.0
    ensures !HasRestaurant(cart) || |cart.items| == 0 ==> w == Written(s, Err(EmptyCartMessage))
    ensures HasRestaurant(cart) && |cart.items| > 0 ==>
      w == CreateOrder(s, FromCartData(cart, customer, payment, pricing, After(now, InitialEtaMinutes(draw))),
                       orderId, itemIds, now)
  {
    if !HasRestaurant(cart) || |cart.items| == 0 then Written(s, Err(EmptyCartMessage))
    else CreateOrder(s, FromCartData(cart, customer, payment, pricing, After(now, InitialEtaMinutes(draw))),
                     orderId, itemIds, now)
  }

  /**
    A successful order from a cart stores the cart's restaurant, the caller's pricing
    as given, an ETA 30 to 59 minutes ahead, and lines whose totals add up to the cart total.
  */
  lemma FromCartStoresCart(s: Store, cart: Cart, customer: CustomerInfo, payment: PaymentInfo, pricing: Pricing,
                           orderId: string, itemIds: seq<string>, now: int, draw: real)
    requires |itemIds| == |cart.items| && 0.0 <= draw < 1.0
    requires CreateOrderFromCart(s, cart, customer, payment, pricing, orderId, itemIds, now, draw).result.Ok?
    ensures var o := CreateOrderFromCart(s, cart, customer, payment, pricing, orderId, itemIds, now, draw).result.value;
      && Some(o.restaurantId) == cart.restaurantId && o.status == OrderPlaced
      && o.subtotal == pricing.subtotal && o.total == pricing.total
      && o.estimatedDeliveryTime.Some?
      && now + 30 * MinuteMs <= o.estimatedDeliveryTime.value < now + 60 * MinuteMs
    ensures LinesTotal(CartLines(cart.items)) == Total(cart.items)
  {
    CartLinesTotal(cart.items);
  }

  // ---------------------------------------------------------------- updateOrderStatus

  /** The order as `updateOrderStatus` leaves it in the table. */
  predicate StatusApplied(before: Order, after: Order, st: Status, now: int, draw: real)
    requires 0.0 <= draw < 1.0
  {
    after == before.(
      status := st,
      actualDeliveryTime := if st == Delivered then Some(now) else before.actualDeliveryTime,
      estimatedDeliveryTime :=
        if ShouldRecalculate(st) then Some(After(now, StatusEtaMinutes(st, draw))) else before.estimatedDeliveryTime)
  }

  /**
    `updateOrderStatus` once the status is known to be valid: the current status
    is never consulted. The stored row gets the status, the delivery time when
    delivered, and a new ETA for the four in-progress statuses; the value returned
    is the row as it was before the ETA rewrite, or null for an unknown id.
  */
  function ApplyStatus(s: Store, id: string, st: Status, now: int, draw: real): (r: (Store, Option<Order>))
    requires 0.0 <= draw < 1.0
    ensures var (s', returned) := r;
      && s'.items == s.items && |s'.orders| == |s.orders|
      && (forall i :: 0 <= i < |s.orders| && s.orders[i].id != id ==> s'.orders[i] == s.orders[i])
      && (forall i :: 0 <= i < |s.orders| && s.orders[i].id == id ==> StatusApplied(s.orders[i], s'.orders[i], st, now, draw))
      && (returned.None? <==> FindById(s.orders, id).None?)
      && (returned.Some? ==>
            && returned.value.status == st
            && returned.value.estimatedDeliveryTime == FindById(s.orders, id).value.estimatedDeliveryTime
            && returned.value.actualDeliveryTime ==
                 (if st == Delivered then Some(now) else FindById(s.orders, id).value.actualDeliveryTime))
  {
    var out := UpdateStatus(s.orders, id, st, DeliveryStamp(st, now));
    (s.(orders := StatusRows(s.orders, id, st, now, draw)), out.returned)
  }

  /** The delivery time `updateOrderStatus` passes on: the current time exactly for "delivered". */
  function DeliveryStamp(st: Status, now: int): Option<int> {
    if st == Delivered then Some(now) else None
  }

  /** The table after the status write and, for a found order in progress, the ETA rewrite. */
  function StatusRows(orders: seq<Order>, id: string, st: Status, now: int, draw: real): (rows: seq<Order>)
    requires 0.0 <= draw < 1.0
    ensures |rows| == |orders|
    ensures forall i :: 0 <= i < |orders| && orders[i].id != id ==> rows[i] == orders[i]
    ensures forall i :: 0 <= i < |orders| && orders[i].id == id ==> StatusApplied(orders[i], rows[i], st, now, draw)
  {
    var out := UpdateStatus(orders, id, st, DeliveryStamp(st, now));
    if out.returned.Some? && ShouldRecalculate(st) then
      UpdateEstimatedDeliveryTime(out.rows, id, After(now, StatusEtaMinutes(st, draw))).rows
    else
      out.rows
  }

  /** `updateOrderStatus`: only a string outside the seven statuses is refused, with a message naming it. */
  function UpdateOrderStatus(s: Store, id: string, status: string, now: int, draw: real)
    : (r: Result<(Store, Option<Order>)>)
    requires 0.0 <= draw < 1.0
    ensures r.Err? <==> ParseStatus(status).None?
    ensures r.Err? ==> r.message == "Invalid order status: " + status
    ensures r.Ok? ==> r.value == ApplyStatus(s, id, ParseStatus(status).value, now, draw)
  {
    match ParseStatus(status)
    case None => Err("Invalid order status: " + status)
    case Some(st) => Ok(ApplyStatus(s, id, st, now, draw))
  }

  /**
    `updateOrderStatus` over the repository statement as the source numbers it: a
    status outside the seven is refused as before; "delivered" reaches the database
    with a malformed statement and fails; every other status behaves exactly as
    with the corrected statement.
  */
  function UpdateOrderStatusAsWritten(s: Store, id: string, status: string, now: int, draw: real)
    : (r: Result<(Store, Option<Order>)>)
    requires 0.0 <= draw < 1.0
    ensures ParseStatus(status).None? ==> r == Err("Invalid order status: " + status)
    ensures ParseStatus(status) == Some(Delivered) ==> r == Err(Sql.RejectedStatement)
    ensures ParseStatus(status).Some? && ParseStatus(status) != Some(Delivered) ==>
      r == UpdateOrderStatus(s, id, status, now, draw)
  {
    match ParseStatus(status)
    case None => Err("Invalid order status: " + status)
    case Some(st) =>
      var written := UpdateStatusAsWritten(s.orders, id, st, DeliveryStamp(st, now));
      AsWrittenStatusAgrees(s.orders, id, st, now);
      match written
      case Err(e) => Err(e)
      case Ok(out) =>
        var rows := if out.returned.Some? && ShouldRecalculate(st) then
            UpdateEstimatedDeliveryTime(out.rows, id, After(now, StatusEtaMinutes(st, draw))).rows
          else out.rows;
        Ok((s.(orders := rows), out.returned))
  }

  /** Outside "delivered" no time is passed, so the statement as written is the corrected one. */
  lemma AsWrittenStatusAgrees(orders: seq<Order>, id: string, st: Status, now: int)
    ensures st != Delivered ==> UpdateStatusAsWritten(orders, id, st, DeliveryStamp(st, now)) == Ok(UpdateStatus(orders, id, st, DeliveryStamp(st, now)))
  {
    if st != Delivered {
      AsWrittenAgreesOutsideDelivered(id, st, None);
    }
  }

  /**
    Marking an existing order delivered succeeds in the corrected model and fails
    in the program as written, which leaves the table untouched.
  */
  lemma DeliveredFailsAsWritten(s: Store, i: nat, now: int, draw: real)
    requires i < |s.orders| && 0.0 <= draw < 1.0
    ensures UpdateOrderStatusAsWritten(s, s.orders[i].id, "delivered", now, draw) == Err(Sql.RejectedStatement)
    ensures var r := UpdateOrderStatus(s, s.orders[i].id, "delivered", now, draw);
      r.Ok? && r.value.1.Some? && r.value.1.value.actualDeliveryTime == Some(now)
  {
    ParseStatusName(Delivered);
    assert ParseStatus("delivered") == Some(Delivered);
    assert FindById(s.orders, s.orders[i].id).Some?;
  }

  /** The transition table `validateStatusTransition` builds and never reads. */
  predicate ServiceTransition(from: Status, to: Status) {
    match from
    case OrderPlaced => to == OrderConfirmed || to == Cancelled
    case OrderConfirmed => to == Preparing || to == Cancelled
    case Preparing => to == ReadyForPickup || to == Cancelled
    case ReadyForPickup => to == OutForDelivery || to == Cancelled
    case OutForDelivery => to == Delivered || to == Cancelled
    case Delivered => false
    case Cancelled => false
  }

  /**
    The table is not enforced: any existing order moves to any status, including
    moves the table forbids such as out of delivered or cancelled, and self-moves.
  */
  lemma AnyTransitionAccepted(s: Store, i: nat, to: Status, now: int, draw: real)
    requires i < |s.orders| && UniqueKeys(s.orders, OrderKey) && 0.0 <= draw < 1.0
    ensures var r := UpdateOrderStatus(s, s.orders[i].id, to.Name(), now, draw);
      && r.Ok? && r.value.1.Some?
      && r.value.0.orders[i].status == to
  {
    ParseStatusName(to);
    FindUnique(s.orders, OrderKey, i);
  }

  /** The program as written also accepts any move of an existing order, except to "delivered", which it fails on. */
  lemma AnyTransitionAcceptedAsWritten(s: Store, i: nat, to: Status, now: int, draw: real)
    requires i < |s.orders| && UniqueKeys(s.orders, OrderKey) && 0.0 <= draw < 1.0
    ensures var r := UpdateOrderStatusAsWritten(s, s.orders[i].id, to.Name(), now, draw);
      && (to != Delivered ==> r.Ok? && r.value.1.Some? && r.value.0.orders[i].status == to)
      && (to == Delivered ==> r.Err?)
  {
    ParseStatusName(to);
    AnyTransitionAccepted(s, i, to, now, draw);
  }

  /** In particular the table's final states are not final. */
  lemma TerminalStatesAreNotFinal(s: Store, i: nat, now: int, draw: real)
    requires i < |s.orders| && UniqueKeys(s.orders, OrderKey) && 0.0 <= draw < 1.0
    requires s.orders[i].status == Delivered
    ensures !ServiceTransition(Delivered, OrderPlaced)
    ensures var r := UpdateOrderStatus(s, s.orders[i].id, "order_placed", now, draw);
      r.Ok? && r.value.0.orders[i].status == OrderPlaced
  {
    AnyTransitionAccepted(s, i, OrderPlaced, now, draw);
  }

  /** The two final states are exactly the statuses with no outgoing entry in the table. */
  lemma TableFinalStates(st: Status)
    ensures st.IsTerminal() <==> forall to: Status :: !ServiceTransition(st, to)
  {
    if !st.IsTerminal() {
      assert ServiceTransition(st, Cancelled);
    }
  }

  // ---------------------------------------------------------------- cancelOrder

  /** `canCancelOrder`: anything not yet delivered, cancelled or out for delivery. */
  predicate CanCancel(st: Status) {
    !(st == Delivered || st == Cancelled || st == OutForDelivery)
  }

  /** `cancelOrder`: "Order not found", then "Cannot cancel order with status: …", then the status update. */
  function CancelOrder(s: Store, id: string, now: int, draw: real): (r: Result<(Store, Option<Order>)>)
    requires 0.0 <= draw < 1.0
    ensures FindById(s.orders, id).None? ==> r == Err("Order not found")
    ensures FindById(s.orders, id).Some? && !CanCancel(FindById(s.orders, id).value.status) ==>
      r == Err("Cannot cancel order with status: " + FindById(s.orders, id).value.status.Name())
    ensures r.Ok? <==> FindById(s.orders, id).Some? && CanCancel(FindById(s.orders, id).value.status)
    ensures r.Ok? ==>
      && r.value.1.Some? && r.value.1.value.status == Cancelled && |r.value.0.orders| == |s.orders|
      && (forall i :: 0 <= i < |s.orders| && s.orders[i].id == id ==> r.value.0.orders[i].status == Cancelled)
    ensures r.Ok? ==>
      && r.value.0.items == s.items
      && (forall i :: 0 <= i < |s.orders| && s.orders[i].id != id ==> r.value.0.orders[i] == s.orders[i])
      && r.value.1.value.actualDeliveryTime == FindById(s.orders, id).value.actualDeliveryTime
      && r.value.1.value.estimatedDeliveryTime == FindById(s.orders, id).value.estimatedDeliveryTime
    ensures r.Ok? ==> r == Ok(ApplyStatus(s, id, Cancelled, now, draw))
  {
    match FindById(s.orders, id)
    case None => Err("Order not found")
    case Some(o) =>
      if !CanCancel(o.status) then Err("Cannot cancel order with status: " + o.status.Name())
      else
        ParseStatusName(Cancelled);
        assert ParseStatus("cancelled") == Some(Cancelled);
        var r := UpdateOrderStatus(s, id, "cancelled", now, draw);
        assert r == Ok(ApplyStatus(s, id, Cancelled, now, draw));
        r
  }

  /** Cancellation is allowed exactly from the four statuses before delivery starts, and the table agrees except for out_for_delivery. */
  lemma CancelAgainstTable(st: Status)
    ensures CanCancel(st) <==> st in {OrderPlaced, OrderConfirmed, Preparing, ReadyForPickup}
    ensures CanCancel(st) ==> ServiceTransition(st, Cancelled)
    ensures ServiceTransition(OutForDelivery, Cancelled) && !CanCancel(OutForDelivery)
  {
  }

  // ---------------------------------------------------------------- active orders and statistics

  predicate IsActive(o: Order) { !o.status.IsTerminal() }

  /** `getActiveOrdersForRestaurant`: the restaurant's orders that are neither delivered nor cancelled, newest first. */
  function ActiveOrdersForRestaurant(orders: seq<Order>, restaurantId: string): (r: seq<Order>)
    ensures forall i :: 0 <= i < |r| ==> r[i] in orders && r[i].restaurantId == restaurantId && IsActive(r[i])
    ensures forall i :: 0 <= i < |orders| && orders[i].restaurantId == restaurantId && IsActive(orders[i]) ==> orders[i] in r
    ensures multiset(r) == multiset(Filter(orders, (o: Order) => o.restaurantId == restaurantId && IsActive(o)))
    ensures SortedBy(r, OrderRepository.NewestFirst)
  {
    var all := FindByRestaurantId(orders, restaurantId);
    FilterKeepsSorted(all, IsActive, OrderRepository.NewestFirst);
    var r := Filter(all, IsActive);
    ActiveRestaurantMultiset(orders, all, restaurantId);
    r
  }

  lemma ActiveRestaurantMultiset(orders: seq<Order>, all: seq<Order>, restaurantId: string)
    requires multiset(all) == multiset(Filter(orders, (o: Order) => o.restaurantId == restaurantId))
    ensures multiset(Filter(all, IsActive)) == multiset(Filter(orders, (o: Order) => o.restaurantId == restaurantId && IsActive(o)))
  {
    var own := (o: Order) => o.restaurantId == restaurantId;
    var both := (o: Order) => o.restaurantId == restaurantId && IsActive(o);
    forall x ensures multiset(Filter(all, IsActive))[x] == multiset(Filter(orders, both))[x] {
      FilterMultiplicity(all, IsActive, x);
      FilterMultiplicity(orders, own, x);
      FilterMultiplicity(orders, both, x);
    }
  }

  /** A JavaScript number that may be NaN. */
  datatype Number = Num(x: real) | NaN

  datatype Statistics = Statistics(totalOrders: nat, byStatus: map<Status, nat>, totalRevenue: real, average: Number)

  function HasStatus(st: Status): Order -> bool { (o: Order) => o.status == st }

  function NotCancelled(o: Order): bool { o.status != Cancelled }

  /** The sum of `total` over a list, left to right. */
  function SumTotals(orders: seq<Order>): real {
    if |orders| == 0 then 0.0 else SumTotals(orders[..|orders| - 1]) + orders[|orders| - 1].total
  }

  lemma {:induction false} SumTotalsAppend(a: seq<Order>, b: seq<Order>)
    ensures SumTotals(a + b) == SumTotals(a) + SumTotals(b)
  {
    if |b| == 0 {
      assert a + b == a;
    } else {
      assert (a + b)[..|a + b| - 1] == a + b[..|b| - 1];
      SumTotalsAppend(a, b[..|b| - 1]);
    }
  }

  /** The sum of the totals does not depend on the order of the list. */
  lemma {:induction false} SumTotalsPermutation(a: seq<Order>, b: seq<Order>)
    requires multiset(a) == multiset(b)
    ensures SumTotals(a) == SumTotals(b)
    decreases |a|
  {
    if |a| == 0 {
      assert |multiset(b)| == 0;
    } else {
      var n := |a|;
      var x := a[n - 1];
      assert x in multiset(a);
      var j :| 0 <= j < |b| && b[j] == x;
      var rest := b[..j] + b[j + 1..];
      RemoveAt(a, b, j);
      SumTotalsPermutation(a[..n - 1], rest);
      SumTotalsWithout(b, j);
    }
  }

  /** The sum with element `j` left out is the sum less that element's total. */
  lemma SumTotalsWithout(b: seq<Order>, j: nat)
    requires j < |b|
    ensures SumTotals(b) == SumTotals(b[..j] + b[j + 1..]) + b[j].total
  {
    var x, pre, post := b[j], b[..j], b[j + 1..];
    var tail := [x] + post;
    assert b == pre + tail;
    SumTotalsAppend(pre, tail);
    SumTotalsAppend([x], post);
    SumTotalsAppend(pre, post);
    SumTotalsSingle(x);
    var whole, left, right, rest := SumTotals(b), SumTotals(pre), SumTotals(post), SumTotals(pre + post);
    assert whole == left + (x.total + right);
    assert rest == left + right;
  }

  lemma SumTotalsSingle(x: Order)
    ensures SumTotals([x]) == x.total
  {
    assert [x][..0] == [];
  }

  /** `averageOrderValue`: 0 for no orders; otherwise revenue over the non-cancelled count, which is 0/0 when all are cancelled. */
  function AverageOf(total: nat, cancelled: nat, revenue: real): (a: Number)
    requires cancelled <= total
    ensures total == 0 ==> a == Num(0.0)
    ensures total > 0 && cancelled == total ==> a == NaN
    ensures cancelled < total ==> a == Num(revenue / (total - cancelled) as real)
  {
    if total == 0 then Num(0.0)
    else if total - cancelled == 0 then NaN
    else Num(revenue / (total - cancelled) as real)
  }

  /** How many of `orders` have status `st`: the reference the counters are checked against. */
  function StatusCount(orders: seq<Order>, st: Status): nat {
    |Filter(orders, HasStatus(st))|
  }

  /** The revenue of `orders`: the sum of the totals of the non-cancelled ones. */
  function Revenue(orders: seq<Order>): real {
    SumTotals(Filter(orders, NotCancelled))
  }

  /** Reordering a list changes none of its counts and not its revenue. */
  lemma StatisticsPermutation(a: seq<Order>, b: seq<Order>)
    requires multiset(a) == multiset(b)
    ensures |a| == |b|
    ensures forall st: Status :: StatusCount(a, st) == StatusCount(b, st)
    ensures Revenue(a) == Revenue(b)
  {
    assert |multiset(a)| == |multiset(b)|;
    forall st: Status ensures StatusCount(a, st) == StatusCount(b, st) {
      FilterPermutation(a, b, HasStatus(st));
    }
    FilterPermutation(a, b, NotCancelled);
    SumTotalsPermutation(Filter(a, NotCancelled), Filter(b, NotCancelled));
  }

  /** Appending one order adds one to its own status's count and leaves the others. */
  lemma StatusCountStep(prefix: seq<Order>, o: Order, st: Status)
    ensures StatusCount(prefix + [o], st) == StatusCount(prefix, st) + (if o.status == st then 1 else 0)
  {
    FilterAppend(prefix, [o], HasStatus(st));
  }

  /** Appending one order adds its total to the revenue unless it is cancelled. */
  lemma RevenueStep(prefix: seq<Order>, o: Order)
    ensures Revenue(prefix + [o]) == Revenue(prefix) + (if o.status != Cancelled then o.total else 0.0)
  {
    FilterAppend(prefix, [o], NotCancelled);
    SumTotalsAppend(Filter(prefix, NotCancelled), Filter([o], NotCancelled));
  }

  /** Every status has a counter, all starting at zero. */
  function ZeroCounts(): (m: map<Status, nat>)
    ensures forall st: Status :: st in m && m[st] == 0
  {
    var m: map<Status, nat> := map st | st in AllStatuses :: 0;
    forall st: Status ensures st in m {
      AllStatusesComplete(st);
    }
    m
  }

  /**
    `getOrderStatistics` over a list of orders: the `forEach` that counts statuses
    and accumulates the revenue of non-cancelled orders.
  */
  method ComputeStatistics(orders: seq<Order>) returns (stats: Statistics)
    ensures stats.totalOrders == |orders|
    ensures forall st: Status :: st in stats.byStatus && stats.byStatus[st] == |Filter(orders, HasStatus(st))|
    ensures stats.totalRevenue == SumTotals(Filter(orders, NotCancelled))
    ensures stats.average == AverageOf(|orders|, |Filter(orders, HasStatus(Cancelled))|, stats.totalRevenue)
  {
    var counts := ZeroCounts();
    var revenue := 0.0;
    assert orders[..0] == [];
    for k := 0 to |orders|
      invariant forall st: Status :: st in counts && counts[st] == StatusCount(orders[..k], st)
      invariant revenue == Revenue(orders[..k])
    {
      var o := orders[k];
      assert orders[..k + 1] == orders[..k] + [o];
      forall st: Status ensures StatusCount(orders[..k + 1], st) == StatusCount(orders[..k], st) + (if o.status == st then 1 else 0) {
        StatusCountStep(orders[..k], o, st);
      }
      RevenueStep(orders[..k], o);
      counts := counts[o.status := counts[o.status] + 1];
      if o.status != Cancelled {
        revenue := revenue + o.total;
      }
    }
    assert orders[..|orders|] == orders;
    stats := Statistics(|orders|, counts, revenue, AverageOf(|orders|, counts[Cancelled], revenue));
  }

  /** The seven counters add up to the number of orders: every order has exactly one status. */
  lemma {:induction false} CountsSumToTotal(orders: seq<Order>)
    ensures |Filter(orders, HasStatus(OrderPlaced))| + |Filter(orders, HasStatus(OrderConfirmed))|
          + |Filter(orders, HasStatus(Preparing))| + |Filter(orders, HasStatus(ReadyForPickup))|
          + |Filter(orders, HasStatus(OutForDelivery))| + |Filter(orders, HasStatus(Delivered))|
          + |Filter(orders, HasStatus(Cancelled))| == |orders|
  {
    if |orders| > 0 {
      CountsSumToTotal(orders[1..]);
    }
  }

  /** The orders `getOrderStatistics` looks at: a truthy restaurant id restricts to that restaurant's, otherwise all. */
  function StatisticsScope(orders: seq<Order>, restaurantId: Option<string>): seq<Order> {
    if restaurantId.Some? && restaurantId.value != "" then Filter(orders, (o: Order) => o.restaurantId == restaurantId.value)
    else orders
  }

  /**
    `getOrderStatistics(restaurantId?)`: the statistics of the scope, read in the
    finder's newest-first order; the counts and revenue do not depend on that order.
  */
  method OrderStatistics(orders: seq<Order>, restaurantId: Option<string>) returns (stats: Statistics)
    ensures var scope := StatisticsScope(orders, restaurantId);
      && stats.totalOrders == |scope|
      && (forall st: Status :: st in stats.byStatus && stats.byStatus[st] == StatusCount(scope, st))
      && stats.totalRevenue == Revenue(scope)
      && stats.average == AverageOf(|scope|, StatusCount(scope, Cancelled), Revenue(scope))
    ensures stats.totalOrders == 0 ==> stats.average == Num(0.0) && stats.totalRevenue == 0.0
  {
    var scope := StatisticsScope(orders, restaurantId);
    var read;
    if restaurantId.Some? && restaurantId.value != "" {
      read := FindByRestaurantId(orders, restaurantId.value);
    } else {
      read := FindAll(orders);
    }
    assert multiset(read) == multiset(scope);
    stats := ComputeStatistics(read);
    StatisticsPermutation(read, scope);
    assert Filter(scope, NotCancelled) == [] ==> Revenue(scope) == 0.0;
  }
}
