/**
  The order records: the seven order statuses with their wire names, an order
  header, an order line, and the data a caller supplies to create them. Money is
  a `real` number of dollars; timestamps are integer milliseconds.
*/
module Orders {
  import opened Common

  /** The order statuses, in the order the kitchen moves through them. */
  datatype Status =
    | OrderPlaced
    | OrderConfirmed
    | Preparing
    | ReadyForPickup
    | OutForDelivery
    | Delivered
    | Cancelled
  {
    /** The status as stored in the `status` column and sent over the wire. */
    function Name(): string {
      match this
      case OrderPlaced => "order_placed"
      case OrderConfirmed => "order_confirmed"
      case Preparing => "preparing"
      case ReadyForPickup => "ready_for_pickup"
      case OutForDelivery => "out_for_delivery"
      case Delivered => "delivered"
      case Cancelled => "cancelled"
    }

    /** Delivered and cancelled orders are finished; every other order is active. */
    predicate IsTerminal() {
      this == Delivered || this == Cancelled
    }
  }

  /** The seven statuses in declaration order. */
  const AllStatuses: seq<Status> :=
    [OrderPlaced, OrderConfirmed, Preparing, ReadyForPickup, OutForDelivery, Delivered, Cancelled]

  /** Reads a wire name back; any other string is not a status. */
  function ParseStatus(s: string): (r: Option<Status>)
    ensures r.Some? ==> r.value.Name() == s
  {
    if s == "order_placed" then Some(OrderPlaced)
    else if s == "order_confirmed" then Some(OrderConfirmed)
    else if s == "preparing" then Some(Preparing)
    else if s == "ready_for_pickup" then Some(ReadyForPickup)
    else if s == "out_for_delivery" then Some(OutForDelivery)
    else if s == "delivered" then Some(Delivered)
    else if s == "cancelled" then Some(Cancelled)
    else None
  }

  /** Every status reads back from its own name, so names are distinct and parsing inverts naming. */
  lemma ParseStatusName(st: Status)
    ensures ParseStatus(st.Name()) == Some(st)
  {
  }

  lemma StatusNamesDistinct(a: Status, b: Status)
    ensures a.Name() == b.Name() ==> a == b
  {
    ParseStatusName(a);
    ParseStatusName(b);
  }

  lemma AllStatusesComplete(st: Status)
    ensures st in AllStatuses
  {
  }

  /** An order header as stored in the `orders` table. */
  datatype Order = Order(
    id: string,
    restaurantId: string,
    customerName: string,
    customerEmail: string,
    customerPhone: Option<string>,
    deliveryAddress: string,
    status: Status,
    subtotal: real,
    tax: real,
    deliveryFee: real,
    total: real,
    paymentMethod: string,
    paymentTransactionId: Option<string>,
    estimatedDeliveryTime: Option<int>,
    actualDeliveryTime: Option<int>,
    specialInstructions: Option<string>,
    createdAt: int,
    updatedAt: int)

  /** One order line as stored in the `order_items` table. */
  datatype OrderItem = OrderItem(
    id: string,
    orderId: string,
    menuItemId: string,
    quantity: int,
    unitPrice: real,
    totalPrice: real,
    createdAt: int)

  /** The line data a caller supplies to create an order line. */
  datatype NewOrderItem = NewOrderItem(menuItemId: string, quantity: int, unitPrice: real, totalPrice: real)

  /** The data a caller supplies to create an order. */
  datatype NewOrder = NewOrder(
    restaurantId: string,
    customerName: string,
    customerEmail: string,
    customerPhone: Option<string>,
    deliveryAddress: string,
    subtotal: real,
    tax: real,
    deliveryFee: real,
    total: real,
    paymentMethod: string,
    paymentTransactionId: Option<string>,
    estimatedDeliveryTime: Option<int>,
    specialInstructions: Option<string>,
    items: seq<NewOrderItem>)
}
