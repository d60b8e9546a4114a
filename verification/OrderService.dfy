/** The order service: it creates an order and its outbox row together, and follows dispatch events. */
module OrderService {
  import opened Common
  import opened Outbox
  import DispatchSpec

  datatype OrderStatus = PendingDispatch | Offered | Assigned | Completed | Cancelled

  datatype Order = Order(
    merchantId: string,
    clientOrderId: Option<string>,
    pickup: Point,
    status: OrderStatus,
    assignedDriverId: Option<DriverId>)

  datatype CreateOrder = CreateOrder(merchantId: string, clientOrderId: Option<string>, pickup: Point)

  // Absent and empty fields are alike to the handler, and are None here.
  datatype DispatchOrderEvent = DispatchOrderEvent(
    eventType: Option<DispatchSpec.EventType>, orderId: Option<OrderId>, driverId: Option<DriverId>)

  type Orders = map<OrderId, Order>

  /** The unique index on (merchantId, clientOrderId); orders without a client id never clash. */
  predicate Clashes(orders: Orders, dto: CreateOrder) {
    dto.clientOrderId.Some? &&
    exists o | o in orders :: orders[o].merchantId == dto.merchantId && orders[o].clientOrderId == dto.clientOrderId
  }

  function NewOrder(dto: CreateOrder): Order {
    Order(dto.merchantId, dto.clientOrderId, dto.pickup, PendingDispatch, None)
  }

  /** The outbox row written in the order's own transaction. */
  function NewOutboxRow(id: OrderId, order: Order): OutboxRow {
    OutboxRow(id, OrderPayload(id, order.pickup), Pending, 0)
  }

  function StatusFromDispatchEvent(t: DispatchSpec.EventType): Option<OrderStatus> {
    match t
    case AssignmentOffered => Some(OrderStatus.Offered)
    case AssignmentConfirmed => Some(Assigned)
    case AssignmentCompleted => Some(Completed)
    case AssignmentCancelled => Some(Cancelled)
    case AssignmentTimeout => None
  }

  /** The order row after one dispatch event about it. */
  function Updated(order: Order, e: DispatchOrderEvent): Order {
    if e.eventType.None? || StatusFromDispatchEvent(e.eventType.value).None? then order
    else
      var status := StatusFromDispatchEvent(e.eventType.value).value;
      if e.driverId.Some? then order.(status := status, assignedDriverId := e.driverId)
      else order.(status := status)
  }

  function Consume(orders: Orders, e: DispatchOrderEvent): Orders {
    if e.orderId.Some? && e.orderId.value in orders
    then orders[e.orderId.value := Updated(orders[e.orderId.value], e)]
    else orders
  }

  /** The status an event brings, told event by event; a timeout brings none. */
  ghost predicate Brings(t: DispatchSpec.EventType, status: OrderStatus) {
    || (t == DispatchSpec.AssignmentOffered && status == OrderStatus.Offered)
    || (t == DispatchSpec.AssignmentConfirmed && status == Assigned)
    || (t == DispatchSpec.AssignmentCompleted && status == Completed)
    || (t == DispatchSpec.AssignmentCancelled && status == Cancelled)
  }

  /** An event that brings a status sets the order it names to it, and its driver if it names one; everything
      else of that order, every other order, and every order after any other message stay as they were. */
  lemma ConsumeOutcome(orders: Orders, e: DispatchOrderEvent)
    ensures var after := Consume(orders, e);
            && after.Keys == orders.Keys
            && forall o | o in orders ::
                 if e.orderId == Some(o) && e.eventType.Some? && !e.eventType.value.AssignmentTimeout?
                 then
                   && Brings(e.eventType.value, after[o].status)
                   && after[o].assignedDriverId == (if e.driverId.Some? then e.driverId else orders[o].assignedDriverId)
                   && after[o].merchantId == orders[o].merchantId && after[o].clientOrderId == orders[o].clientOrderId
                   && after[o].pickup == orders[o].pickup
                 else after[o] == orders[o]
  {
    assert e.orderId.Some? && e.orderId.value in orders ==> orders.Keys + {e.orderId.value} == orders.Keys;
  }

  class OrderService {
    var orders: Orders
    var outbox: seq<OutboxRow>
    var notified: seq<nat>   // in-process outbox.event_created notifications

    constructor ()
      ensures orders == map[] && outbox == [] && notified == []
    {
      orders, outbox, notified := map[], [], [];
    }

    /** `id` is the fresh UUID the database gives the order. The order and its outbox row are
        written together or not at all. */
    method Create(dto: CreateOrder, id: OrderId) returns (created: bool)
      requires id !in orders
      modifies this
      ensures created == !Clashes(old(orders), dto)
      ensures created ==>
                && orders == old(orders)[id := Order(dto.merchantId, dto.clientOrderId, dto.pickup, PendingDispatch, None)]
                && outbox == old(outbox) + [OutboxRow(id, OrderPayload(id, dto.pickup), Pending, 0)]
                && notified == old(notified) + [|old(outbox)|]
      ensures !created ==> orders == old(orders) && outbox == old(outbox) && notified == old(notified)
    {
      if Clashes(orders, dto) {
        return false;
      }
      var newOrder := Order(dto.merchantId, dto.clientOrderId, dto.pickup, PendingDispatch, None);
      orders := orders[id := newOrder];
      outbox := outbox + [OutboxRow(id, OrderPayload(id, newOrder.pickup), Pending, 0)];
      notified := notified + [|outbox| - 1];
      created := true;
    }

    method HandleDispatchEvent(e: DispatchOrderEvent)
      modifies this`orders
      ensures orders == Consume(old(orders), e)
    {
      if e.eventType.None? || e.orderId.None? {
        return;
      }
      var status := StatusFromDispatchEvent(e.eventType.value);
      if status.None? {
        return;
      }
      var o := e.orderId.value;
      if o !in orders {
        return;
      }
      var order := orders[o].(status := status.value);
      orders := orders[o := if e.driverId.Some? then order.(assignedDriverId := e.driverId) else order];
    }
  }
}
