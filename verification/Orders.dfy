/** The order database as values: compare-and-set on status and version, and the three
    transactions that change orders together with the order outbox. */
module Orders {
  import opened Events
  import opened Outbox
  import Dedup

  datatype OrderStatus = Pending | Paid | Cancelled

  datatype Order = Order(
    userId: UserId, sku: Sku, quantity: int, productName: string, amount: int,
    status: OrderStatus, version: nat, cancelReason: Option<Reason>)

  datatype NewOrder = NewOrder(userId: UserId, sku: Sku, quantity: int, productName: string, amount: int)

  datatype Tables = Tables(orders: map<OrderId, Order>, outbox: map<EventId, Row<OrderEvent>>)

  type Db = Dedup.Store<Tables>

  predicate IsValidTransition(from: OrderStatus, to: OrderStatus) {
    from == Pending && (to == Paid || to == Cancelled)
  }

  /** The row the compare-and-set is aimed at still has the owner, status and version it names. */
  predicate Matches(orders: map<OrderId, Order>, userId: UserId, id: OrderId, status: OrderStatus, version: nat) {
    id in orders && orders[id].userId == userId && orders[id].status == status && orders[id].version == version
  }

  function Advance(o: Order, status: OrderStatus, reason: Option<Reason>): Order {
    o.(status := status, version := o.version + 1, cancelReason := reason)
  }

  function CreatedEvent(id: OrderId, o: Order): OrderEvent {
    OrderCreated(id, o.userId, o.sku, o.quantity, o.productName, o.amount)
  }

  function CancelledEvent(id: OrderId, o: Order): OrderEvent
    requires o.cancelReason.Some?
  {
    OrderCancelled(id, o.sku, o.quantity, o.cancelReason.value)
  }

  /** A created order and its event; None if the outbox or the primary key refuses the row. */
  function Create(t: Tables, id: OrderId, req: NewOrder, eid: EventId): Option<Tables> {
    if id in t.orders || eid in t.outbox then None
    else
      var o := Order(req.userId, req.sku, req.quantity, req.productName, req.amount, Pending, 0, None);
      Some(Tables(t.orders[id := o], t.outbox[eid := Fresh(CreatedEvent(id, o))]))
  }

  /** What a cancelling transaction can do: cancel, lose the race, or roll back. */
  datatype CancelResult = Done(tables: Tables) | Conflict | RolledBack

  /** Cancel the order as `seen` (read earlier) describes it, and write its event. */
  function Cancel(t: Tables, id: OrderId, seen: Order, reason: Reason, eid: EventId): CancelResult {
    if !Matches(t.orders, seen.userId, id, Pending, seen.version) then Conflict
    else if eid in t.outbox then RolledBack
    else
      var o := Advance(t.orders[id], Cancelled, Some(reason));
      Done(Tables(t.orders[id := o], t.outbox[eid := Fresh(CancelledEvent(id, o))]))
  }

  /** Mark the order paid if it still is as `seen` describes it; the outbox is not involved. */
  function Pay(t: Tables, id: OrderId, seen: Order): Option<Tables> {
    if !Matches(t.orders, seen.userId, id, seen.status, seen.version) then None
    else Some(t.(orders := t.orders[id := t.orders[id].(status := Paid, version := seen.version + 1)]))
  }

  /** The body of the inventory-event transaction, given its snapshot of the order row. */
  function Handle(t: Tables, event: InventoryEvent, seen: Option<Order>, newEid: EventId): Option<Tables> {
    match event
    case ReservationFailed(id, _) =>
      if seen.None? || seen.value.status == Cancelled then Some(t)
      else
        (match Cancel(t, id, seen.value, OutOfStock, newEid)
         case Done(t') => Some(t')
         case Conflict => Some(t)
         case RolledBack => None)
    case _ => Some(t)
  }

  function Process(db: Db, msg: Msg<InventoryEvent>, seen: Option<Order>, newEid: EventId): Option<Db> {
    Dedup.Process(db, msg.eid, (t: Tables) => Handle(t, msg.event, seen, newEid))
  }

  function Commit(db: Db, msg: Msg<InventoryEvent>, seen: Option<Order>, newEid: EventId): Db {
    Dedup.After(db, msg.eid, (t: Tables) => Handle(t, msg.event, seen, newEid))
  }

  /** What holds of every row: the version is 0 exactly while pending and 1 after, and a
      reason is recorded exactly when the order is cancelled. */
  ghost predicate WellFormed(o: Order) {
    && o.version == (if o.status == Pending then 0 else 1)
    && (o.cancelReason.Some? <==> o.status == Cancelled)
  }

  /** `seen` is what some earlier moment showed of `now`: same order, and identical unless
      the version has moved on. */
  ghost predicate EarlierView(seen: Order, now: Order) {
    && seen.version <= now.version
    && (seen.version == now.version ==> seen == now)
    && WellFormed(seen)
    && seen.userId == now.userId && seen.sku == now.sku && seen.quantity == now.quantity
    && seen.productName == now.productName && seen.amount == now.amount
  }
}
