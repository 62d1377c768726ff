/** The whole order/inventory saga: two databases, two topics, any number of concurrent
    requests and consumers. Every step is a committed transaction, a read, or a relay step;
    a transaction that aborts is a step that does not happen, and a step that is not enabled
    leaves the state alone, so every list of steps is a run. */
module Saga {
  import opened Events
  import opened Outbox
  import I = Inventory
  import O = Orders
  import Dedup

  type RequestId = nat

  /** Something that has read an order row and has yet to act on what it read. */
  datatype Request =
    | Update(id: OrderId, seen: O.Order)                            // a user's pay or cancel
    | Handling(msg: Msg<InventoryEvent>, snapshot: Option<O.Order>) // an inventory-event transaction

  datatype State = State(
    odb: O.Db,
    idb: I.Db,
    orderLog: seq<Msg<OrderEvent>>,
    inventoryLog: seq<Msg<InventoryEvent>>,
    requests: map<RequestId, Request>)

  datatype Step =
    | CreateOrder(id: OrderId, req: O.NewOrder, eid: EventId)
    | ReadOrder(r: RequestId, userId: UserId, id: OrderId)
    | Pay(r: RequestId)
    | UserCancel(r: RequestId, eid: EventId)
    | BeginInventoryEvent(r: RequestId, inv: Msg<InventoryEvent>)
    | CommitInventoryEvent(r: RequestId, eid: EventId)
    | CommitOrderEvent(ord: Msg<OrderEvent>, eid: EventId)
    | RelayOrders(relay: RelayStep)
    | RelayInventory(relay: RelayStep)

  function OrderChannel(s: State): Channel<OrderEvent> {
    Channel(s.odb.data.outbox, s.orderLog)
  }

  function InventoryChannel(s: State): Channel<InventoryEvent> {
    Channel(s.idb.data.outbox, s.inventoryLog)
  }

  function WithOrders(s: State, t: O.Tables): State {
    s.(odb := s.odb.(data := t))
  }

  /** The order an inventory event is about. */
  function Subject(event: InventoryEvent): Option<OrderId> {
    match event
    case InventoryReserved(id) => Some(id)
    case ReservationFailed(id, _) => Some(id)
    case OtherInventoryEvent => None
  }

  function Lookup(orders: map<OrderId, O.Order>, id: Option<OrderId>): Option<O.Order> {
    if id.Some? && id.value in orders then Some(orders[id.value]) else None
  }

  function Next(s: State, step: Step): State {
    match step
    case CreateOrder(id, req, eid) =>
      (match O.Create(s.odb.data, id, req, eid)
       case None => s
       case Some(t) => WithOrders(s, t))
    case ReadOrder(r, userId, id) =>
      if id in s.odb.data.orders && s.odb.data.orders[id].userId == userId
      then s.(requests := s.requests[r := Update(id, s.odb.data.orders[id])])
      else s
    case Pay(r) =>
      if r in s.requests && s.requests[r].Update? && O.IsValidTransition(s.requests[r].seen.status, O.Paid) then
        match O.Pay(s.odb.data, s.requests[r].id, s.requests[r].seen)
        case None => s
        case Some(t) => WithOrders(s, t)
      else s
    case UserCancel(r, eid) =>
      if r in s.requests && s.requests[r].Update? && O.IsValidTransition(s.requests[r].seen.status, O.Cancelled) then
        match O.Cancel(s.odb.data, s.requests[r].id, s.requests[r].seen, UserCancelled, eid)
        case Done(t) => WithOrders(s, t)
        case Conflict => s
        case RolledBack => s
      else s
    case BeginInventoryEvent(r, msg) =>
      if msg in s.inventoryLog
      then s.(requests := s.requests[r := Handling(msg, Lookup(s.odb.data.orders, Subject(msg.event)))])
      else s
    case CommitInventoryEvent(r, eid) =>
      if r in s.requests && s.requests[r].Handling?
      then s.(odb := O.Commit(s.odb, s.requests[r].msg, s.requests[r].snapshot, eid))
      else s
    case CommitOrderEvent(msg, eid) =>
      if msg in s.orderLog then s.(idb := I.Commit(s.idb, msg, eid)) else s
    case RelayOrders(relay) =>
      var ch := Relay(OrderChannel(s), relay);
      WithOrders(s, s.odb.data.(outbox := ch.outbox)).(orderLog := ch.log)
    case RelayInventory(relay) =>
      var ch := Relay(InventoryChannel(s), relay);
      s.(idb := s.idb.(data := s.idb.data.(outbox := ch.outbox)), inventoryLog := ch.log)
  }

  function Exec(s: State, steps: seq<Step>): State {
    if steps == [] then s else Next(Exec(s, steps[..|steps| - 1]), steps[|steps| - 1])
  }

  /** No orders yet, and every product fully available. */
  function Init(totals: map<Sku, nat>): State {
    State(
      Dedup.Store(O.Tables(map[], map[]), map[]),
      Dedup.Store(I.Tables(map sku | sku in totals :: I.Product(totals[sku], totals[sku]), map[], map[]), map[]),
      [], [], map[])
  }

  /** Everything written has been relayed and everything relayed has been processed. */
  ghost predicate Quiescent(s: State) {
    && (forall e :: e in s.odb.data.outbox ==> s.odb.data.outbox[e].status == RowSent)
    && (forall e :: e in s.idb.data.outbox ==> s.idb.data.outbox[e].status == RowSent)
    && (forall m :: m in s.orderLog ==> m.eid in s.idb.processed)
    && (forall m :: m in s.inventoryLog ==> m.eid in s.odb.processed)
  }
}
