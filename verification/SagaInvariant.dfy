/** The inductive invariant of the saga. It follows three links from an order to outbox
    rows: its OrderCreated row, its OrderCancelled row, and the inventory's answer. The links
    are part of the proof only; no step of the saga reads them. */
module SagaInvariant {
  import opened Events
  import opened Outbox
  import opened Saga
  import I = Inventory
  import O = Orders

  datatype Links = Links(
    created: map<OrderId, EventId>, cancelled: map<OrderId, EventId>, outcome: map<OrderId, EventId>)

  /** The order outbox holds one OrderCreated row per order, one OrderCancelled row per
      cancelled order, both telling the order's own data, and nothing else. */
  ghost predicate OrderOutbox(t: O.Tables, created: map<OrderId, EventId>, cancelled: map<OrderId, EventId>) {
    CreatedRows(t, created) && CancelledRows(t, cancelled) && RowsHaveOrders(t, created, cancelled)
  }

  ghost predicate CreatedRows(t: O.Tables, created: map<OrderId, EventId>) {
    && created.Keys == t.orders.Keys
    && (forall id :: id in created ==>
         created[id] in t.outbox && t.outbox[created[id]].event == O.CreatedEvent(id, t.orders[id]))
  }

  ghost predicate CancelledRows(t: O.Tables, cancelled: map<OrderId, EventId>) {
    && (forall id :: id in cancelled <==> id in t.orders && t.orders[id].status == O.Cancelled)
    && (forall id :: id in cancelled ==>
         t.orders[id].cancelReason.Some?
         && cancelled[id] in t.outbox && t.outbox[cancelled[id]].event == O.CancelledEvent(id, t.orders[id]))
  }

  ghost predicate RowsHaveOrders(t: O.Tables, created: map<OrderId, EventId>, cancelled: map<OrderId, EventId>) {
    forall e :: e in t.outbox ==>
      match t.outbox[e].event
      case OrderCreated(id, _, _, _, _, _) => id in created && created[id] == e
      case OrderCancelled(id, _, _, _) => id in cancelled && cancelled[id] == e
      case OtherOrderEvent => false
  }

  ghost predicate OrderRows(orders: map<OrderId, O.Order>) {
    forall id :: id in orders ==> O.WellFormed(orders[id])
  }

  /** Each processed OrderCreated has one answer in the inventory outbox, and there are no others. */
  ghost predicate Outcomes(t: I.Tables, outcome: map<OrderId, EventId>) {
    && (forall id :: id in outcome ==>
         outcome[id] in t.outbox
         && t.outbox[outcome[id]].event
              == if id in t.reservations then InventoryReserved(id) else ReservationFailed(id, OutOfStock))
    && (forall e :: e in t.outbox ==>
         Subject(t.outbox[e].event).Some?
         && Subject(t.outbox[e].event).value in outcome && outcome[Subject(t.outbox[e].event).value] == e)
    && (forall id :: id in t.reservations ==> id in outcome)
  }

  /** A reservation carries its order's product and quantity. */
  ghost predicate OwnReservations(orders: map<OrderId, O.Order>, rs: map<OrderId, I.Reservation>) {
    forall id :: id in rs ==> id in orders && rs[id].sku == orders[id].sku && rs[id].quantity == orders[id].quantity
  }

  /** The inventory handled the order's cancellation after its creation. */
  ghost predicate CompensatedAfter(processed: map<EventId, nat>, w: Links, id: OrderId) {
    && id in w.created && w.created[id] in processed
    && id in w.cancelled && w.cancelled[id] in processed
    && processed[w.created[id]] < processed[w.cancelled[id]]
  }

  /** A reservation is released exactly when its order's cancellation was handled after its creation. */
  ghost predicate Releases(idb: I.Db, w: Links) {
    forall id :: id in idb.data.reservations ==>
      (idb.data.reservations[id].status == I.Released <==> CompensatedAfter(idb.processed, w, id))
  }

  ghost predicate InventoryProcessed(t: O.Tables, processed: map<EventId, nat>, w: Links) {
    && (forall e :: e in processed ==> e in t.outbox && processed[e] < |processed|)
    && (forall id :: id in w.outcome <==> id in w.created && w.created[id] in processed)
  }

  ghost predicate OrdersProcessed(processed: map<EventId, nat>, t: I.Tables) {
    forall e :: e in processed ==> e in t.outbox
  }

  /** How the inventory's refusal and an order's status hang together. */
  ghost predicate Refusals(odb: O.Db, rs: map<OrderId, I.Reservation>, outcome: map<OrderId, EventId>) {
    forall id :: id in odb.data.orders ==>
      && (odb.data.orders[id].cancelReason == Some(OutOfStock) ==> id in outcome && id !in rs)
      && (id in outcome && id !in rs && outcome[id] in odb.processed ==> odb.data.orders[id].status != O.Pending)
  }

  ghost predicate ValidRead(q: Request, orders: map<OrderId, O.Order>, log: seq<Msg<InventoryEvent>>) {
    match q
    case Update(id, seen) => id in orders && O.EarlierView(seen, orders[id])
    case Handling(msg, snapshot) =>
      && msg in log
      && (Subject(msg.event).Some? ==>
            && Subject(msg.event).value in orders && snapshot.Some?
            && O.EarlierView(snapshot.value, orders[Subject(msg.event).value]))
  }

  ghost predicate Reads(
    requests: map<RequestId, Request>, orders: map<OrderId, O.Order>, log: seq<Msg<InventoryEvent>>)
  {
    forall r :: r in requests ==> ValidRead(requests[r], orders, log)
  }

  ghost predicate Inv(s: State, w: Links) {
    && Faithful(OrderChannel(s))
    && Faithful(InventoryChannel(s))
    && OrderOutbox(s.odb.data, w.created, w.cancelled)
    && OrderRows(s.odb.data.orders)
    && Outcomes(s.idb.data, w.outcome)
    && OwnReservations(s.odb.data.orders, s.idb.data.reservations)
    && Releases(s.idb, w)
    && InventoryProcessed(s.odb.data, s.idb.processed, w)
    && OrdersProcessed(s.odb.processed, s.idb.data)
    && Refusals(s.odb, s.idb.data.reservations, w.outcome)
    && Reads(s.requests, s.odb.data.orders, s.inventoryLog)
    && I.Conserved(s.idb.data)
  }

  lemma InitConserved(totals: map<Sku, nat>)
    ensures I.Conserved(Init(totals).idb.data)
  {
    var rs: map<OrderId, I.Reservation> := map[];
    forall sku: Sku ensures I.Held(rs, sku) == map[] {
    }
  }

  lemma InitInv(totals: map<Sku, nat>)
    ensures Inv(Init(totals), Links(map[], map[], map[]))
  {
    InitConserved(totals);
  }

  // ---------------------------------------------------------------- order rows move only forward

  /** An order row after any step: the same, or still the same order one version on. */
  ghost predicate Forward(before: map<OrderId, O.Order>, after: map<OrderId, O.Order>) {
    forall id :: id in before ==>
      id in after && (after[id] == before[id] || (after[id].version > before[id].version
        && after[id].userId == before[id].userId && after[id].sku == before[id].sku
        && after[id].quantity == before[id].quantity && after[id].productName == before[id].productName
        && after[id].amount == before[id].amount))
  }

  /** What was read stays an earlier view of the row while rows move forward and the log grows. */
  lemma ReadsSurvive(requests: map<RequestId, Request>, before: map<OrderId, O.Order>, after: map<OrderId, O.Order>,
                     log: seq<Msg<InventoryEvent>>, log': seq<Msg<InventoryEvent>>)
    requires Reads(requests, before, log) && Forward(before, after)
    requires forall m :: m in log ==> m in log'
    ensures Reads(requests, after, log')
  {
    forall r | r in requests ensures ValidRead(requests[r], after, log') {
      assert ValidRead(requests[r], before, log);
    }
  }

  // ---------------------------------------------------------------- creating an order

  lemma CreateOutbox(t: O.Tables, created: map<OrderId, EventId>, cancelled: map<OrderId, EventId>,
                     id: OrderId, req: O.NewOrder, eid: EventId)
    requires OrderOutbox(t, created, cancelled) && O.Create(t, id, req, eid).Some?
    ensures OrderOutbox(O.Create(t, id, req, eid).value, created[id := eid], cancelled)
  {
    CreateCancelledRows(t, cancelled, id, req, eid);
    CreateCreatedRows(t, created, id, req, eid);
    assert id !in created;
  }

  lemma CreateCreatedRows(t: O.Tables, created: map<OrderId, EventId>, id: OrderId, req: O.NewOrder, eid: EventId)
    requires CreatedRows(t, created) && O.Create(t, id, req, eid).Some?
    ensures CreatedRows(O.Create(t, id, req, eid).value, created[id := eid])
  {
  }

  lemma CreateCancelledRows(t: O.Tables, cancelled: map<OrderId, EventId>, id: OrderId, req: O.NewOrder, eid: EventId)
    requires CancelledRows(t, cancelled) && O.Create(t, id, req, eid).Some?
    ensures CancelledRows(O.Create(t, id, req, eid).value, cancelled)
  {
  }

  /** The inventory's side knows nothing of an order that is only now created. */
  lemma CreateUnseen(odb: O.Db, rs: map<OrderId, I.Reservation>, outcome: map<OrderId, EventId>,
                     id: OrderId, req: O.NewOrder, eid: EventId)
    requires O.Create(odb.data, id, req, eid).Some?
    requires OwnReservations(odb.data.orders, rs) && Refusals(odb, rs, outcome) && id !in outcome
    ensures var t := O.Create(odb.data, id, req, eid).value;
            OwnReservations(t.orders, rs) && Refusals(odb.(data := t), rs, outcome)
  {
  }

  lemma CreateUnprocessed(t: O.Tables, idb: I.Db, w: Links, id: OrderId, req: O.NewOrder, eid: EventId)
    requires O.Create(t, id, req, eid).Some?
    requires w.created.Keys == t.orders.Keys && OwnReservations(t.orders, idb.data.reservations)
    requires Releases(idb, w) && InventoryProcessed(t, idb.processed, w)
    ensures var t', w' := O.Create(t, id, req, eid).value, w.(created := w.created[id := eid]);
            Releases(idb, w') && InventoryProcessed(t', idb.processed, w')
  {
    var w' := w.(created := w.created[id := eid]);
    forall i | i in idb.data.reservations
      ensures CompensatedAfter(idb.processed, w', i) <==> CompensatedAfter(idb.processed, w, i)
    {
    }
  }

  lemma CreateKeeps(s: State, w: Links, id: OrderId, req: O.NewOrder, eid: EventId)
    requires Inv(s, w) && O.Create(s.odb.data, id, req, eid).Some?
    ensures Inv(WithOrders(s, O.Create(s.odb.data, id, req, eid).value), w.(created := w.created[id := eid]))
  {
    var t := O.Create(s.odb.data, id, req, eid).value;
    assert id !in w.outcome;
    CreateOutbox(s.odb.data, w.created, w.cancelled, id, req, eid);
    CreateUnseen(s.odb, s.idb.data.reservations, w.outcome, id, req, eid);
    CreateUnprocessed(s.odb.data, s.idb, w, id, req, eid);
    InsertIsFaithful(OrderChannel(s), eid, O.CreatedEvent(id, t.orders[id]));
    CreateRows(s.odb.data, id, req, eid);
    ReadsSurvive(s.requests, s.odb.data.orders, t.orders, s.inventoryLog, s.inventoryLog);
  }

  lemma CreateRows(t: O.Tables, id: OrderId, req: O.NewOrder, eid: EventId)
    requires OrderRows(t.orders) && O.Create(t, id, req, eid).Some?
    ensures OrderRows(O.Create(t, id, req, eid).value.orders)
    ensures Forward(t.orders, O.Create(t, id, req, eid).value.orders)
    ensures id in O.Create(t, id, req, eid).value.orders
    ensures eid !in t.outbox
      && O.Create(t, id, req, eid).value.outbox
         == t.outbox[eid := Fresh(O.CreatedEvent(id, O.Create(t, id, req, eid).value.orders[id]))]
  {
  }

  // ---------------------------------------------------------------- paying

  lemma PayOutbox(t: O.Tables, created: map<OrderId, EventId>, cancelled: map<OrderId, EventId>,
                  id: OrderId, seen: O.Order)
    requires OrderOutbox(t, created, cancelled) && O.Pay(t, id, seen).Some? && seen.status == O.Pending
    ensures OrderOutbox(O.Pay(t, id, seen).value, created, cancelled)
  {
  }

  lemma PayRows(odb: O.Db, rs: map<OrderId, I.Reservation>, outcome: map<OrderId, EventId>, id: OrderId, seen: O.Order)
    requires OrderRows(odb.data.orders) && O.Pay(odb.data, id, seen).Some? && seen.status == O.Pending
    requires OwnReservations(odb.data.orders, rs) && Refusals(odb, rs, outcome)
    ensures var t := O.Pay(odb.data, id, seen).value;
            && OrderRows(t.orders) && Forward(odb.data.orders, t.orders)
            && OwnReservations(t.orders, rs) && Refusals(odb.(data := t), rs, outcome)
  {
  }

  lemma PayKeeps(s: State, w: Links, r: RequestId)
    requires Inv(s, w)
    ensures Inv(Next(s, Pay(r)), w)
  {
    var s' := Next(s, Pay(r));
    if s' != s {
      PayOutbox(s.odb.data, w.created, w.cancelled, s.requests[r].id, s.requests[r].seen);
      PayRows(s.odb, s.idb.data.reservations, w.outcome, s.requests[r].id, s.requests[r].seen);
      ReadsSurvive(s.requests, s.odb.data.orders, s'.odb.data.orders, s.inventoryLog, s.inventoryLog);
    }
  }

  // ---------------------------------------------------------------- cancelling

  lemma CancelCreatedRows(t: O.Tables, created: map<OrderId, EventId>,
                          id: OrderId, o: O.Order, row: Row<OrderEvent>, eid: EventId)
    requires CreatedRows(t, created) && id in t.orders && eid !in t.outbox
    requires O.CreatedEvent(id, o) == O.CreatedEvent(id, t.orders[id])
    ensures CreatedRows(O.Tables(t.orders[id := o], t.outbox[eid := row]), created)
  {
  }

  lemma CancelCancelledRows(t: O.Tables, cancelled: map<OrderId, EventId>, id: OrderId, o: O.Order, eid: EventId)
    requires CancelledRows(t, cancelled) && id in t.orders && t.orders[id].status == O.Pending && eid !in t.outbox
    requires o.status == O.Cancelled && o.cancelReason.Some?
    ensures CancelledRows(O.Tables(t.orders[id := o], t.outbox[eid := Fresh(O.CancelledEvent(id, o))]),
                          cancelled[id := eid])
  {
  }

  lemma CancelOutbox(t: O.Tables, created: map<OrderId, EventId>, cancelled: map<OrderId, EventId>,
                     id: OrderId, seen: O.Order, reason: Reason, eid: EventId)
    requires OrderOutbox(t, created, cancelled) && O.Cancel(t, id, seen, reason, eid).Done?
    ensures OrderOutbox(O.Cancel(t, id, seen, reason, eid).tables, created, cancelled[id := eid])
  {
    var o := O.Advance(t.orders[id], O.Cancelled, Some(reason));
    CancelCreatedRows(t, created, id, o, Fresh(O.CancelledEvent(id, o)), eid);
    CancelCancelledRows(t, cancelled, id, o, eid);
    assert id !in cancelled;
  }

  lemma CancelRows(odb: O.Db, rs: map<OrderId, I.Reservation>, outcome: map<OrderId, EventId>,
                   id: OrderId, seen: O.Order, reason: Reason, eid: EventId)
    requires OrderRows(odb.data.orders) && O.Cancel(odb.data, id, seen, reason, eid).Done?
    requires OwnReservations(odb.data.orders, rs) && Refusals(odb, rs, outcome)
    requires reason == OutOfStock ==> id in outcome && id !in rs
    ensures var t := O.Cancel(odb.data, id, seen, reason, eid).tables;
            && OrderRows(t.orders) && Forward(odb.data.orders, t.orders)
            && OwnReservations(t.orders, rs) && Refusals(odb.(data := t), rs, outcome)
  {
  }

  /** The cancellation's event is new, so the inventory cannot have handled it. */
  lemma CancelUnseen(t: O.Tables, idb: I.Db, w: Links, id: OrderId, seen: O.Order, reason: Reason, eid: EventId)
    requires O.Cancel(t, id, seen, reason, eid).Done?
    requires forall i :: i in w.cancelled <==> i in t.orders && t.orders[i].status == O.Cancelled
    requires Releases(idb, w) && InventoryProcessed(t, idb.processed, w)
    ensures var t', w' := O.Cancel(t, id, seen, reason, eid).tables, w.(cancelled := w.cancelled[id := eid]);
            Releases(idb, w') && InventoryProcessed(t', idb.processed, w')
  {
    var w' := w.(cancelled := w.cancelled[id := eid]);
    forall i | i in idb.data.reservations
      ensures CompensatedAfter(idb.processed, w', i) <==> CompensatedAfter(idb.processed, w, i)
    {
    }
  }

  /** Any cancellation that goes through, by a user or by the inventory's refusal. */
  lemma CancelKeeps(s: State, w: Links, id: OrderId, seen: O.Order, reason: Reason, eid: EventId)
    requires Inv(s, w)
    requires O.Cancel(s.odb.data, id, seen, reason, eid).Done?
    requires reason == OutOfStock ==> id in w.outcome && id !in s.idb.data.reservations
    ensures Inv(WithOrders(s, O.Cancel(s.odb.data, id, seen, reason, eid).tables),
                w.(cancelled := w.cancelled[id := eid]))
  {
    var t := O.Cancel(s.odb.data, id, seen, reason, eid).tables;
    CancelOutbox(s.odb.data, w.created, w.cancelled, id, seen, reason, eid);
    CancelRows(s.odb, s.idb.data.reservations, w.outcome, id, seen, reason, eid);
    CancelUnseen(s.odb.data, s.idb, w, id, seen, reason, eid);
    InsertIsFaithful(OrderChannel(s), eid, O.CancelledEvent(id, t.orders[id]));
    ReadsSurvive(s.requests, s.odb.data.orders, t.orders, s.inventoryLog, s.inventoryLog);
  }

  // ---------------------------------------------------------------- reading

  lemma ReadKeeps(s: State, w: Links, r: RequestId, userId: UserId, id: OrderId)
    requires Inv(s, w)
    ensures Inv(Next(s, ReadOrder(r, userId, id)), w)
  {
  }

  lemma BeginRead(s: State, w: Links, msg: Msg<InventoryEvent>)
    requires Faithful(InventoryChannel(s)) && Outcomes(s.idb.data, w.outcome)
    requires InventoryProcessed(s.odb.data, s.idb.processed, w)
    requires w.created.Keys == s.odb.data.orders.Keys && OrderRows(s.odb.data.orders)
    requires msg in s.inventoryLog
    ensures ValidRead(Handling(msg, Lookup(s.odb.data.orders, Subject(msg.event))), s.odb.data.orders, s.inventoryLog)
  {
    assert InventoryChannel(s).outbox[msg.eid].event == msg.event;
  }

  lemma BeginKeeps(s: State, w: Links, r: RequestId, msg: Msg<InventoryEvent>)
    requires Inv(s, w)
    ensures Inv(Next(s, BeginInventoryEvent(r, msg)), w)
  {
    if msg in s.inventoryLog {
      BeginRead(s, w, msg);
    }
  }

  // ---------------------------------------------------------------- the inventory handles an order event

  /** A committed OrderCreated or OrderCancelled, its event id not processed before. */
  ghost predicate Effective(s: State, ord: Msg<OrderEvent>, eid: EventId) {
    ord in s.orderLog && ord.eid !in s.idb.processed && I.Handle(s.idb.data, ord.event, eid).Some?
  }

  lemma CommitOrderEventIs(s: State, ord: Msg<OrderEvent>, eid: EventId)
    ensures Next(s, CommitOrderEvent(ord, eid)) ==
      if Effective(s, ord, eid)
      then s.(idb := Dedup.Store(I.Handle(s.idb.data, ord.event, eid).value,
                                 s.idb.processed[ord.eid := |s.idb.processed|]))
      else s
  {
  }

  /** What the log entry says about the order it names. */
  lemma OrderEventIsFaithful(s: State, w: Links, ord: Msg<OrderEvent>)
    requires Faithful(OrderChannel(s)) && OrderOutbox(s.odb.data, w.created, w.cancelled) && ord in s.orderLog
    ensures ord.eid in s.odb.data.outbox
    ensures match ord.event
      case OrderCreated(id, _, _, _, _, _) =>
        id in w.created && w.created[id] == ord.eid && ord.event == O.CreatedEvent(id, s.odb.data.orders[id])
      case OrderCancelled(id, _, _, _) => id in w.cancelled && w.cancelled[id] == ord.eid
      case OtherOrderEvent => false
  {
    assert OrderChannel(s).outbox[ord.eid].event == ord.event;
  }

  lemma MarkProcessed(t: O.Tables, processed: map<EventId, nat>, e: EventId)
    requires forall x :: x in processed ==> x in t.outbox && processed[x] < |processed|
    requires e in t.outbox && e !in processed
    ensures var p := processed[e := |processed|]; forall x :: x in p ==> x in t.outbox && p[x] < |p|
  {
  }

  lemma CreatedOutcomes(t: I.Tables, outcome: map<OrderId, EventId>, event: OrderEvent, eid: EventId)
    requires event.OrderCreated? && I.Handle(t, event, eid).Some?
    requires Outcomes(t, outcome) && event.orderId !in outcome
    ensures Outcomes(I.Handle(t, event, eid).value, outcome[event.orderId := eid])
  {
    var t', id := I.Handle(t, event, eid).value, event.orderId;
    assert t'.outbox == t.outbox[eid := t'.outbox[eid]];
    assert Subject(t'.outbox[eid].event) == Some(id);
    assert id !in t.reservations;
  }

  lemma CreatedReleases(t: O.Tables, idb: I.Db, w: Links, event: OrderEvent, eid: EventId)
    requires OrderOutbox(t, w.created, w.cancelled)
    requires event.OrderCreated? && I.Handle(idb.data, event, eid).Some?
    requires event.orderId in w.created && w.created[event.orderId] !in idb.processed
    requires Releases(idb, w) && event.orderId !in idb.data.reservations
    requires forall x :: x in idb.processed ==> idb.processed[x] < |idb.processed|
    ensures Releases(Dedup.Store(I.Handle(idb.data, event, eid).value,
                                 idb.processed[w.created[event.orderId] := |idb.processed|]),
                     w.(outcome := w.outcome[event.orderId := eid]))
  {
    var e := w.created[event.orderId];
    var p := idb.processed[e := |idb.processed|];
    var w' := w.(outcome := w.outcome[event.orderId := eid]);
    var rs := I.Handle(idb.data, event, eid).value.reservations;
    forall i | i in rs ensures rs[i].status == I.Released <==> CompensatedAfter(p, w', i) {
      LinkedOnce(t, w, event.orderId, i);
      if i != event.orderId {
        assert CompensatedAfter(p, w', i) <==> CompensatedAfter(idb.processed, w, i);
      }
    }
  }

  /** No event id is linked twice: each row has one event. */
  lemma LinkedOnce(t: O.Tables, w: Links, i: OrderId, j: OrderId)
    requires OrderOutbox(t, w.created, w.cancelled)
    ensures i in w.created && j in w.created && w.created[i] == w.created[j] ==> i == j
    ensures i in w.cancelled && j in w.cancelled && w.cancelled[i] == w.cancelled[j] ==> i == j
    ensures i in w.created && j in w.cancelled ==> w.created[i] != w.cancelled[j]
  {
  }

  lemma CreatedRest(s: State, w: Links, event: OrderEvent, eid: EventId)
    requires event.OrderCreated? && I.Handle(s.idb.data, event, eid).Some?
    requires event.orderId in w.created && w.created[event.orderId] !in s.idb.processed && event.orderId !in w.outcome
    requires event.orderId in s.odb.data.orders
    requires event == O.CreatedEvent(event.orderId, s.odb.data.orders[event.orderId])
    requires OwnReservations(s.odb.data.orders, s.idb.data.reservations)
    requires OrdersProcessed(s.odb.processed, s.idb.data)
    requires Refusals(s.odb, s.idb.data.reservations, w.outcome)
    ensures var t := I.Handle(s.idb.data, event, eid).value;
            && OwnReservations(s.odb.data.orders, t.reservations)
            && OrdersProcessed(s.odb.processed, t)
            && Refusals(s.odb, t.reservations, w.outcome[event.orderId := eid])
  {
    assert eid !in s.idb.data.outbox;
  }

  lemma CreatedProcessed(t: O.Tables, processed: map<EventId, nat>, w: Links, id: OrderId, eid: EventId)
    requires OrderOutbox(t, w.created, w.cancelled)
    requires InventoryProcessed(t, processed, w) && id in w.created && w.created[id] !in processed
    ensures InventoryProcessed(t, processed[w.created[id] := |processed|], w.(outcome := w.outcome[id := eid]))
  {
    CreatedOnce(t, w, id);
    CreatedMarked(t, processed, w, id, eid);
  }

  lemma CreatedOnce(t: O.Tables, w: Links, id: OrderId)
    requires OrderOutbox(t, w.created, w.cancelled) && id in w.created
    ensures w.created[id] in t.outbox
    ensures forall i :: i in w.created && w.created[i] == w.created[id] ==> i == id
  {
    forall i | i in w.created && w.created[i] == w.created[id] ensures i == id {
      LinkedOnce(t, w, i, id);
    }
  }

  lemma CreatedMarked(t: O.Tables, processed: map<EventId, nat>, w: Links, id: OrderId, eid: EventId)
    requires id in w.created && w.created[id] in t.outbox && w.created[id] !in processed
    requires forall i :: i in w.created && w.created[i] == w.created[id] ==> i == id
    requires InventoryProcessed(t, processed, w)
    ensures InventoryProcessed(t, processed[w.created[id] := |processed|], w.(outcome := w.outcome[id := eid]))
  {
    MarkProcessed(t, processed, w.created[id]);
  }

  lemma HandleInsertsOne(s: State, event: OrderEvent, eid: EventId)
    requires event.OrderCreated? && I.Handle(s.idb.data, event, eid).Some?
    requires Faithful(InventoryChannel(s))
    ensures Faithful(Channel(I.Handle(s.idb.data, event, eid).value.outbox, s.inventoryLog))
  {
    var t := I.Handle(s.idb.data, event, eid).value;
    InsertIsFaithful(InventoryChannel(s), eid, t.outbox[eid].event);
  }

  lemma CreatedKeeps(s: State, w: Links, ord: Msg<OrderEvent>, eid: EventId)
    requires Inv(s, w) && Effective(s, ord, eid) && ord.event.OrderCreated?
    ensures Inv(Next(s, CommitOrderEvent(ord, eid)), w.(outcome := w.outcome[ord.event.orderId := eid]))
  {
    var id := ord.event.orderId;
    CommitOrderEventIs(s, ord, eid);
    OrderEventIsFaithful(s, w, ord);
    assert id !in w.outcome;
    CreatedOutcomes(s.idb.data, w.outcome, ord.event, eid);
    CreatedReleases(s.odb.data, s.idb, w, ord.event, eid);
    CreatedRest(s, w, ord.event, eid);
    CreatedProcessed(s.odb.data, s.idb.processed, w, id, eid);
    HandleInsertsOne(s, ord.event, eid);
    I.CommitConserves(s.idb, ord, eid);
  }

  lemma ReleaseTables(t: I.Tables, orders: map<OrderId, O.Order>, outcome: map<OrderId, EventId>, id: OrderId)
    requires Outcomes(t, outcome) && OwnReservations(orders, t.reservations)
    ensures Outcomes(I.Release(t, id), outcome) && OwnReservations(orders, I.Release(t, id).reservations)
    ensures I.Release(t, id).reservations.Keys == t.reservations.Keys && I.Release(t, id).outbox == t.outbox
  {
  }

  lemma CancelledReleases(t: O.Tables, idb: I.Db, w: Links, id: OrderId)
    requires OrderOutbox(t, w.created, w.cancelled)
    requires id in w.cancelled && w.cancelled[id] !in idb.processed
    requires Releases(idb, w)
    requires forall i :: i in idb.data.reservations ==> i in w.created && w.created[i] in idb.processed
    requires forall x :: x in idb.processed ==> idb.processed[x] < |idb.processed|
    ensures Releases(Dedup.Store(I.Release(idb.data, id), idb.processed[w.cancelled[id] := |idb.processed|]), w)
  {
    var p := idb.processed[w.cancelled[id] := |idb.processed|];
    var rs := I.Release(idb.data, id).reservations;
    forall i | i in rs ensures rs[i].status == I.Released <==> CompensatedAfter(p, w, i) {
      assert i in idb.data.reservations;
      LinkedOnce(t, w, i, id);
      if i != id {
        assert CompensatedAfter(p, w, i) <==> CompensatedAfter(idb.processed, w, i);
      }
    }
  }

  lemma CancelledProcessed(t: O.Tables, processed: map<EventId, nat>, w: Links, id: OrderId)
    requires OrderOutbox(t, w.created, w.cancelled)
    requires InventoryProcessed(t, processed, w) && id in w.cancelled && w.cancelled[id] !in processed
    ensures InventoryProcessed(t, processed[w.cancelled[id] := |processed|], w)
  {
    MarkProcessed(t, processed, w.cancelled[id]);
    forall i | i in w.created ensures w.created[i] != w.cancelled[id] {
      LinkedOnce(t, w, i, id);
    }
  }

  lemma RefusalsByKeys(odb: O.Db, rs: map<OrderId, I.Reservation>, rs': map<OrderId, I.Reservation>,
                       outcome: map<OrderId, EventId>)
    requires Refusals(odb, rs, outcome) && rs'.Keys == rs.Keys
    ensures Refusals(odb, rs', outcome)
  {
  }

  lemma CancelledKeeps(s: State, w: Links, ord: Msg<OrderEvent>, eid: EventId)
    requires Inv(s, w) && Effective(s, ord, eid) && ord.event.OrderCancelled?
    ensures Inv(Next(s, CommitOrderEvent(ord, eid)), w)
  {
    var id := ord.event.orderId;
    CommitOrderEventIs(s, ord, eid);
    OrderEventIsFaithful(s, w, ord);
    ReleaseTables(s.idb.data, s.odb.data.orders, w.outcome, id);
    CancelledReleases(s.odb.data, s.idb, w, id);
    CancelledProcessed(s.odb.data, s.idb.processed, w, id);
    RefusalsByKeys(s.odb, s.idb.data.reservations, I.Release(s.idb.data, id).reservations, w.outcome);
    I.ReleaseConserves(s.idb.data, id);
    assert Next(s, CommitOrderEvent(ord, eid))
        == s.(idb := Dedup.Store(I.Release(s.idb.data, id), s.idb.processed[ord.eid := |s.idb.processed|]));
  }

  // ---------------------------------------------------------------- the order service handles an inventory event

  /** The event being handled says what the inventory answered. */
  lemma InventoryEventIsFaithful(s: State, w: Links, msg: Msg<InventoryEvent>)
    requires Faithful(InventoryChannel(s)) && Outcomes(s.idb.data, w.outcome) && msg in s.inventoryLog
    ensures msg.eid in s.idb.data.outbox && Subject(msg.event).Some?
    ensures var id := Subject(msg.event).value;
            && id in w.outcome && w.outcome[id] == msg.eid
            && msg.event
               == if id in s.idb.data.reservations then InventoryReserved(id) else ReservationFailed(id, OutOfStock)
  {
    assert InventoryChannel(s).outbox[msg.eid].event == msg.event;
  }

  lemma OutcomesAreDistinct(t: I.Tables, outcome: map<OrderId, EventId>)
    requires Outcomes(t, outcome)
    ensures forall i, j :: i in outcome && j in outcome && outcome[i] == outcome[j] ==> i == j
  {
    forall i, j | i in outcome && j in outcome && outcome[i] == outcome[j] ensures i == j {
      assert Subject(t.outbox[outcome[i]].event) == Some(i);
      assert Subject(t.outbox[outcome[j]].event) == Some(j);
    }
  }

  /** The order service has marked an inventory event as processed. */
  function Marked(s: State, e: EventId): State {
    s.(odb := s.odb.(processed := s.odb.processed[e := |s.odb.processed|]))
  }

  /** Marking the answer for an order that is no longer pending, or was reserved. */
  lemma MarkAnswer(s: State, w: Links, id: OrderId)
    requires Inv(s, w) && id in w.outcome && w.outcome[id] !in s.odb.processed
    requires id in s.idb.data.reservations || (id in s.odb.data.orders && s.odb.data.orders[id].status != O.Pending)
    ensures Inv(Marked(s, w.outcome[id]), w)
  {
    OutcomesAreDistinct(s.idb.data, w.outcome);
    var s' := Marked(s, w.outcome[id]);
    assert w.outcome[id] in s.idb.data.outbox;
    assert Refusals(s'.odb, s.idb.data.reservations, w.outcome);
  }

  /** Whoever reads an order and cancels it later, by compare-and-set: if the set fails, or was
      not tried because the order already looked cancelled, the order is no longer pending. */
  lemma LostRace(orders: map<OrderId, O.Order>, id: OrderId, seen: O.Order)
    requires id in orders && O.EarlierView(seen, orders[id]) && O.WellFormed(orders[id])
    requires seen.status == O.Cancelled || !O.Matches(orders, seen.userId, id, O.Pending, seen.version)
    ensures orders[id].status != O.Pending
  {
  }

  /** What a committed inventory event does to the order tables: nothing, or a cancellation. */
  lemma CommitInventoryEventIs(s: State, r: RequestId, eid: EventId)
    requires r in s.requests && s.requests[r].Handling? && s.requests[r].msg.eid !in s.odb.processed
    ensures var q := s.requests[r];
      match O.Handle(s.odb.data, q.msg.event, q.snapshot, eid)
      case None => Next(s, CommitInventoryEvent(r, eid)) == s
      case Some(t) => Next(s, CommitInventoryEvent(r, eid)) == Marked(WithOrders(s, t), q.msg.eid)
  {
  }

  /** A refusal that cancels the order. */
  lemma RefusalCancels(s: State, w: Links, id: OrderId, seen: O.Order, eid: EventId) returns (w': Links)
    requires Inv(s, w) && O.Cancel(s.odb.data, id, seen, OutOfStock, eid).Done?
    requires id in w.outcome && id !in s.idb.data.reservations && w.outcome[id] !in s.odb.processed
    ensures Inv(Marked(WithOrders(s, O.Cancel(s.odb.data, id, seen, OutOfStock, eid).tables), w.outcome[id]), w')
  {
    CancelKeeps(s, w, id, seen, OutOfStock, eid);
    w' := w.(cancelled := w.cancelled[id := eid]);
    MarkAnswer(WithOrders(s, O.Cancel(s.odb.data, id, seen, OutOfStock, eid).tables), w', id);
  }

  /** The three things a handler can find: its outbox row is refused, there is nothing to
      change and the order is reserved or no longer pending, or the order can be cancelled. */
  lemma HandlerCases(s: State, w: Links, q: Request, eid: EventId)
    requires Faithful(InventoryChannel(s)) && Outcomes(s.idb.data, w.outcome)
    requires OrderRows(s.odb.data.orders) && w.created.Keys == s.odb.data.orders.Keys
    requires q.Handling? && ValidRead(q, s.odb.data.orders, s.inventoryLog)
    ensures Subject(q.msg.event).Some?
    ensures var id := Subject(q.msg.event).value;
      var result := O.Handle(s.odb.data, q.msg.event, q.snapshot, eid);
      && id in w.outcome && w.outcome[id] == q.msg.eid
      && (result.None?
          || (result == Some(s.odb.data)
              && (id in s.idb.data.reservations
                  || (id in s.odb.data.orders && s.odb.data.orders[id].status != O.Pending)))
          || (id !in s.idb.data.reservations && q.snapshot.Some?
              && O.Cancel(s.odb.data, id, q.snapshot.value, OutOfStock, eid).Done?
              && result == Some(O.Cancel(s.odb.data, id, q.snapshot.value, OutOfStock, eid).tables)))
  {
    InventoryEventIsFaithful(s, w, q.msg);
    var id := Subject(q.msg.event).value;
    if q.msg.event.ReservationFailed? {
      if q.snapshot.value.status == O.Cancelled
         || O.Cancel(s.odb.data, id, q.snapshot.value, OutOfStock, eid).Conflict? {
        LostRace(s.odb.data.orders, id, q.snapshot.value);
      }
    }
  }

  /** What handling an inventory event comes to: nothing, a mark for an order that is reserved or no
      longer pending, or a cancellation and a mark. */
  lemma CommitInventoryEventCases(s: State, w: Links, r: RequestId, eid: EventId) returns (id: OrderId)
    requires Faithful(InventoryChannel(s)) && Outcomes(s.idb.data, w.outcome)
    requires OrderRows(s.odb.data.orders) && w.created.Keys == s.odb.data.orders.Keys
    requires r in s.requests && ValidRead(s.requests[r], s.odb.data.orders, s.inventoryLog)
    requires s.requests[r].Handling? && s.requests[r].msg.eid !in s.odb.processed
    ensures id in w.outcome && w.outcome[id] == s.requests[r].msg.eid
    ensures var s' := Next(s, CommitInventoryEvent(r, eid));
      || s' == s
      || (s' == Marked(s, w.outcome[id])
          && (id in s.idb.data.reservations
              || (id in s.odb.data.orders && s.odb.data.orders[id].status != O.Pending)))
      || (id !in s.idb.data.reservations && s.requests[r].snapshot.Some?
          && var result := O.Cancel(s.odb.data, id, s.requests[r].snapshot.value, OutOfStock, eid);
             result.Done? && s' == Marked(WithOrders(s, result.tables), w.outcome[id]))
  {
    CommitInventoryEventIs(s, r, eid);
    HandlerCases(s, w, s.requests[r], eid);
    id := Subject(s.requests[r].msg.event).value;
    assert WithOrders(s, s.odb.data) == s;
  }

  lemma CommitInventoryEventKeeps(s: State, w: Links, r: RequestId, eid: EventId) returns (w': Links)
    requires Inv(s, w)
    ensures Inv(Next(s, CommitInventoryEvent(r, eid)), w')
  {
    w' := w;
    if r in s.requests && s.requests[r].Handling? && s.requests[r].msg.eid !in s.odb.processed {
      var id := CommitInventoryEventCases(s, w, r, eid);
      w' := CommittedCaseKeeps(s, w, Next(s, CommitInventoryEvent(r, eid)), id, s.requests[r].snapshot, eid);
    }
  }

  lemma CommittedCaseKeeps(s: State, w: Links, s': State, id: OrderId, snapshot: Option<O.Order>, eid: EventId)
    returns (w': Links)
    requires Inv(s, w) && id in w.outcome && w.outcome[id] !in s.odb.processed
    requires
      || s' == s
      || (s' == Marked(s, w.outcome[id])
          && (id in s.idb.data.reservations
              || (id in s.odb.data.orders && s.odb.data.orders[id].status != O.Pending)))
      || (id !in s.idb.data.reservations && snapshot.Some?
          && var result := O.Cancel(s.odb.data, id, snapshot.value, OutOfStock, eid);
             result.Done? && s' == Marked(WithOrders(s, result.tables), w.outcome[id]))
    ensures Inv(s', w')
  {
    w' := w;
    if s' == s {
      return;
    }
    if id in s.idb.data.reservations || (id in s.odb.data.orders && s.odb.data.orders[id].status != O.Pending) {
      MarkAnswer(s, w, id);
    } else {
      w' := RefusalCancels(s, w, id, snapshot.value, eid);
    }
  }

  // ---------------------------------------------------------------- the relays

  lemma RelayOrdersKeeps(s: State, w: Links, relay: RelayStep)
    requires Inv(s, w)
    ensures Inv(Next(s, RelayOrders(relay)), w)
  {
    RelayIsFaithful(OrderChannel(s), relay);
    var s' := Next(s, RelayOrders(relay));
    assert s'.odb.data.outbox == Relay(OrderChannel(s), relay).outbox;
    assert OrderChannel(s') == Relay(OrderChannel(s), relay);
    SameOrderOutbox(s.odb.data, s'.odb.data, w);
  }

  lemma SameOrderOutbox(t: O.Tables, t': O.Tables, w: Links)
    requires OrderOutbox(t, w.created, w.cancelled) && t'.orders == t.orders && t'.outbox.Keys == t.outbox.Keys
    requires forall e :: e in t.outbox ==> t'.outbox[e].event == t.outbox[e].event
    ensures OrderOutbox(t', w.created, w.cancelled)
  {
  }

  lemma RelayInventoryKeeps(s: State, w: Links, relay: RelayStep)
    requires Inv(s, w)
    ensures Inv(Next(s, RelayInventory(relay)), w)
  {
    RelayIsFaithful(InventoryChannel(s), relay);
    var s' := Next(s, RelayInventory(relay));
    assert InventoryChannel(s') == Relay(InventoryChannel(s), relay);
    ReadsSurvive(s.requests, s.odb.data.orders, s.odb.data.orders, s.inventoryLog, s'.inventoryLog);
    SameInventoryOutbox(s.idb.data, s'.idb.data, w.outcome);
  }

  lemma SameInventoryOutbox(t: I.Tables, t': I.Tables, outcome: map<OrderId, EventId>)
    requires Outcomes(t, outcome) && I.Conserved(t)
    requires t'.reservations == t.reservations && t'.products == t.products && t'.outbox.Keys == t.outbox.Keys
    requires forall e :: e in t.outbox ==> t'.outbox[e].event == t.outbox[e].event
    ensures Outcomes(t', outcome) && I.Conserved(t')
  {
  }

  // ---------------------------------------------------------------- every step, every run

  lemma StepKeeps(s: State, w: Links, step: Step) returns (w': Links)
    requires Inv(s, w)
    ensures Inv(Next(s, step), w')
  {
    w' := w;
    match step
    case CreateOrder(id, req, eid) =>
      if O.Create(s.odb.data, id, req, eid).Some? {
        CreateKeeps(s, w, id, req, eid);
        w' := w.(created := w.created[id := eid]);
      }
    case ReadOrder(r, userId, id) => ReadKeeps(s, w, r, userId, id);
    case Pay(r) => PayKeeps(s, w, r);
    case UserCancel(r, eid) => w' := UserCancelKeeps(s, w, r, eid);
    case BeginInventoryEvent(r, msg) => BeginKeeps(s, w, r, msg);
    case CommitInventoryEvent(r, eid) => w' := CommitInventoryEventKeeps(s, w, r, eid);
    case CommitOrderEvent(msg, eid) => w' := CommitOrderEventKeeps(s, w, msg, eid);
    case RelayOrders(relay) => RelayOrdersKeeps(s, w, relay);
    case RelayInventory(relay) => RelayInventoryKeeps(s, w, relay);
  }

  /** What a user's cancellation does: nothing, or it goes through. */
  lemma UserCancelIs(s: State, r: RequestId, eid: EventId)
    ensures Next(s, UserCancel(r, eid)) == s
      || (r in s.requests && s.requests[r].Update?
          && var result := O.Cancel(s.odb.data, s.requests[r].id, s.requests[r].seen, UserCancelled, eid);
             result.Done? && Next(s, UserCancel(r, eid)) == WithOrders(s, result.tables))
  {
  }

  lemma UserCancelKeeps(s: State, w: Links, r: RequestId, eid: EventId) returns (w': Links)
    requires Inv(s, w)
    ensures Inv(Next(s, UserCancel(r, eid)), w')
  {
    w' := w;
    UserCancelIs(s, r, eid);
    if Next(s, UserCancel(r, eid)) != s {
      var q := s.requests[r];
      CancelKeeps(s, w, q.id, q.seen, UserCancelled, eid);
      w' := w.(cancelled := w.cancelled[q.id := eid]);
    }
  }

  lemma CommitOrderEventKeeps(s: State, w: Links, ord: Msg<OrderEvent>, eid: EventId) returns (w': Links)
    requires Inv(s, w)
    ensures Inv(Next(s, CommitOrderEvent(ord, eid)), w')
  {
    w' := w;
    CommitOrderEventIs(s, ord, eid);
    if Effective(s, ord, eid) {
      OrderEventIsFaithful(s, w, ord);
      match ord.event
      case OrderCreated(id, _, _, _, _, _) =>
        CreatedKeeps(s, w, ord, eid);
        w' := w.(outcome := w.outcome[id := eid]);
      case OrderCancelled(_, _, _, _) => CancelledKeeps(s, w, ord, eid);
    }
  }

  lemma {:induction false} RunKeeps(totals: map<Sku, nat>, steps: seq<Step>) returns (w: Links)
    ensures Inv(Exec(Init(totals), steps), w)
  {
    if steps == [] {
      InitInv(totals);
      w := Links(map[], map[], map[]);
    } else {
      w := RunKeeps(totals, steps[..|steps| - 1]);
      w := StepKeeps(Exec(Init(totals), steps[..|steps| - 1]), w, steps[|steps| - 1]);
    }
  }
}
