/** What the saga guarantees, for every run: any orders, any interleaving of requests,
    consumers and relays, any duplication and reordering of messages, any aborts. */
module SagaTheorems {
  import opened Events
  import opened Outbox
  import opened Saga
  import opened SagaInvariant
  import opened Sums
  import I = Inventory
  import O = Orders

  // ---------------------------------------------------------------- outbox atomicity

  ghost function CreatedRowsOf(t: O.Tables, id: OrderId): set<EventId> {
    set e | e in t.outbox && t.outbox[e].event.OrderCreated? && t.outbox[e].event.orderId == id
  }

  ghost function CancelledRowsOf(t: O.Tables, id: OrderId): set<EventId> {
    set e | e in t.outbox && t.outbox[e].event.OrderCancelled? && t.outbox[e].event.orderId == id
  }

  /** The set is one row, and the row tells exactly this event. */
  ghost predicate OneRow(t: O.Tables, rows: set<EventId>, event: OrderEvent) {
    exists e :: e in t.outbox && rows == {e} && t.outbox[e].event == event
  }

  /** Each order has exactly one OrderCreated row, exactly one OrderCancelled row carrying its
      reason, product and quantity if it is cancelled, and none otherwise; no row is about an
      order that does not exist. */
  lemma OutboxAtomicity(totals: map<Sku, nat>, steps: seq<Step>, id: OrderId)
    ensures var t := Exec(Init(totals), steps).odb.data;
      if id in t.orders then
        && OneRow(t, CreatedRowsOf(t, id), O.CreatedEvent(id, t.orders[id]))
        && (if t.orders[id].status == O.Cancelled
            then
              && t.orders[id].cancelReason.Some?
              && OneRow(t, CancelledRowsOf(t, id), O.CancelledEvent(id, t.orders[id]))
            else CancelledRowsOf(t, id) == {})
      else CreatedRowsOf(t, id) == {} && CancelledRowsOf(t, id) == {}
  {
    var w := RunKeeps(totals, steps);
    OutboxAtomicityAt(Exec(Init(totals), steps).odb.data, w, id);
  }

  lemma OutboxAtomicityAt(t: O.Tables, w: Links, id: OrderId)
    requires OrderOutbox(t, w.created, w.cancelled)
    ensures id !in t.orders ==> CreatedRowsOf(t, id) == {}
    ensures id in t.orders ==> OneRow(t, CreatedRowsOf(t, id), O.CreatedEvent(id, t.orders[id]))
    ensures id !in w.cancelled ==> CancelledRowsOf(t, id) == {}
    ensures id in w.cancelled ==>
      t.orders[id].cancelReason.Some? && OneRow(t, CancelledRowsOf(t, id), O.CancelledEvent(id, t.orders[id]))
    ensures id in w.cancelled <==> id in t.orders && t.orders[id].status == O.Cancelled
  {
    if id in t.orders {
      assert CreatedRowsOf(t, id) == {w.created[id]};
    }
    if id in w.cancelled {
      assert CancelledRowsOf(t, id) == {w.cancelled[id]};
    }
  }

  // ---------------------------------------------------------------- one outcome per order

  ghost function AnswersTo(t: I.Tables, id: OrderId): set<EventId> {
    set e | e in t.outbox && Subject(t.outbox[e].event) == Some(id)
  }

  ghost predicate CreationProcessed(s: State, id: OrderId) {
    exists e :: e in s.odb.data.outbox && e in CreatedRowsOf(s.odb.data, id) && e in s.idb.processed
  }

  ghost predicate GrantWritten(t: I.Tables, id: OrderId) {
    exists e :: e in t.outbox && t.outbox[e].event == InventoryReserved(id)
  }

  /** The inventory answers an order at most once; it has answered exactly when the order's
      OrderCreated is marked processed; and it has answered with a reservation exactly when
      there is one, for the order's own product and quantity. */
  lemma OneOutcome(totals: map<Sku, nat>, steps: seq<Step>, id: OrderId)
    ensures var s := Exec(Init(totals), steps);
      && |AnswersTo(s.idb.data, id)| <= 1
      && (|AnswersTo(s.idb.data, id)| == 1 <==> CreationProcessed(s, id))
      && (id in s.idb.data.reservations <==> GrantWritten(s.idb.data, id))
      && (id in s.idb.data.reservations ==>
            id in s.odb.data.orders
            && s.idb.data.reservations[id].sku == s.odb.data.orders[id].sku
            && s.idb.data.reservations[id].quantity == s.odb.data.orders[id].quantity)
  {
    var w := RunKeeps(totals, steps);
    OneOutcomeOf(Exec(Init(totals), steps), w, id);
  }

  lemma OneOutcomeOf(s: State, w: Links, id: OrderId)
    requires Inv(s, w)
    ensures |AnswersTo(s.idb.data, id)| <= 1
    ensures |AnswersTo(s.idb.data, id)| == 1 <==> CreationProcessed(s, id)
    ensures id in s.idb.data.reservations <==> GrantWritten(s.idb.data, id)
  {
    AnsweredOnce(s.idb.data, w.outcome, id);
    AnsweredWhenProcessed(s, w, id);
    GrantedWhenWritten(s.idb.data, w.outcome, id);
  }

  lemma AnsweredOnce(t: I.Tables, outcome: map<OrderId, EventId>, id: OrderId)
    requires Outcomes(t, outcome)
    ensures |AnswersTo(t, id)| == if id in outcome then 1 else 0
  {
    assert AnswersTo(t, id) == if id in outcome then {outcome[id]} else {};
  }

  lemma AnsweredWhenProcessed(s: State, w: Links, id: OrderId)
    requires OrderOutbox(s.odb.data, w.created, w.cancelled) && InventoryProcessed(s.odb.data, s.idb.processed, w)
    ensures id in w.outcome <==> CreationProcessed(s, id)
  {
    if id in w.outcome {
      assert w.created[id] in CreatedRowsOf(s.odb.data, id);
    }
  }

  lemma GrantedWhenWritten(t: I.Tables, outcome: map<OrderId, EventId>, id: OrderId)
    requires Outcomes(t, outcome)
    ensures id in t.reservations <==> GrantWritten(t, id)
  {
    if id in t.reservations {
      assert t.outbox[outcome[id]].event == InventoryReserved(id);
    }
    if GrantWritten(t, id) {
      var e :| e in t.outbox && t.outbox[e].event == InventoryReserved(id);
      assert Subject(t.outbox[e].event) == Some(id);
    }
  }

  // ---------------------------------------------------------------- orders change status at most once

  /** An order row later in a run: unchanged, or settled once from pending. */
  ghost predicate Settles(before: O.Order, after: O.Order) {
    || after == before
    || (before.status == O.Pending && after.status != O.Pending
        && after.version == before.version + 1
        && after == before.(status := after.status, version := after.version, cancelReason := after.cancelReason))
  }

  ghost predicate OrdersSettle(before: map<OrderId, O.Order>, after: map<OrderId, O.Order>) {
    forall id :: id in before ==> id in after && Settles(before[id], after[id])
  }

  lemma StepSettles(s: State, step: Step)
    ensures OrdersSettle(s.odb.data.orders, Next(s, step).odb.data.orders)
  {
    if step.CommitInventoryEvent? && step.r in s.requests && s.requests[step.r].Handling?
       && s.requests[step.r].msg.eid !in s.odb.processed {
      CommitInventoryEventIs(s, step.r, step.eid);
    }
  }

  /** From any state on, whatever pays, cancels and automatic cancellations race, every order
      changes status at most once, and otherwise keeps all its data. */
  lemma {:induction false} StatusChangesOnce(s: State, steps: seq<Step>)
    ensures OrdersSettle(s.odb.data.orders, Exec(s, steps).odb.data.orders)
  {
    if steps != [] {
      var middle := Exec(s, steps[..|steps| - 1]);
      StatusChangesOnce(s, steps[..|steps| - 1]);
      StepSettles(middle, steps[|steps| - 1]);
    }
  }

  /** In every reachable state: the version is 0 exactly while pending and 1 after, and a
      reason is recorded exactly on cancelled orders. */
  lemma OrderShape(totals: map<Sku, nat>, steps: seq<Step>, id: OrderId)
    requires id in Exec(Init(totals), steps).odb.data.orders
    ensures var o := Exec(Init(totals), steps).odb.data.orders[id];
      && (o.version == 0 <==> o.status == O.Pending) && o.version <= 1
      && (o.cancelReason.Some? <==> o.status == O.Cancelled)
  {
    var w := RunKeeps(totals, steps);
    assert O.WellFormed(Exec(Init(totals), steps).odb.data.orders[id]);
  }

  /** A contender has lost when the order is no longer what it read. */
  ghost predicate Overtaken(s: State, r: RequestId)
    requires r in s.requests
  {
    match s.requests[r]
    case Update(id, seen) => id in s.odb.data.orders && s.odb.data.orders[id] != seen
    case Handling(msg, snapshot) =>
      && Subject(msg.event).Some? && Subject(msg.event).value in s.odb.data.orders
      && snapshot != Some(s.odb.data.orders[Subject(msg.event).value])
  }

  /** The compare-and-set decides every race: a contender whose read is out of date changes
      neither the order nor the outbox. */
  lemma LosersChangeNothing(totals: map<Sku, nat>, steps: seq<Step>, r: RequestId, eid: EventId)
    requires r in Exec(Init(totals), steps).requests && Overtaken(Exec(Init(totals), steps), r)
    ensures var s := Exec(Init(totals), steps);
      && Next(s, Pay(r)) == s
      && Next(s, UserCancel(r, eid)) == s
      && Next(s, CommitInventoryEvent(r, eid)).odb.data == s.odb.data
  {
    var w := RunKeeps(totals, steps);
    LosersAt(Exec(Init(totals), steps), r, eid);
  }

  lemma LosersAt(s: State, r: RequestId, eid: EventId)
    requires r in s.requests && ValidRead(s.requests[r], s.odb.data.orders, s.inventoryLog) && Overtaken(s, r)
    ensures Next(s, Pay(r)) == s
    ensures Next(s, UserCancel(r, eid)) == s
    ensures Next(s, CommitInventoryEvent(r, eid)).odb.data == s.odb.data
  {
    if s.requests[r].Handling? && s.requests[r].msg.eid !in s.odb.processed {
      CommitInventoryEventIs(s, r, eid);
    }
  }

  /** The automatic cancellation: once a refusal has been handled its order is settled. A pending
      order becomes cancelled for want of stock and its OrderCancelled row is written, however old
      the handler's view of it; an order that is no longer pending is left alone. */
  lemma RefusalSettlesOrder(totals: map<Sku, nat>, steps: seq<Step>, r: RequestId, eid: EventId)
    requires var s := Exec(Init(totals), steps);
      && r in s.requests && s.requests[r].Handling? && s.requests[r].msg.event.ReservationFailed?
      && s.requests[r].msg.eid !in s.odb.processed && eid !in s.odb.data.outbox
    ensures var s := Exec(Init(totals), steps);
      s.requests[r].msg.event.orderId in s.odb.data.orders && RefusalSettled(s, r, eid)
  {
    var w := RunKeeps(totals, steps);
    RefusalSettles(Exec(Init(totals), steps), w, r, eid);
  }

  ghost predicate RefusalSettled(s: State, r: RequestId, eid: EventId)
    requires r in s.requests && s.requests[r].Handling? && s.requests[r].msg.event.ReservationFailed?
    requires s.requests[r].msg.event.orderId in s.odb.data.orders
  {
    var id, s' := s.requests[r].msg.event.orderId, Next(s, CommitInventoryEvent(r, eid));
    var before := s.odb.data.orders[id];
    && s.requests[r].msg.eid in s'.odb.processed
    && if before.status == O.Pending
       then
         var after := before.(status := O.Cancelled, version := 1, cancelReason := Some(OutOfStock));
         && s'.odb.data.orders == s.odb.data.orders[id := after]
         && s'.odb.data.outbox
            == s.odb.data.outbox[eid := Row(OrderCancelled(id, before.sku, before.quantity, OutOfStock), RowPending, 0)]
       else s'.odb.data == s.odb.data
  }

  lemma RefusalSettles(s: State, w: Links, r: RequestId, eid: EventId)
    requires Reads(s.requests, s.odb.data.orders, s.inventoryLog) && OrderRows(s.odb.data.orders)
    requires r in s.requests && s.requests[r].Handling? && s.requests[r].msg.event.ReservationFailed?
    requires s.requests[r].msg.eid !in s.odb.processed && eid !in s.odb.data.outbox
    ensures s.requests[r].msg.event.orderId in s.odb.data.orders && RefusalSettled(s, r, eid)
  {
    var q := s.requests[r];
    assert ValidRead(q, s.odb.data.orders, s.inventoryLog);
    CommitInventoryEventIs(s, r, eid);
    assert O.WellFormed(s.odb.data.orders[q.msg.event.orderId]);
  }

  // ---------------------------------------------------------------- safety across the services

  /** With no assumption on the order of messages: a released reservation belongs to a
      cancelled order; a paid order's reservation, now or later, is never released; an order
      cancelled for want of stock has no reservation, now or later, so releasing it does nothing. */
  lemma CrossServiceSafety(totals: map<Sku, nat>, steps: seq<Step>, more: seq<Step>, id: OrderId)
    requires id in Exec(Init(totals), steps).odb.data.orders
    ensures var s := Exec(Init(totals), steps);
      var later := Exec(s, more);
      && (id in s.idb.data.reservations && s.idb.data.reservations[id].status == I.Released ==>
            s.odb.data.orders[id].status == O.Cancelled)
      && (s.odb.data.orders[id].status == O.Paid && id in later.idb.data.reservations ==>
            later.idb.data.reservations[id].status == I.Reserved)
      && (s.odb.data.orders[id].cancelReason == Some(OutOfStock) ==>
            id !in later.idb.data.reservations && I.Release(later.idb.data, id) == later.idb.data)
  {
    var w := RunKeeps(totals, steps);
    ReleasedIsCancelled(Exec(Init(totals), steps), w, id);
    SafetyPersists(totals, steps, more, id);
  }

  lemma SafetyPersists(totals: map<Sku, nat>, steps: seq<Step>, more: seq<Step>, id: OrderId)
    requires id in Exec(Init(totals), steps).odb.data.orders
    ensures var s := Exec(Init(totals), steps);
      var later := Exec(s, more);
      && id in later.odb.data.orders
      && Settles(s.odb.data.orders[id], later.odb.data.orders[id])
      && O.WellFormed(s.odb.data.orders[id])
      && (id in later.idb.data.reservations && later.idb.data.reservations[id].status == I.Released ==>
            later.odb.data.orders[id].status == O.Cancelled)
      && (later.odb.data.orders[id].cancelReason == Some(OutOfStock) ==> id !in later.idb.data.reservations)
  {
    var s := Exec(Init(totals), steps);
    OrderShape(totals, steps, id);
    StatusChangesOnce(s, more);
    ExecJoin(Init(totals), steps, more);
    var w := RunKeeps(totals, steps + more);
    ReleasedIsCancelled(Exec(s, more), w, id);
  }

  lemma ReleasedIsCancelled(s: State, w: Links, id: OrderId)
    requires Inv(s, w) && id in s.odb.data.orders
    ensures id in s.idb.data.reservations && s.idb.data.reservations[id].status == I.Released ==>
      s.odb.data.orders[id].status == O.Cancelled
    ensures s.odb.data.orders[id].cancelReason == Some(OutOfStock) ==> id !in s.idb.data.reservations
  {
  }

  lemma {:induction false} ExecJoin(s: State, steps: seq<Step>, more: seq<Step>)
    ensures Exec(s, steps + more) == Exec(Exec(s, steps), more)
  {
    if more == [] {
      assert steps + more == steps;
    } else {
      var all := steps + more;
      assert all[..|all| - 1] == steps + more[..|more| - 1] && all[|all| - 1] == more[|more| - 1];
      ExecJoin(s, steps, more[..|more| - 1]);
    }
  }

  // ---------------------------------------------------------------- stock

  /** In every reachable state, `available` plus the active reservations of a product is its
      total; and with quantities of at least 1, `available` lies between 0 and the total. */
  lemma StockIsConserved(totals: map<Sku, nat>, steps: seq<Step>, sku: Sku)
    requires sku in totals
    ensures var s := Exec(Init(totals), steps);
      && sku in s.idb.data.products
      && s.idb.data.products[sku].total == totals[sku]
      && s.idb.data.products[sku].available + Total(I.Held(s.idb.data.reservations, sku)) == totals[sku]
      && (PositiveOrders(s) ==> 0 <= s.idb.data.products[sku].available <= totals[sku])
  {
    var s := Exec(Init(totals), steps);
    var w := RunKeeps(totals, steps);
    ProductsStay(totals, steps);
    if PositiveOrders(s) {
      PositiveReservations(s, w);
      I.HeldWithinTotal(s.idb.data, sku);
    }
  }

  ghost predicate PositiveOrders(s: State) {
    forall id :: id in s.odb.data.orders ==> s.odb.data.orders[id].quantity >= 1
  }

  lemma PositiveReservations(s: State, w: Links)
    requires OwnReservations(s.odb.data.orders, s.idb.data.reservations) && PositiveOrders(s)
    ensures I.PositiveQuantities(s.idb.data)
  {
  }

  /** The products of a state: never fewer than none, and the totals are fixed. */
  ghost predicate SoundProducts(s: State, totals: map<Sku, nat>) {
    && s.idb.data.products.Keys == totals.Keys
    && (forall sku :: sku in totals ==> s.idb.data.products[sku].total == totals[sku])
    && (PositiveOrders(s) ==> forall sku :: sku in totals ==> s.idb.data.products[sku].available >= 0)
  }

  lemma {:induction false} ProductsStay(totals: map<Sku, nat>, steps: seq<Step>)
    ensures SoundProducts(Exec(Init(totals), steps), totals)
  {
    if steps != [] {
      var s, step := Exec(Init(totals), steps[..|steps| - 1]), steps[|steps| - 1];
      ProductsStay(totals, steps[..|steps| - 1]);
      var w := RunKeeps(totals, steps[..|steps| - 1]);
      StepSettles(s, step);
      StepProducts(s, w, step, totals);
    }
  }

  lemma StepProducts(s: State, w: Links, step: Step, totals: map<Sku, nat>)
    requires SoundProducts(s, totals)
    requires OwnReservations(s.odb.data.orders, s.idb.data.reservations)
    requires OrdersSettle(s.odb.data.orders, Next(s, step).odb.data.orders)
    ensures SoundProducts(Next(s, step), totals)
  {
    assert PositiveOrders(Next(s, step)) ==> PositiveOrders(s);
    if step.CommitOrderEvent? {
      CommitOrderEventIs(s, step.ord, step.eid);
      if Effective(s, step.ord, step.eid) {
        HandleProducts(s.idb.data, step.ord.event, step.eid);
      }
    }
  }

  /** A handler keeps the set of products and their totals, and with quantities that are not
      negative in the reservations no stock goes below zero. */
  lemma HandleProducts(t: I.Tables, event: OrderEvent, eid: EventId)
    requires I.Handle(t, event, eid).Some?
    ensures var t' := I.Handle(t, event, eid).value;
      && t'.products.Keys == t.products.Keys
      && (forall sku :: sku in t.products ==> t'.products[sku].total == t.products[sku].total)
      && (I.PositiveQuantities(t) && (forall sku :: sku in t.products ==> t.products[sku].available >= 0) ==>
            forall sku :: sku in t'.products ==> t'.products[sku].available >= 0)
  {
  }
}
