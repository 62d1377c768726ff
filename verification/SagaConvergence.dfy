/** Where the saga comes to rest: what holds once everything written has been relayed and
    everything relayed has been processed. */
module SagaConvergence {
  import opened Events
  import opened Outbox
  import opened Saga
  import opened SagaInvariant
  import opened SagaTheorems
  import opened Sums
  import I = Inventory
  import O = Orders

  ghost predicate Active(t: I.Tables, id: OrderId) {
    id in t.reservations && t.reservations[id].status == I.Reserved
  }

  /** The inventory handled the order's cancellation before its creation: the two events
      travel under different keys, so the topic does not order them. */
  ghost predicate CancelHandledFirst(s: State, id: OrderId) {
    exists c, x :: c in CreatedRowsOf(s.odb.data, id) && x in CancelledRowsOf(s.odb.data, id)
      && c in s.idb.processed && x in s.idb.processed && s.idb.processed[x] < s.idb.processed[c]
  }

  /** At rest, every order's events have been answered. */
  lemma EverythingHandled(s: State, w: Links, id: OrderId)
    requires Inv(s, w) && Quiescent(s) && id in s.odb.data.orders
    ensures w.created[id] in s.idb.processed && id in w.outcome && w.outcome[id] in s.odb.processed
    ensures id in w.cancelled ==> w.cancelled[id] in s.idb.processed
  {
    SentIsProcessed(s, w.created[id]);
    if id in w.cancelled {
      SentIsProcessed(s, w.cancelled[id]);
    }
    var e := w.outcome[id];
    assert InventoryChannel(s).outbox[e].status == RowSent;
    assert Msg(e, s.idb.data.outbox[e].event) in s.inventoryLog;
  }

  lemma SentIsProcessed(s: State, e: EventId)
    requires Faithful(OrderChannel(s)) && Quiescent(s) && e in s.odb.data.outbox
    ensures e in s.idb.processed
  {
    assert OrderChannel(s).outbox[e].status == RowSent;
    assert Msg(e, s.odb.data.outbox[e].event) in s.orderLog;
  }

  lemma FirstIsAnOrderOfMarks(s: State, w: Links, id: OrderId)
    requires OrderOutbox(s.odb.data, w.created, w.cancelled)
    requires id in w.created && w.created[id] in s.idb.processed
    ensures id in w.cancelled && w.cancelled[id] in s.idb.processed ==>
      (CancelHandledFirst(s, id) <==> s.idb.processed[w.cancelled[id]] < s.idb.processed[w.created[id]])
    ensures id !in w.cancelled ==> !CancelHandledFirst(s, id)
  {
    OutboxAtomicityAt(s.odb.data, w, id);
    assert CreatedRowsOf(s.odb.data, id) == {w.created[id]};
    if id in w.cancelled {
      assert CancelledRowsOf(s.odb.data, id) == {w.cancelled[id]};
      assert w.created[id] in CreatedRowsOf(s.odb.data, id) && w.cancelled[id] in CancelledRowsOf(s.odb.data, id);
    }
  }

  /** Events are marked at distinct positions, below the number of marks. */
  ghost predicate DistinctMarks(processed: map<EventId, nat>) {
    && (forall e :: e in processed ==> processed[e] < |processed|)
    && (forall e, f :: e in processed && f in processed && processed[e] == processed[f] ==> e == f)
  }

  lemma {:induction false} MarksAreDistinct(totals: map<Sku, nat>, steps: seq<Step>)
    ensures DistinctMarks(Exec(Init(totals), steps).idb.processed)
  {
    if steps != [] {
      var step := steps[|steps| - 1];
      MarksAreDistinct(totals, steps[..|steps| - 1]);
      if step.CommitOrderEvent? {
        CommitOrderEventIs(Exec(Init(totals), steps[..|steps| - 1]), step.ord, step.eid);
      }
    }
  }

  /** The saga converges. At rest every pending order holds an active reservation for its own
      product and quantity; and a cancelled order still holds one exactly when the inventory
      had granted it and handled the cancellation before the creation. That is the only leak. */
  lemma Convergence(totals: map<Sku, nat>, steps: seq<Step>, id: OrderId)
    requires Quiescent(Exec(Init(totals), steps))
    requires id in Exec(Init(totals), steps).odb.data.orders
    ensures var s := Exec(Init(totals), steps);
      var o := s.odb.data.orders[id];
      && (o.status == O.Pending ==>
            Active(s.idb.data, id)
            && s.idb.data.reservations[id].sku == o.sku && s.idb.data.reservations[id].quantity == o.quantity)
      && (o.status == O.Cancelled ==>
            (Active(s.idb.data, id) <==> id in s.idb.data.reservations && CancelHandledFirst(s, id)))
  {
    var w := RunKeeps(totals, steps);
    MarksAreDistinct(totals, steps);
    var s := Exec(Init(totals), steps);
    EverythingHandled(s, w, id);
    if s.odb.data.orders[id].status == O.Pending {
      PendingIsReserved(s, w, id);
    } else if s.odb.data.orders[id].status == O.Cancelled && id in s.idb.data.reservations {
      LeaksWhenCancelledFirst(s, w, id);
    }
  }

  lemma LeaksWhenCancelledFirst(s: State, w: Links, id: OrderId)
    requires OrderOutbox(s.odb.data, w.created, w.cancelled) && Releases(s.idb, w) && DistinctMarks(s.idb.processed)
    requires id in s.idb.data.reservations
    requires id in w.created && w.created[id] in s.idb.processed
    requires id in w.cancelled && w.cancelled[id] in s.idb.processed
    ensures Active(s.idb.data, id) <==> CancelHandledFirst(s, id)
  {
    LinkedOnce(s.odb.data, w, id, id);
    FirstIsAnOrderOfMarks(s, w, id);
    ActiveUnlessCompensated(s.idb, w, id);
  }

  lemma PendingIsReserved(s: State, w: Links, id: OrderId)
    requires id in s.odb.data.orders && s.odb.data.orders[id].status == O.Pending
    requires id in w.outcome && w.outcome[id] in s.odb.processed && id !in w.cancelled
    requires Refusals(s.odb, s.idb.data.reservations, w.outcome) && Releases(s.idb, w)
    requires OwnReservations(s.odb.data.orders, s.idb.data.reservations)
    ensures Active(s.idb.data, id)
    ensures s.idb.data.reservations[id].sku == s.odb.data.orders[id].sku
    ensures s.idb.data.reservations[id].quantity == s.odb.data.orders[id].quantity
  {
    assert !CompensatedAfter(s.idb.processed, w, id);
  }

  lemma ActiveUnlessCompensated(idb: I.Db, w: Links, id: OrderId)
    requires Releases(idb, w) && id in idb.data.reservations && DistinctMarks(idb.processed)
    requires id in w.created && w.created[id] in idb.processed && id in w.cancelled && w.cancelled[id] in idb.processed
    requires w.created[id] != w.cancelled[id]
    ensures Active(idb.data, id) <==> idb.processed[w.cancelled[id]] < idb.processed[w.created[id]]
  {
    assert idb.data.reservations[id].status == I.Released <==> CompensatedAfter(idb.processed, w, id);
  }

  /** In particular, if the inventory never handles a cancellation before its creation, no
      cancelled order holds stock at rest. */
  lemma OrderedHandlingLeaksNothing(totals: map<Sku, nat>, steps: seq<Step>, id: OrderId)
    requires Quiescent(Exec(Init(totals), steps))
    requires id in Exec(Init(totals), steps).odb.data.orders
    requires Exec(Init(totals), steps).odb.data.orders[id].status == O.Cancelled
    requires !CancelHandledFirst(Exec(Init(totals), steps), id)
    ensures !Active(Exec(Init(totals), steps).idb.data, id)
  {
    Convergence(totals, steps, id);
  }

  // ---------------------------------------------------------------- paid orders

  ghost predicate RefusalWritten(t: I.Tables, id: OrderId) {
    exists e :: e in t.outbox && t.outbox[e].event.ReservationFailed? && t.outbox[e].event.orderId == id
  }

  /** When a paid order has its stock. In every reachable state: exactly when the inventory has
      written that it granted it. At rest: exactly when the inventory has not refused it. */
  lemma PaidIsReservedUnlessRefused(totals: map<Sku, nat>, steps: seq<Step>, id: OrderId)
    requires id in Exec(Init(totals), steps).odb.data.orders
    requires Exec(Init(totals), steps).odb.data.orders[id].status == O.Paid
    ensures var s := Exec(Init(totals), steps);
      && (Active(s.idb.data, id) <==> GrantWritten(s.idb.data, id))
      && (Quiescent(s) ==> (Active(s.idb.data, id) <==> !RefusalWritten(s.idb.data, id)))
  {
    var w := RunKeeps(totals, steps);
    PaidAt(Exec(Init(totals), steps), w, id);
    if Quiescent(Exec(Init(totals), steps)) {
      AnsweredAtRest(Exec(Init(totals), steps), w, id);
    }
  }

  lemma PaidAt(s: State, w: Links, id: OrderId)
    requires Inv(s, w) && id in s.odb.data.orders && s.odb.data.orders[id].status == O.Paid
    ensures Active(s.idb.data, id) <==> id in s.idb.data.reservations
    ensures Active(s.idb.data, id) <==> GrantWritten(s.idb.data, id)
  {
    ReleasedIsCancelled(s, w, id);
    ActiveIsGranted(s.idb.data, w.outcome, id);
  }

  lemma ActiveIsGranted(t: I.Tables, outcome: map<OrderId, EventId>, id: OrderId)
    requires Outcomes(t, outcome) && (id in t.reservations ==> t.reservations[id].status == I.Reserved)
    ensures Active(t, id) <==> id in t.reservations
    ensures Active(t, id) <==> GrantWritten(t, id)
  {
    GrantedWhenWritten(t, outcome, id);
  }

  lemma AnsweredAtRest(s: State, w: Links, id: OrderId)
    requires Inv(s, w) && Quiescent(s) && id in s.odb.data.orders
    ensures id in s.idb.data.reservations <==> !RefusalWritten(s.idb.data, id)
  {
    EverythingHandled(s, w, id);
    RefusedWhenWritten(s.idb.data, w.outcome, id);
  }

  lemma RefusedWhenWritten(t: I.Tables, outcome: map<OrderId, EventId>, id: OrderId)
    requires Outcomes(t, outcome)
    ensures RefusalWritten(t, id) <==> id in outcome && id !in t.reservations
  {
    if RefusalWritten(t, id) {
      var e :| e in t.outbox && t.outbox[e].event.ReservationFailed? && t.outbox[e].event.orderId == id;
      assert Subject(t.outbox[e].event) == Some(id);
    }
    if id in outcome && id !in t.reservations {
      assert t.outbox[outcome[id]].event == ReservationFailed(id, OutOfStock);
    }
  }

  // ---------------------------------------------------------------- no overselling

  ghost function PendingOf(orders: map<OrderId, O.Order>, sku: Sku): map<OrderId, int> {
    map id | id in orders && orders[id].status == O.Pending && orders[id].sku == sku :: orders[id].quantity
  }

  /** At rest, what pending orders ask of a product never exceeds its total. */
  lemma PendingWithinTotal(totals: map<Sku, nat>, steps: seq<Step>, sku: Sku)
    requires Quiescent(Exec(Init(totals), steps)) && PositiveOrders(Exec(Init(totals), steps))
    requires sku in totals
    ensures Total(PendingOf(Exec(Init(totals), steps).odb.data.orders, sku)) <= totals[sku]
  {
    var s := Exec(Init(totals), steps);
    var w := RunKeeps(totals, steps);
    PositiveReservations(s, w);
    StockIsConserved(totals, steps, sku);
    PendingIsHeld(totals, steps, sku);
    TotalMonotone(PendingOf(s.odb.data.orders, sku), I.Held(s.idb.data.reservations, sku));
  }

  lemma PendingIsHeld(totals: map<Sku, nat>, steps: seq<Step>, sku: Sku)
    requires Quiescent(Exec(Init(totals), steps))
    ensures var s := Exec(Init(totals), steps);
      var pending, held := PendingOf(s.odb.data.orders, sku), I.Held(s.idb.data.reservations, sku);
      forall id :: id in pending ==> id in held && held[id] == pending[id]
  {
    var s := Exec(Init(totals), steps);
    forall id | id in PendingOf(s.odb.data.orders, sku)
      ensures id in I.Held(s.idb.data.reservations, sku)
      ensures I.Held(s.idb.data.reservations, sku)[id] == PendingOf(s.odb.data.orders, sku)[id]
    {
      Convergence(totals, steps, id);
    }
  }
}
