/** The inventory consumer as the code runs it: statements that change table rows one after
    the other inside a transaction, a rollback on any error, and a retry around the whole.
    Every method is proved against the transactions of module Inventory. */
module InventoryService {
  import opened Events
  import opened Outbox
  import opened Inventory
  import Dedup
  import Retry

  datatype Statement =
    | FindProcessed | LockReservation | DecrementProduct | InsertReservation
    | FlipReservation | RefillProduct | InsertEvent | InsertProcessed | CommitTx
    | AckLost  // the commit takes place, and the answer to it does not arrive

  /** The driver errors a run of a transaction will meet, by statement. */
  type Faults = map<Statement, Retry.Error>

  /** What a lookup can report besides a row. */
  datatype QueryError = NotFound | Driver(err: Retry.Error)

  /** What the environment does in one attempt of a retried transaction: what `others` commit
      before it, the errors it meets, and whether the caller gives up in the wait after it. */
  datatype Attempt = Attempt(others: Db -> Db, faults: Faults, newEid: EventId, cancelled: bool, random: nat)

  /** Nobody removes a mark from `processed_events`. */
  ghost predicate MarksStay(attempts: nat -> Attempt) {
    forall k: nat :: KeepsMarks(attempts(k).others)
  }

  ghost predicate KeepsMarks(others: Db -> Db) {
    forall db: Db :: db.processed.Keys <= others(db).processed.Keys
  }

  ghost predicate AcksArrive(attempts: nat -> Attempt, calls: nat) {
    forall k: nat :: 1 <= k <= calls ==> AckLost !in attempts(k).faults
  }

  /** The database an attempt found and the one it left. */
  datatype Run = Run(found: Db, left: Db)

  /** The attempt leaves alone what it found, or commits the specified transaction on it. */
  ghost predicate Faithful(run: Run, msg: Msg<OrderEvent>, env: Attempt) {
    run.left == run.found || Process(run.found, msg, env.newEid) == Some(run.left)
  }

  /** What the attempts have left in the end. */
  function End(start: Db, runs: seq<Run>): Db {
    if runs == [] then start else runs[|runs| - 1].left
  }

  /** The attempts one after the other: each finds what others have made of what the ones before
      it left. */
  ghost predicate Attempted(start: Db, msg: Msg<OrderEvent>, attempts: nat -> Attempt, runs: seq<Run>) {
    runs != [] ==>
      var before, last := runs[..|runs| - 1], runs[|runs| - 1];
      && Attempted(start, msg, attempts, before)
      && last.found == attempts(|runs|).others(End(start, before))
      && Faithful(last, msg, attempts(|runs|))
  }

  /** How many of the attempts have changed the database. */
  function Commits(runs: seq<Run>): nat {
    if runs == [] then 0
    else Commits(runs[..|runs| - 1]) + if runs[|runs| - 1].left == runs[|runs| - 1].found then 0 else 1
  }

  lemma OneMoreRun(start: Db, msg: Msg<OrderEvent>, attempts: nat -> Attempt, runs: seq<Run>, run: Run)
    requires Attempted(start, msg, attempts, runs) && Faithful(run, msg, attempts(|runs| + 1))
    requires run.found == attempts(|runs| + 1).others(End(start, runs))
    ensures Attempted(start, msg, attempts, runs + [run])
    ensures Commits(runs + [run]) == Commits(runs) + if run.left == run.found then 0 else 1
  {
    assert (runs + [run])[..|runs|] == runs;
  }

  /** An attempt changes nothing if the event is marked, and marks it if it changes anything. */
  lemma FaithfulMarks(run: Run, msg: Msg<OrderEvent>, env: Attempt)
    requires Faithful(run, msg, env)
    ensures msg.eid in run.found.processed ==> run.left == run.found
    ensures run.left != run.found ==> msg.eid in run.left.processed
  {
    ProcessIs(run.found, msg, env.newEid);
  }

  /** Over all attempts, whatever others do in between and whichever answers are lost, at most
      one commits; and none does if the event was marked to begin with. */
  lemma {:induction false} CommitsAtMostOnce(start: Db, msg: Msg<OrderEvent>, attempts: nat -> Attempt, runs: seq<Run>)
    requires MarksStay(attempts) && Attempted(start, msg, attempts, runs)
    ensures Commits(runs) <= 1
    ensures Commits(runs) == 1 ==> msg.eid in End(start, runs).processed
    ensures msg.eid in start.processed ==> Commits(runs) == 0 && msg.eid in End(start, runs).processed
  {
    if runs != [] {
      var before, last := runs[..|runs| - 1], runs[|runs| - 1];
      CommitsAtMostOnce(start, msg, attempts, before);
      FaithfulMarks(last, msg, attempts(|runs|));
      assert KeepsMarks(attempts(|runs|).others);
    }
  }

  /** As long as answers to commits arrive, these attempts have changed nothing. */
  ghost predicate NoneCommitted(attempts: nat -> Attempt, runs: seq<Run>) {
    AcksArrive(attempts, |runs|) ==> Commits(runs) == 0
  }

  /** If the event is marked after an attempt, that attempt was the transaction, carried out. */
  lemma MarkedIsDone(start: Db, msg: Msg<OrderEvent>, attempts: nat -> Attempt, runs: seq<Run>)
    requires Attempted(start, msg, attempts, runs) && runs != [] && msg.eid in End(start, runs).processed
    ensures Process(runs[|runs| - 1].found, msg, attempts(|runs|).newEid) == Some(End(start, runs))
  {
    FaithfulMarks(runs[|runs| - 1], msg, attempts(|runs|));
    ProcessIs(runs[|runs| - 1].found, msg, attempts(|runs|).newEid);
  }

  /** With nobody else about, what all attempts together have done is one transaction or nothing. */
  lemma {:induction false} AloneIsOneTransaction(start: Db, msg: Msg<OrderEvent>, attempts: nat -> Attempt,
                                                 runs: seq<Run>)
    requires Attempted(start, msg, attempts, runs) && forall k: nat, db: Db :: attempts(k).others(db) == db
    ensures End(start, runs) == start
      || exists k: nat :: 1 <= k <= |runs| && Process(start, msg, attempts(k).newEid) == Some(End(start, runs))
  {
    if runs != [] {
      var before, last := runs[..|runs| - 1], runs[|runs| - 1];
      AloneIsOneTransaction(start, msg, attempts, before);
      FaithfulMarks(last, msg, attempts(|runs|));
      if last.found != start {
        var k: nat :| 1 <= k <= |before| && Process(start, msg, attempts(k).newEid) == Some(last.found);
        ProcessIs(start, msg, attempts(k).newEid);
      }
    }
  }

  /** There is such a product, and enough of it for an order of more or less than nothing. */
  ghost predicate Enough(products: map<Sku, Product>, sku: Sku, qty: int) {
    sku in products && qty <= products[sku].available && qty != 0
  }

  /** Each attempt's error was met in that attempt. */
  ghost predicate AllReported(errors: seq<Retry.Error>, attempts: nat -> Attempt) {
    forall i :: 0 <= i < |errors| ==> Reported(errors[i], attempts(i + 1).faults)
  }

  /** The first `n` errors let the loop go on: lock errors, and nobody gave up in the wait. */
  ghost predicate AllRetried(errors: seq<Retry.Error>, attempts: nat -> Attempt, n: nat)
    requires n <= |errors|
  {
    forall i :: 0 <= i < n ==> LockError(errors[i]) && !attempts(i + 1).cancelled
  }

  lemma OneMoreError(errors: seq<Retry.Error>, attempts: nat -> Attempt, err: Retry.Error)
    requires AllReported(errors, attempts) && AllRetried(errors, attempts, |errors|)
    requires Reported(err, attempts(|errors| + 1).faults)
    ensures AllReported(errors + [err], attempts) && AllRetried(errors + [err], attempts, |errors|)
    ensures LockError(err) && !attempts(|errors| + 1).cancelled ==> AllRetried(errors + [err], attempts, |errors| + 1)
    ensures Retry.IsDeadlock(err) <==> LockError(err)
  {
    Retry.RetryableExactly(err);
  }

  /** A deadlock or a lock wait timeout, however wrapped. */
  ghost predicate LockError(err: Retry.Error) {
    Retry.Innermost(err) == Retry.MySql(1213) || Retry.Innermost(err) == Retry.MySql(1205)
  }

  /** Errors are passed on as they are met: the driver's, or the unique key's own. */
  ghost predicate Reported(err: Retry.Error, faults: Faults) {
    err == Retry.MySql(1062) || exists st :: st in faults && faults[st] == err
  }

  class Database {
    var products: map<Sku, Product>
    var reservations: map<OrderId, Reservation>
    var outbox: map<EventId, Row<InventoryEvent>>
    var processed: map<EventId, nat>

    function Rows(): Tables
      reads this
    {
      Tables(products, reservations, outbox)
    }

    function Value(): Db
      reads this
    {
      Dedup.Store(Rows(), processed)
    }

    constructor (totals: map<Sku, int>)
      ensures Value() == Dedup.Store(Tables(map s | s in totals :: Product(totals[s], totals[s]), map[], map[]), map[])
    {
      products := map s | s in totals :: Product(totals[s], totals[s]);
      reservations, outbox, processed := map[], map[], map[];
    }

    /** One guarded UPDATE: 1 row changed, 0 rows, or -1 for a driver error. A change takes exactly
        the quantity from this product, leaves no less than 0, and touches no other product; a
        refusal means no such product, too little of it, or a quantity of 0. */
    method DecrementAvailable(sku: Sku, qty: int, faults: Faults) returns (affected: int)
      modifies `products
      ensures affected in {-1, 0, 1} && (affected == -1 <==> DecrementProduct in faults)
      ensures affected == 1 ==>
        && sku in old(products) && products.Keys == old(products).Keys
        && 0 <= products[sku].available == old(products)[sku].available - qty
        && products[sku].total == old(products)[sku].total
        && forall other :: other in products && other != sku ==> products[other] == old(products)[other]
      ensures affected != 1 ==> products == old(products)
      ensures affected == 0 <==>
        (DecrementProduct !in faults && (sku in old(products) && qty != 0 ==> old(products)[sku].available < qty))
    {
      if DecrementProduct in faults {
        return -1;
      }
      if CanTake(products, sku, qty) {
        products := Adjust(products, sku, -qty);
        return 1;
      }
      return 0;
    }

    /** Lock the reservation slot, take the stock, write the reservation. */
    method ReserveOrdered(id: OrderId, sku: Sku, qty: int, faults: Faults)
      returns (affected: int, err: Option<Retry.Error>)
      modifies `products, `reservations
      ensures err.None? ==>
        match Reserve(old(Rows()), id, sku, qty)
        case Taken(t) => affected == 1 && Rows() == t
        case Short => affected == 0 && Rows() == old(Rows())
        case Duplicate => false
      ensures err.Some? && Reserve(old(Rows()), id, sku, qty) == Duplicate && faults == map[] ==>
        err == Some(Retry.MySql(Retry.ER_DUP_ENTRY))
      ensures faults == map[] && Reserve(old(Rows()), id, sku, qty) != Duplicate ==> err.None?
      ensures err.Some? ==> Reported(err.value, faults)
    {
      if LockReservation in faults {
        return 0, Some(faults[LockReservation]);
      }
      var changed := DecrementAvailable(sku, qty, faults);
      if changed == 0 {
        return 0, None;
      } else if changed < 0 {
        return 0, Some(faults[DecrementProduct]);
      }
      assert products == Adjust(old(products), sku, -qty);
      if InsertReservation in faults {
        return 0, Some(faults[InsertReservation]);
      }
      if id in reservations {
        return 0, Some(Retry.MySql(Retry.ER_DUP_ENTRY));
      }
      reservations := reservations[id := Reservation(sku, qty, Reserved)];
      return 1, None;
    }

    /** Flip the reservation first, give the stock back second. */
    method ReleaseReservation(id: OrderId, faults: Faults) returns (affected: int, err: Option<QueryError>)
      modifies `products, `reservations
      ensures err.None? || err.value.NotFound? ==> Rows() == Release(old(Rows()), id)
      ensures err.None? ==> id in old(reservations) && affected == if Rows() == old(Rows()) then 0 else 1
      ensures err == Some(NotFound) ==> id !in old(reservations)
      ensures faults == map[] ==> err == if id in old(reservations) then None else Some(NotFound)
      ensures err.Some? && err.value.Driver? ==> Reported(err.value.err, faults)
    {
      if LockReservation in faults {
        return 0, Some(Driver(faults[LockReservation]));
      }
      if id !in reservations {
        return 0, Some(NotFound);
      }
      var res := reservations[id];
      if res.status == Released {
        return 0, None;
      }
      if FlipReservation in faults {
        return 0, Some(Driver(faults[FlipReservation]));
      }
      reservations := reservations[id := res.(status := Released)];
      if RefillProduct in faults {
        return 0, Some(Driver(faults[RefillProduct]));
      }
      if res.sku in products {
        products := Adjust(products, res.sku, res.quantity);
      }
      return 1, None;
    }

    method WriteOutbox(event: InventoryEvent, newEid: EventId, faults: Faults) returns (err: Option<Retry.Error>)
      modifies `outbox
      ensures err.None? ==> InsertOutbox(old(Rows()), newEid, event) == Some(Rows())
      ensures err.None? ==> newEid !in old(outbox) && outbox == old(outbox)[newEid := Row(event, RowPending, 0)]
      ensures faults == map[] && newEid !in old(outbox) ==> err.None?
      ensures err.Some? ==> Reported(err.value, faults)
    {
      if InsertEvent in faults {
        return Some(faults[InsertEvent]);
      }
      if newEid in outbox {
        return Some(Retry.MySql(Retry.ER_DUP_ENTRY));
      }
      outbox := outbox[newEid := Fresh(event)];
      return None;
    }

    method HandleOrderCreated(event: OrderEvent, newEid: EventId, faults: Faults) returns (err: Option<Retry.Error>)
      requires event.OrderCreated?
      modifies `products, `reservations, `outbox
      ensures err.None? ==> Handle(old(Rows()), event, newEid) == Some(Rows())
      ensures faults == map[] && Handle(old(Rows()), event, newEid).Some? ==> err.None?
      ensures err.None? && Enough(old(products), event.sku, event.quantity) ==>
        && event.orderId !in old(reservations) && newEid !in old(outbox)
        && products == old(products)[
             event.sku := Product(old(products)[event.sku].total, old(products)[event.sku].available - event.quantity)]
        && reservations == old(reservations)[event.orderId := Reservation(event.sku, event.quantity, Reserved)]
        && outbox == old(outbox)[newEid := Row(InventoryReserved(event.orderId), RowPending, 0)]
      ensures err.None? && !Enough(old(products), event.sku, event.quantity) ==>
        && products == old(products) && reservations == old(reservations) && newEid !in old(outbox)
        && outbox == old(outbox)[newEid := Row(ReservationFailed(event.orderId, OutOfStock), RowPending, 0)]
      ensures faults == map[] ==>
        (err.None? <==>
           && newEid !in old(outbox)
           && !(Enough(old(products), event.sku, event.quantity) && event.orderId in old(reservations)))
      ensures err.Some? ==> Reported(err.value, faults)
    {
      var affected, reserveErr := ReserveOrdered(event.orderId, event.sku, event.quantity, faults);
      if reserveErr.Some? {
        return reserveErr;
      }
      var id := event.orderId;
      var outcome := if affected == 1 then InventoryReserved(id) else ReservationFailed(id, OutOfStock);
      err := WriteOutbox(outcome, newEid, faults);
    }

    /** The order's stock goes back, once. A missing reservation is not an error: nothing was
        reserved, nothing is to be released. */
    method HandleOrderCancelled(event: OrderEvent, faults: Faults) returns (err: Option<Retry.Error>)
      requires event.OrderCancelled?
      modifies `products, `reservations
      ensures err.None? ==> Rows() == Release(old(Rows()), event.orderId)
      ensures err.None? ==>
        if event.orderId in old(reservations) && old(reservations)[event.orderId].status == Reserved then
          var r := old(reservations)[event.orderId];
          && reservations == old(reservations)[event.orderId := Reservation(r.sku, r.quantity, Released)]
          && products == if r.sku !in old(products) then old(products)
                         else old(products)[
                           r.sku := Product(old(products)[r.sku].total, old(products)[r.sku].available + r.quantity)]
        else reservations == old(reservations) && products == old(products)
      ensures faults == map[] ==> err.None?
      ensures err.Some? ==> Reported(err.value, faults)
    {
      var affected, releaseErr := ReleaseReservation(event.orderId, faults);
      match releaseErr
      case None => return None;
      case Some(NotFound) => return None;
      case Some(Driver(e)) => return Some(e);
    }

    /** The dispatch inside the transaction. */
    method RunHandler(event: OrderEvent, newEid: EventId, faults: Faults) returns (err: Option<Retry.Error>)
      modifies `products, `reservations, `outbox
      ensures err.None? ==> Handle(old(Rows()), event, newEid) == Some(Rows())
      ensures faults == map[] && Handle(old(Rows()), event, newEid).Some? ==> err.None?
      ensures err.Some? ==> Reported(err.value, faults)
      ensures event == OtherOrderEvent ==> err.None? && Rows() == old(Rows())
    {
      match event
      case OrderCreated(_, _, _, _, _, _) => err := HandleOrderCreated(event, newEid, faults);
      case OrderCancelled(_, _, _, _) => err := HandleOrderCancelled(event, faults);
      case OtherOrderEvent => err := None;
    }

    /** The idempotent transaction. Without an error it is exactly the transaction of the
        specification; with one, wherever it struck, no row has changed, unless it was only the
        answer to the commit that got lost. */
    method ProcessEvent(msg: Msg<OrderEvent>, newEid: EventId, faults: Faults)
      returns (done: bool, err: Option<Retry.Error>)
      modifies this
      ensures err.None? ==> Process(old(Value()), msg, newEid) == Some(Value())
      ensures err.None? ==> (done <==> msg.eid !in old(processed))
      ensures err.Some? ==>
        || Value() == old(Value())
        || (AckLost in faults && Process(old(Value()), msg, newEid) == Some(Value()))
      ensures faults == map[] ==> (err.None? <==> Process(old(Value()), msg, newEid).Some?)
      ensures err.Some? ==> Reported(err.value, faults)
      ensures FindProcessed in faults || CommitTx in faults || AckLost in faults ==> err.Some?
    {
      var before := (products, reservations, outbox, processed);
      done, err := false, None;
      if FindProcessed in faults {
        return done, Some(faults[FindProcessed]);
      }
      if msg.eid !in processed {
        err := RunHandler(msg.event, newEid, faults);
        if err.None? && InsertProcessed in faults {
          err := Some(faults[InsertProcessed]);
        }
        if err.None? {
          processed := processed[msg.eid := |processed|];
          done := true;
        }
      }
      if err.None? && CommitTx in faults {
        err := Some(faults[CommitTx]);
      }
      if err.Some? {
        products, reservations, outbox, processed := before.0, before.1, before.2, before.3;
      } else if AckLost in faults {
        err := Some(faults[AckLost]);
      }
    }

    /** The retry loop around the transaction. `attempts` is what the environment does in each
        attempt. The transaction runs once per attempt, again only after a lock error, and never
        more than `maxAttempts` times. Others commit in between; still at most one attempt commits,
        even if the answer to a commit is lost and the attempt repeated. A nil result means the
        event is marked, unless `maxAttempts` allowed no attempt at all. */
    method WithRetry(msg: Msg<OrderEvent>, o: Retry.Options, attempts: nat -> Attempt)
      returns (done: bool, err: Option<Retry.Error>, errors: seq<Retry.Error>, calls: nat, waits: seq<int>,
               ghost runs: seq<Run>)
      requires MarksStay(attempts)
      modifies this
      ensures calls <= if o.maxAttempts >= 1 then o.maxAttempts else 0
      ensures o.maxAttempts >= 1 ==> calls >= 1
      ensures |errors| == if err.None? && calls > 0 then calls - 1 else calls
      ensures AllReported(errors, attempts) && (calls > 0 ==> AllRetried(errors, attempts, calls - 1))
      ensures |runs| == calls && Attempted(old(Value()), msg, attempts, runs)
      ensures Commits(runs) <= 1
      ensures Value() == End(old(Value()), runs)
      ensures err.None? && calls > 0 ==>
        msg.eid in processed && (done <==> msg.eid !in runs[calls - 1].found.processed)
      ensures if err.Some? then NoneCommitted(attempts, runs)
              else calls > 0 ==> NoneCommitted(attempts, runs[..calls - 1])
      ensures err.None? && calls == 0 ==> o.maxAttempts <= 0
      ensures err.Some? ==> calls > 0
      ensures err.Some? ==>
        if LockError(errors[calls - 1]) && calls < o.maxAttempts
        then attempts(calls).cancelled && err == Some(Retry.ContextDone)
        else err == Some(errors[calls - 1])
      ensures Retry.AllWaited(o, waits) && |waits| == if calls == 0 then 0 else calls - 1
    {
      done, err, errors, calls, waits, runs := false, None, [], 0, [], [];
      var attempt := 1;
      while attempt <= o.maxAttempts
        invariant 1 <= attempt && calls == attempt - 1 == |errors| == |runs|
        invariant if o.maxAttempts >= 1 then attempt <= o.maxAttempts else attempt == 1
        invariant AllReported(errors, attempts) && AllRetried(errors, attempts, calls)
        invariant calls == 0 ==> err.None?
        invariant Attempted(old(Value()), msg, attempts, runs)
        invariant Commits(runs) <= 1
        invariant Value() == End(old(Value()), runs)
        invariant NoneCommitted(attempts, runs)
        invariant Retry.AllWaited(o, waits) && |waits| == calls
        decreases o.maxAttempts - attempt
      {
        done, err, errors, runs := TryOnce(msg, attempts, attempt, errors, old(Value()), runs);
        calls := attempt;
        if err.None? {
          return;
        }
        if !Retry.IsDeadlock(err.value) || attempt >= o.maxAttempts {
          return;
        }
        if attempts(attempt).cancelled {
          err := Some(Retry.ContextDone);
          return;
        }
        waits := Retry.Wait(o, attempt, attempts(attempt).random, waits);
        attempt := attempt + 1;
      }
    }

    /** One attempt more, after whatever others have done since the last. */
    method TryOnce(msg: Msg<OrderEvent>, attempts: nat -> Attempt, attempt: nat, errors: seq<Retry.Error>,
                   ghost start: Db, ghost runs: seq<Run>)
      returns (done: bool, err: Option<Retry.Error>, errors': seq<Retry.Error>, ghost runs': seq<Run>)
      requires MarksStay(attempts) && attempt == |runs| + 1 == |errors| + 1
      requires AllReported(errors, attempts) && AllRetried(errors, attempts, |errors|)
      requires Attempted(start, msg, attempts, runs) && Value() == End(start, runs)
      modifies this
      ensures |runs'| == attempt && runs'[..attempt - 1] == runs
      ensures Attempted(start, msg, attempts, runs') && Value() == End(start, runs') && Commits(runs') <= 1
      ensures err.None? ==>
        && msg.eid in processed
        && Process(runs'[attempt - 1].found, msg, attempts(attempt).newEid) == Some(Value())
        && (done <==> msg.eid !in runs'[attempt - 1].found.processed)
      ensures err.Some? && AckLost !in attempts(attempt).faults ==> Commits(runs') == Commits(runs)
      ensures NoneCommitted(attempts, runs) && err.Some? ==> NoneCommitted(attempts, runs')
      ensures AllReported(errors', attempts) && errors' == if err.None? then errors else errors + [err.value]
      ensures AllRetried(errors', attempts, |errors|)
      ensures err.Some? ==>
        && (Retry.IsDeadlock(err.value) <==> LockError(err.value))
        && (LockError(err.value) && !attempts(attempt).cancelled ==> AllRetried(errors', attempts, attempt))
    {
      var env := attempts(attempt);
      MeetOthers(env.others);
      ghost var found := Value();
      done, err := ProcessEvent(msg, env.newEid, env.faults);
      runs' := runs + [Run(found, Value())];
      OneMoreRun(start, msg, attempts, runs, Run(found, Value()));
      CommitsAtMostOnce(start, msg, attempts, runs');
      ProcessIs(found, msg, env.newEid);
      errors' := errors;
      if err.Some? {
        OneMoreError(errors, attempts, err.value);
        errors' := errors + [err.value];
      }
    }

    /** What other transactions commit meanwhile. */
    method MeetOthers(others: Db -> Db)
      modifies this
      ensures Value() == others(old(Value()))
    {
      var db := others(Value());
      products, reservations, outbox := db.data.products, db.data.reservations, db.data.outbox;
      processed := db.processed;
    }

    /** A message without an event id is dropped, one that cannot be decoded is an error, and
        any other goes through the retried transaction. */
    method HandleOrderEvent(d: Delivery<OrderEvent>, attempts: nat -> Attempt)
      returns (err: Option<Retry.Error>, ghost runs: seq<Run>)
      requires MarksStay(attempts)
      modifies this
      ensures d.eidHeader.None? ==> err.None? && Value() == old(Value()) && runs == []
      ensures d.eidHeader.Some? && d.envelope.None? ==>
        err == Some(Retry.Malformed) && Value() == old(Value()) && runs == []
      ensures d.eidHeader.Some? && d.envelope.Some? ==>
        var msg := Msg(d.eidHeader.value, d.envelope.value);
        && 1 <= |runs| <= 3 && Attempted(old(Value()), msg, attempts, runs)
        && Value() == End(old(Value()), runs)
        && Commits(runs) <= 1
        && (err.None? ==> msg.eid in processed)
        && (err.Some? ==> NoneCommitted(attempts, runs))
        && (err.Some? && LockError(err.value) ==> |runs| == 3)
    {
      if d.eidHeader.None? {
        return None, [];
      }
      if d.envelope.None? {
        return Some(Retry.Malformed), [];
      }
      var msg := Msg(d.eidHeader.value, d.envelope.value);
      var done, errors, calls, waits;
      done, err, errors, calls, waits, runs := WithRetry(msg, Retry.DEFAULT, attempts);
    }
  }
}
