/** The inventory transactions one statement at a time, under row locks held to the end.
    A statement first locks its row (an exact key, present or not), then reads the committed
    row and writes a private version of it; commit installs the private versions, abort drops
    them. `reversed` is the fault-injection variant that takes the product before the slot. */
module RowLocks {
  import opened Events
  import opened Outbox
  import Dedup
  import I = Inventory

  type TxId = nat

  datatype Resource = Slot(id: OrderId) | ProductRow(sku: Sku) | EventKey(eid: EventId) | ProcessedKey(eid: EventId)

  /** The order in which the ordered program takes its locks. */
  function Rank(r: Resource): nat {
    match r
    case Slot(_) => 0
    case ProductRow(_) => 1
    case EventKey(_) => 2
    case ProcessedKey(_) => 3
  }

  datatype Pc = LockSlot | TouchProduct | InsertReservation | InsertEvent | MarkProcessed | Ready

  /** Private versions of the rows a transaction has written. */
  datatype Writes = Writes(
    products: map<Sku, I.Product>, reservations: map<OrderId, I.Reservation>, outbox: map<EventId, Row<InventoryEvent>>)

  const NOTHING := Writes(map[], map[], map[])

  datatype Tx = Tx(msg: Msg<OrderEvent>, newEid: EventId, reversed: bool, pc: Pc, held: set<Resource>, writes: Writes)

  function Overlay(t: I.Tables, w: Writes): I.Tables {
    I.Tables(t.products + w.products, t.reservations + w.reservations, t.outbox + w.outbox)
  }

  predicate Created(tx: Tx) { tx.msg.event.OrderCreated? }

  predicate Cancelled(tx: Tx) { tx.msg.event.OrderCancelled? }

  /** The lock the next statement has to acquire, if it needs one it does not have. */
  function Needs(tx: Tx): Option<Resource> {
    match tx.pc
    case LockSlot => if Created(tx) || Cancelled(tx) then Some(Slot(tx.msg.event.orderId)) else None
    case TouchProduct =>
      if Created(tx) then Some(ProductRow(tx.msg.event.sku))
      else if Cancelled(tx) && tx.msg.event.orderId in tx.writes.reservations
      then Some(ProductRow(tx.writes.reservations[tx.msg.event.orderId].sku))
      else None
    case InsertReservation =>
      if Created(tx) && Slot(tx.msg.event.orderId) !in tx.held then Some(Slot(tx.msg.event.orderId)) else None
    case InsertEvent => if Created(tx) then Some(EventKey(tx.newEid)) else None
    case MarkProcessed => Some(ProcessedKey(tx.msg.eid))
    case Ready => None
  }

  /** The transaction as it is once the next statement's lock is granted. */
  function Acquire(tx: Tx): Tx {
    match Needs(tx)
    case None => tx
    case Some(r) => tx.(held := tx.held + {r})
  }

  function Answer(id: OrderId, granted: bool): InventoryEvent {
    if granted then InventoryReserved(id) else ReservationFailed(id, OutOfStock)
  }

  /** Execute the next statement; None is a unique-key error. */
  function Execute(db: I.Db, before: Tx): Option<Tx> {
    var tx := Acquire(before);
    match tx.msg.event
    case OrderCreated(id, _, sku, qty, _, _) =>
      (match tx.pc
       case LockSlot => Some(tx.(pc := TouchProduct))
       case TouchProduct =>
         if I.CanTake(db.data.products, sku, qty)
         then Some(tx.(pc := InsertReservation,
                       writes := tx.writes.(products := map[sku := I.Adjust(db.data.products, sku, -qty)[sku]])))
         else Some(tx.(pc := InsertEvent))
       case InsertReservation =>
         if id in db.data.reservations then None
         else Some(tx.(pc := InsertEvent,
                       writes := tx.writes.(reservations := map[id := I.Reservation(sku, qty, I.Reserved)])))
       case InsertEvent =>
         if tx.newEid in db.data.outbox then None
         else
           var event := Answer(id, id in tx.writes.reservations);
           Some(tx.(pc := MarkProcessed, writes := tx.writes.(outbox := map[tx.newEid := Fresh(event)])))
       case MarkProcessed => if tx.msg.eid in db.processed then None else Some(tx.(pc := Ready))
       case Ready => Some(tx))
    case OrderCancelled(id, _, _, _) =>
      (match tx.pc
       case LockSlot =>
         if id !in db.data.reservations || db.data.reservations[id].status == I.Released
         then Some(tx.(pc := MarkProcessed))
         else
           var r := db.data.reservations[id].(status := I.Released);
           Some(tx.(pc := TouchProduct, writes := tx.writes.(reservations := map[id := r])))
       case TouchProduct =>
         if id in tx.writes.reservations && tx.writes.reservations[id].sku in db.data.products then
           var r := tx.writes.reservations[id];
           var refilled := I.Adjust(db.data.products, r.sku, r.quantity)[r.sku];
           Some(tx.(pc := MarkProcessed, writes := tx.writes.(products := map[r.sku := refilled])))
         else Some(tx.(pc := MarkProcessed))
       case MarkProcessed => if tx.msg.eid in db.processed then None else Some(tx.(pc := Ready))
       case _ => Some(tx))
    case OtherOrderEvent =>
      (match tx.pc
       case LockSlot => Some(tx.(pc := MarkProcessed))
       case MarkProcessed => if tx.msg.eid in db.processed then None else Some(tx.(pc := Ready))
       case _ => Some(tx))
  }

  /** `log` records the committed transactions in commit order; no step reads it. */
  datatype Sys = Sys(db: I.Db, txs: map<TxId, Tx>, log: seq<Tx>)

  datatype Step =
    | Begin(t: TxId, msg: Msg<OrderEvent>, newEid: EventId, reversed: bool)
    | Statement(t: TxId)
    | Commit(t: TxId)
    | Abort(t: TxId)    // a driver error, a deadlock victim, a lost connection: at any point

  /** Another transaction holds the lock. */
  ghost predicate HeldByAnother(txs: map<TxId, Tx>, t: TxId, r: Resource) {
    exists u :: u in txs && u != t && r in txs[u].held
  }

  ghost predicate WaitsFor(s: Sys, t: TxId, u: TxId) {
    t in s.txs && u in s.txs && t != u && Needs(s.txs[t]).Some? && Needs(s.txs[t]).value in s.txs[u].held
  }

  ghost predicate Blocked(s: Sys, t: TxId)
    requires t in s.txs
  {
    Needs(s.txs[t]).Some? && HeldByAnother(s.txs, t, Needs(s.txs[t]).value)
  }

  ghost function Next(s: Sys, step: Step): Sys {
    match step
    case Begin(t, msg, newEid, reversed) =>
      if t in s.txs || msg.eid in s.db.processed then s
      else
        var pc := if reversed && msg.event.OrderCreated? then TouchProduct else LockSlot;
        s.(txs := s.txs[t := Tx(msg, newEid, reversed, pc, {}, NOTHING)])
    case Statement(t) =>
      if t !in s.txs || Blocked(s, t) then s
      else
        (match Execute(s.db, s.txs[t])
         case None => s.(txs := s.txs - {t})
         case Some(tx) => s.(txs := s.txs[t := tx]))
    case Commit(t) =>
      if t !in s.txs || s.txs[t].pc != Ready then s
      else
        var tx := s.txs[t];
        Sys(Dedup.Store(Overlay(s.db.data, tx.writes), s.db.processed[tx.msg.eid := |s.db.processed|]),
            s.txs - {t}, s.log + [tx])
    case Abort(t) => s.(txs := s.txs - {t})
  }

  ghost function Exec(s: Sys, steps: seq<Step>): Sys {
    if steps == [] then s else Next(Exec(s, steps[..|steps| - 1]), steps[|steps| - 1])
  }

  ghost function Init(db: I.Db): Sys {
    Sys(db, map[], [])
  }

  // ---------------------------------------------------------------- locks exclude

  ghost predicate Exclusive(txs: map<TxId, Tx>) {
    forall t, u :: t in txs && u in txs && t != u ==> txs[t].held !! txs[u].held
  }

  lemma ExecuteHolds(db: I.Db, tx: Tx)
    ensures Execute(db, tx).Some? ==>
      var tx' := Execute(db, tx).value;
      && tx'.held == (if Needs(tx).Some? then tx.held + {Needs(tx).value} else tx.held)
      && tx'.msg == tx.msg && tx'.newEid == tx.newEid && tx'.reversed == tx.reversed
  {
  }

  lemma StepExcludes(s: Sys, step: Step)
    requires Exclusive(s.txs)
    ensures Exclusive(Next(s, step).txs)
  {
    if step.Statement? && step.t in s.txs && !Blocked(s, step.t) && Execute(s.db, s.txs[step.t]).Some? {
      ExecuteHolds(s.db, s.txs[step.t]);
    }
  }

  // ---------------------------------------------------------------- serializability

  /** Both databases show the same row under this lock. */
  ghost predicate SameRow(a: I.Db, b: I.Db, r: Resource) {
    match r
    case Slot(id) =>
      (id in a.data.reservations <==> id in b.data.reservations)
      && (id in a.data.reservations ==> a.data.reservations[id] == b.data.reservations[id])
    case ProductRow(sku) =>
      (sku in a.data.products <==> sku in b.data.products)
      && (sku in a.data.products ==> a.data.products[sku] == b.data.products[sku])
    case EventKey(e) => e in a.data.outbox <==> e in b.data.outbox
    case ProcessedKey(e) => e in a.processed <==> e in b.processed
  }

  /** What a creating transaction has locked, found and written so far. */
  ghost predicate CreatedSoFar(db: I.Db, tx: Tx)
    requires Created(tx)
  {
    var id, sku, qty := tx.msg.event.orderId, tx.msg.event.sku, tx.msg.event.quantity;
    match tx.pc
    case LockSlot => tx.writes == NOTHING
    case TouchProduct => tx.writes == NOTHING
    case InsertReservation => Took(db, tx, sku, qty) && tx.writes.reservations == map[] && tx.writes.outbox == map[]
    case InsertEvent => StockDecided(db, tx, id, sku, qty) && tx.writes.outbox == map[]
    case MarkProcessed => StockDecided(db, tx, id, sku, qty) && EventWritten(db, tx, id)
    case Ready => StockDecided(db, tx, id, sku, qty) && EventWritten(db, tx, id) && MarkLocked(db, tx)
  }

  ghost predicate Took(db: I.Db, tx: Tx, sku: Sku, qty: int) {
    && ProductRow(sku) in tx.held && I.CanTake(db.data.products, sku, qty)
    && tx.writes.products == map[sku := I.Adjust(db.data.products, sku, -qty)[sku]]
  }

  ghost predicate StockDecided(db: I.Db, tx: Tx, id: OrderId, sku: Sku, qty: int) {
    || (Took(db, tx, sku, qty) && Slot(id) in tx.held && id !in db.data.reservations
        && tx.writes.reservations == map[id := I.Reservation(sku, qty, I.Reserved)])
    || (ProductRow(sku) in tx.held && !I.CanTake(db.data.products, sku, qty)
        && tx.writes.products == map[] && tx.writes.reservations == map[])
  }

  ghost predicate EventWritten(db: I.Db, tx: Tx, id: OrderId) {
    && EventKey(tx.newEid) in tx.held && tx.newEid !in db.data.outbox
    && tx.writes.outbox == map[tx.newEid := Fresh(Answer(id, id in tx.writes.reservations))]
  }

  ghost predicate MarkLocked(db: I.Db, tx: Tx) {
    ProcessedKey(tx.msg.eid) in tx.held && tx.msg.eid !in db.processed
  }

  /** What a releasing transaction has locked, found and written so far. */
  ghost predicate CancelledSoFar(db: I.Db, tx: Tx)
    requires Cancelled(tx)
  {
    var id := tx.msg.event.orderId;
    && tx.writes.outbox == map[]
    && match tx.pc
       case LockSlot => tx.writes == NOTHING
       case TouchProduct => Flipped(db, tx, id) && tx.writes.products == map[]
       case MarkProcessed => ReleaseDecided(db, tx, id)
       case Ready => ReleaseDecided(db, tx, id) && MarkLocked(db, tx)
       case _ => false
  }

  ghost predicate Flipped(db: I.Db, tx: Tx, id: OrderId) {
    && Slot(id) in tx.held && id in db.data.reservations && db.data.reservations[id].status == I.Reserved
    && tx.writes.reservations == map[id := db.data.reservations[id].(status := I.Released)]
  }

  ghost predicate ReleaseDecided(db: I.Db, tx: Tx, id: OrderId) {
    || (Slot(id) in tx.held && (id !in db.data.reservations || db.data.reservations[id].status == I.Released)
        && tx.writes.reservations == map[] && tx.writes.products == map[])
    || (Flipped(db, tx, id) && ProductRow(db.data.reservations[id].sku) in tx.held
        && var r := db.data.reservations[id];
           tx.writes.products == if r.sku in db.data.products
                                 then map[r.sku := I.Adjust(db.data.products, r.sku, r.quantity)[r.sku]] else map[])
  }

  ghost predicate SoFar(db: I.Db, tx: Tx) {
    match tx.msg.event
    case OrderCreated(_, _, _, _, _, _) => CreatedSoFar(db, tx)
    case OrderCancelled(_, _, _, _) => CancelledSoFar(db, tx)
    case OtherOrderEvent =>
      && tx.writes == NOTHING
      && (tx.pc == LockSlot || tx.pc == MarkProcessed || (tx.pc == Ready && MarkLocked(db, tx)))
  }

  lemma CreatedStatement(db: I.Db, tx: Tx)
    requires Created(tx) && CreatedSoFar(db, tx) && Execute(db, tx).Some?
    ensures CreatedSoFar(db, Execute(db, tx).value)
  {
  }

  lemma CancelledStatement(db: I.Db, tx: Tx)
    requires Cancelled(tx) && CancelledSoFar(db, tx) && Execute(db, tx).Some?
    ensures CancelledSoFar(db, Execute(db, tx).value)
  {
  }

  /** What a transaction has found stays true while the rows it has locked stay as they are. */
  lemma StableUnderLocks(db: I.Db, db': I.Db, tx: Tx)
    requires SoFar(db, tx) && forall r :: r in tx.held ==> SameRow(db, db', r)
    ensures SoFar(db', tx)
  {
    if Created(tx) {
      assert ProductRow(tx.msg.event.sku) in tx.held ==> SameRow(db, db', ProductRow(tx.msg.event.sku));
      assert Slot(tx.msg.event.orderId) in tx.held ==> SameRow(db, db', Slot(tx.msg.event.orderId));
    } else if Cancelled(tx) {
      var id := tx.msg.event.orderId;
      assert Slot(id) in tx.held ==> SameRow(db, db', Slot(id));
      if id in tx.writes.reservations {
        var sku := tx.writes.reservations[id].sku;
        assert ProductRow(sku) in tx.held ==> SameRow(db, db', ProductRow(sku));
      }
    }
    assert EventKey(tx.newEid) in tx.held ==> SameRow(db, db', EventKey(tx.newEid));
    assert ProcessedKey(tx.msg.eid) in tx.held ==> SameRow(db, db', ProcessedKey(tx.msg.eid));
  }

  /** At commit the private versions are exactly what the atomic handler would write now. */
  lemma CreatedCommits(db: I.Db, tx: Tx)
    requires Created(tx) && tx.pc == Ready && CreatedSoFar(db, tx)
    ensures I.Handle(db.data, tx.msg.event, tx.newEid) == Some(Overlay(db.data, tx.writes))
  {
    var t := Overlay(db.data, tx.writes);
    var id, sku, qty := tx.msg.event.orderId, tx.msg.event.sku, tx.msg.event.quantity;
    if I.CanTake(db.data.products, sku, qty) {
      assert t.products == I.Adjust(db.data.products, sku, -qty);
      assert t.reservations == db.data.reservations[id := I.Reservation(sku, qty, I.Reserved)];
      assert t.outbox == db.data.outbox[tx.newEid := Fresh(InventoryReserved(id))];
    } else {
      assert t.products == db.data.products && t.reservations == db.data.reservations;
      assert t.outbox == db.data.outbox[tx.newEid := Fresh(ReservationFailed(id, OutOfStock))];
    }
  }

  lemma CancelledCommits(db: I.Db, tx: Tx)
    requires Cancelled(tx) && tx.pc == Ready && CancelledSoFar(db, tx)
    ensures I.Handle(db.data, tx.msg.event, tx.newEid) == Some(Overlay(db.data, tx.writes))
  {
    var t, r := Overlay(db.data, tx.writes), I.Release(db.data, tx.msg.event.orderId);
    assert t.outbox == db.data.outbox && t.products == r.products && t.reservations == r.reservations;
  }

  lemma HandlesAtCommit(db: I.Db, tx: Tx)
    requires tx.pc == Ready && SoFar(db, tx)
    ensures tx.msg.eid !in db.processed
    ensures I.Handle(db.data, tx.msg.event, tx.newEid) == Some(Overlay(db.data, tx.writes))
  {
    match tx.msg.event
    case OrderCreated(_, _, _, _, _, _) => CreatedCommits(db, tx);
    case OrderCancelled(_, _, _, _) => CancelledCommits(db, tx);
    case OtherOrderEvent => assert Overlay(db.data, NOTHING) == db.data;
  }

  lemma CommitIsAtomic(db: I.Db, tx: Tx)
    requires tx.pc == Ready && SoFar(db, tx)
    ensures tx.msg.eid !in db.processed
    ensures I.Process(db, tx.msg, tx.newEid)
         == Some(Dedup.Store(Overlay(db.data, tx.writes), db.processed[tx.msg.eid := |db.processed|]))
  {
    HandlesAtCommit(db, tx);
    ProcessOf(db, tx.msg, tx.newEid, Overlay(db.data, tx.writes));
  }

  lemma ProcessOf(db: I.Db, msg: Msg<OrderEvent>, newEid: EventId, t: I.Tables)
    requires msg.eid !in db.processed && I.Handle(db.data, msg.event, newEid) == Some(t)
    ensures I.Process(db, msg, newEid) == Some(Dedup.Store(t, db.processed[msg.eid := |db.processed|]))
  {
    I.ProcessIs(db, msg, newEid);
  }

  /** A commit changes no row it has not locked. */
  lemma CommitTouchesHeldRows(db: I.Db, tx: Tx, r: Resource)
    requires tx.pc == Ready && SoFar(db, tx) && r !in tx.held
    ensures SameRow(db, Dedup.Store(Overlay(db.data, tx.writes), db.processed[tx.msg.eid := |db.processed|]), r)
  {
  }

  ghost predicate AllSoFar(s: Sys) {
    forall t :: t in s.txs ==> SoFar(s.db, s.txs[t])
  }

  lemma OthersStable(db: I.Db, tx: Tx, other: Tx)
    requires tx.pc == Ready && SoFar(db, tx) && SoFar(db, other) && tx.held !! other.held
    ensures SoFar(Dedup.Store(Overlay(db.data, tx.writes), db.processed[tx.msg.eid := |db.processed|]), other)
  {
    var db' := Dedup.Store(Overlay(db.data, tx.writes), db.processed[tx.msg.eid := |db.processed|]);
    forall r | r in other.held ensures SameRow(db, db', r) {
      CommitTouchesHeldRows(db, tx, r);
    }
    StableUnderLocks(db, db', other);
  }

  lemma StepKeepsSoFar(s: Sys, step: Step)
    requires Exclusive(s.txs) && AllSoFar(s)
    ensures AllSoFar(Next(s, step))
  {
    match step
    case Begin(_, _, _, _) =>
    case Abort(_) =>
    case Statement(t) =>
      if t in s.txs && !Blocked(s, t) && Execute(s.db, s.txs[t]).Some? {
        if Created(s.txs[t]) {
          CreatedStatement(s.db, s.txs[t]);
        } else if Cancelled(s.txs[t]) {
          CancelledStatement(s.db, s.txs[t]);
        }
      }
    case Commit(t) =>
      if t in s.txs && s.txs[t].pc == Ready {
        var s' := Next(s, step);
        forall u | u in s'.txs ensures SoFar(s'.db, s'.txs[u]) {
          OthersStable(s.db, s.txs[t], s.txs[u]);
        }
      }
  }

  /** The reference: the atomic transactions one after the other; None if one would not commit. */
  function Serial(db: I.Db, log: seq<Tx>): Option<I.Db> {
    if log == [] then Some(db)
    else
      match Serial(db, log[..|log| - 1])
      case None => None
      case Some(d) =>
        var tx := log[|log| - 1];
        if tx.msg.eid in d.processed then None else I.Process(d, tx.msg, tx.newEid)
  }

  /** Serializability. Whatever transactions run at once, however their statements interleave
      and wherever they abort, in either lock order: the committed database is that of the
      committed transactions run atomically, one after the other, in commit order. */
  lemma {:induction false} Serializable(db: I.Db, steps: seq<Step>)
    ensures var s := Exec(Init(db), steps);
      Exclusive(s.txs) && AllSoFar(s) && Serial(db, s.log) == Some(s.db)
  {
    if steps != [] {
      var s, step := Exec(Init(db), steps[..|steps| - 1]), steps[|steps| - 1];
      Serializable(db, steps[..|steps| - 1]);
      StepExcludes(s, step);
      StepKeepsSoFar(s, step);
      StepIsSerial(db, s, step);
    }
  }

  lemma StepIsSerial(db: I.Db, s: Sys, step: Step)
    requires AllSoFar(s) && Serial(db, s.log) == Some(s.db)
    ensures Serial(db, Next(s, step).log) == Some(Next(s, step).db)
  {
    if step.Commit? && step.t in s.txs && s.txs[step.t].pc == Ready {
      var s' := Next(s, step);
      assert s'.log[..|s'.log| - 1] == s.log;
      CommitIsAtomic(s.db, s.txs[step.t]);
    }
  }

  // ---------------------------------------------------------------- alone, a transaction goes through

  /** How many statements a transaction has at most yet to execute. */
  function Remaining(pc: Pc): nat {
    match pc
    case LockSlot => 5
    case TouchProduct => 4
    case InsertReservation => 3
    case InsertEvent => 2
    case MarkProcessed => 1
    case Ready => 0
  }

  /** Unless the atomic transaction would fail, no statement does, and each comes closer to the end. */
  lemma StatementSucceeds(db: I.Db, tx: Tx)
    requires SoFar(db, tx) && tx.pc != Ready && tx.msg.eid !in db.processed
    requires I.Handle(db.data, tx.msg.event, tx.newEid).Some?
    ensures Execute(db, tx).Some?
    ensures var tx' := Execute(db, tx).value;
      && SoFar(db, tx') && Remaining(tx'.pc) < Remaining(tx.pc)
      && tx'.msg == tx.msg && tx'.newEid == tx.newEid
  {
    ExecuteHolds(db, tx);
    match tx.msg.event
    case OrderCreated(_, _, _, _, _, _) => CreatedStatement(db, tx);
    case OrderCancelled(_, _, _, _) => CancelledStatement(db, tx);
    case OtherOrderEvent =>
  }

  /** From any statement on, a transaction that meets no other reaches its commit. */
  lemma {:induction false} RunsToReady(s: Sys, t: TxId, tx: Tx) returns (tx': Tx, steps: seq<Step>)
    requires s.txs == map[t := tx] && SoFar(s.db, tx) && tx.msg.eid !in s.db.processed
    requires I.Handle(s.db.data, tx.msg.event, tx.newEid).Some?
    ensures Exec(s, steps) == s.(txs := map[t := tx'])
    ensures SoFar(s.db, tx') && tx'.pc == Ready && tx'.msg == tx.msg && tx'.newEid == tx.newEid
    decreases Remaining(tx.pc)
  {
    if tx.pc == Ready {
      return tx, [];
    }
    StatementSucceeds(s.db, tx);
    var next := Execute(s.db, tx).value;
    var s' := s.(txs := map[t := next]);
    assert Next(s, Statement(t)) == s' by {
      assert !Blocked(s, t);
      assert s.txs[t := next] == map[t := next];
    }
    var rest;
    tx', rest := RunsToReady(s', t, next);
    Prepend(s, Statement(t), rest);
    steps := [Statement(t)] + rest;
  }

  lemma {:induction false} Prepend(s: Sys, first: Step, rest: seq<Step>)
    ensures Exec(s, [first] + rest) == Exec(Next(s, first), rest)
  {
    if rest == [] {
      assert [first] + rest == [first] && [first][..0] == [];
    } else {
      Prepend(s, first, rest[..|rest| - 1]);
      assert ([first] + rest)[..|rest|] == [first] + rest[..|rest| - 1];
    }
  }

  /** In either lock order: whatever the atomic transaction can do to a database, a transaction of
      locked statements that meets no other does, by some run. */
  lemma AloneCommits(db: I.Db, msg: Msg<OrderEvent>, newEid: EventId, reversed: bool) returns (steps: seq<Step>)
    requires msg.eid !in db.processed && I.Process(db, msg, newEid).Some?
    ensures Exec(Init(db), steps).db == I.Process(db, msg, newEid).value && Exec(Init(db), steps).txs == map[]
  {
    I.ProcessIs(db, msg, newEid);
    var s1 := Next(Init(db), Begin(0, msg, newEid, reversed));
    var tx, works := RunsToReady(s1, 0, s1.txs[0]);
    CommitIsAtomic(db, tx);
    steps := [Begin(0, msg, newEid, reversed)] + works;
    Prepend(Init(db), Begin(0, msg, newEid, reversed), works);
    assert (steps + [Commit(0)])[..|steps|] == steps;
    steps := steps + [Commit(0)];
    assert map[0 := tx] - {0} == map[];
  }
}
