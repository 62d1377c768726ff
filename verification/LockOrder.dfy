/** Deadlock freedom of the ordered locking program, and a deadlock of the reversed one. */
module LockOrder {
  import opened Events
  import opened Outbox
  import Dedup
  import I = Inventory
  import opened RowLocks

  /** No transaction of the run uses the reversed program. */
  ghost predicate Ordered(steps: seq<Step>) {
    forall i :: 0 <= i < |steps| ==> steps[i].Begin? ==> !steps[i].reversed
  }

  /** Every lock held at this point of the program ranks below this. */
  function Level(pc: Pc): nat {
    match pc
    case LockSlot => 0
    case TouchProduct => 1
    case InsertReservation => 2
    case InsertEvent => 2
    case MarkProcessed => 3
    case Ready => 4
  }

  ghost predicate Climbing(tx: Tx) {
    && (forall r :: r in tx.held ==> Rank(r) < Level(tx.pc))
    && (Created(tx) && tx.pc == InsertReservation ==> Slot(tx.msg.event.orderId) in tx.held)
    && (Created(tx) && tx.pc == TouchProduct ==> Slot(tx.msg.event.orderId) in tx.held)
  }

  lemma {:induction false} AllClimb(db: I.Db, steps: seq<Step>)
    requires Ordered(steps)
    ensures forall t :: t in Exec(Init(db), steps).txs ==> Climbing(Exec(Init(db), steps).txs[t])
  {
    if steps != [] {
      var s, step := Exec(Init(db), steps[..|steps| - 1]), steps[|steps| - 1];
      AllClimb(db, steps[..|steps| - 1]);
      if step.Statement? && step.t in s.txs && !Blocked(s, step.t) && Execute(s.db, s.txs[step.t]).Some? {
        StatementClimbs(s.db, s.txs[step.t]);
      }
    }
  }

  lemma StatementClimbs(db: I.Db, tx: Tx)
    requires Climbing(tx) && Execute(db, tx).Some?
    ensures Climbing(Execute(db, tx).value)
  {
    ExecuteHolds(db, tx);
  }

  /** What a climbing transaction waits for ranks above everything it holds. */
  lemma NeedsMore(tx: Tx, r: Resource)
    requires Climbing(tx) && Needs(tx).Some? && r in tx.held
    ensures Rank(r) < Rank(Needs(tx).value)
  {
  }

  /** Transactions waiting for each other in a ring. */
  ghost predicate Deadlock(s: Sys, ring: seq<TxId>) {
    && |ring| > 0
    && forall i :: 0 <= i < |ring| ==> WaitsFor(s, ring[i], ring[if i + 1 < |ring| then i + 1 else 0])
  }

  /** The rank a transaction waits for. */
  ghost function Rung(s: Sys, t: TxId): nat {
    if t in s.txs && Needs(s.txs[t]).Some? then Rank(Needs(s.txs[t]).value) else 0
  }

  /** Along a chain of waits the rank waited for rises at every link. */
  lemma {:induction false} RanksRise(s: Sys, ring: seq<TxId>, n: nat)
    requires forall t :: t in s.txs ==> Climbing(s.txs[t])
    requires Deadlock(s, ring) && n < |ring|
    ensures Rung(s, ring[n]) >= Rung(s, ring[0]) + n
  {
    assert WaitsFor(s, ring[n], ring[if n + 1 < |ring| then n + 1 else 0]);
    if n > 0 {
      RanksRise(s, ring, n - 1);
      assert WaitsFor(s, ring[n - 1], ring[n]);
      NeedsMore(s.txs[ring[n]], Needs(s.txs[ring[n - 1]]).value);
    }
  }

  /** Deadlock freedom: with any number of concurrent Reserve and Release transactions in the
      default lock order, no reachable state has a ring of waits of any length. */
  lemma NoDeadlock(db: I.Db, steps: seq<Step>, ring: seq<TxId>)
    requires Ordered(steps)
    ensures !Deadlock(Exec(Init(db), steps), ring)
  {
    var s := Exec(Init(db), steps);
    AllClimb(db, steps);
    if Deadlock(s, ring) {
      var last := |ring| - 1;
      RanksRise(s, ring, last);
      assert WaitsFor(s, ring[last], ring[0]);
      assert WaitsFor(s, ring[0], ring[if 1 < |ring| then 1 else 0]);
      NeedsMore(s.txs[ring[0]], Needs(s.txs[ring[last]]).value);
    }
  }

  /** Following waits from any transaction reaches one that can move: someone always can. */
  lemma SomeoneCanMove(db: I.Db, steps: seq<Step>, t: TxId) returns (u: TxId)
    requires Ordered(steps) && t in Exec(Init(db), steps).txs
    ensures u in Exec(Init(db), steps).txs && !Blocked(Exec(Init(db), steps), u)
  {
    AllClimb(db, steps);
    u := FollowWaits(Exec(Init(db), steps), t);
  }

  lemma {:induction false} FollowWaits(s: Sys, t: TxId) returns (u: TxId)
    requires forall v :: v in s.txs ==> Climbing(s.txs[v])
    requires t in s.txs
    ensures u in s.txs && !Blocked(s, u)
    decreases 4 - (if Needs(s.txs[t]).Some? then Rank(Needs(s.txs[t]).value) else 4)
  {
    if !Blocked(s, t) {
      return t;
    }
    var r := Needs(s.txs[t]).value;
    var v :| v in s.txs && v != t && r in s.txs[v].held;
    if Needs(s.txs[v]).Some? {
      NeedsMore(s.txs[v], r);
    }
    u := FollowWaits(s, v);
  }

  // ---------------------------------------------------------------- the reversed order

  const SKU: Sku := "SKU-001"

  const PLENTY: I.Db := Dedup.Store(I.Tables(map[SKU := I.Product(100, 100)], map[], map[]), map[])

  const RESERVE := Msg(10, OrderCreated(1, 7, SKU, 2, "p", 100))
  const RELEASE := Msg(11, OrderCancelled(1, SKU, 2, UserCancelled))

  /** One order reserved, by the handling of its one OrderCreated. */
  const STOCKED: I.Db := Dedup.Store(
    I.Tables(map[SKU := I.Product(100, 98)], map[1 := I.Reservation(SKU, 2, I.Reserved)],
             map[52 := Fresh(InventoryReserved(1))]),
    map[10 := 0])

  /** The same message being handled by two workers. */
  const SLOW := Tx(RESERVE, 50, true, TouchProduct, {}, NOTHING)
  const FAST := Tx(RESERVE, 52, true, TouchProduct, {}, NOTHING)

  /** The faster one at its last statement. */
  const TAKEN := Writes(map[SKU := I.Product(100, 98)], map[1 := I.Reservation(SKU, 2, I.Reserved)], map[])
  const WRITTEN := TAKEN.(outbox := map[52 := Fresh(InventoryReserved(1))])
  const HELD: set<Resource> := {ProductRow(SKU), Slot(1), EventKey(52)}
  const INSERTING := FAST.(pc := InsertReservation, held := {ProductRow(SKU)}, writes := TAKEN.(reservations := map[]))
  const ANSWERING := FAST.(pc := InsertEvent, held := {ProductRow(SKU), Slot(1)}, writes := TAKEN)
  const MARKING := FAST.(pc := MarkProcessed, held := HELD, writes := WRITTEN)
  const DONE := MARKING.(pc := Ready, held := HELD + {ProcessedKey(10)})

  lemma Extend(db: I.Db, steps: seq<Step>, step: Step)
    ensures Exec(Init(db), steps + [step]) == Next(Exec(Init(db), steps), step)
  {
    assert (steps + [step])[..|steps|] == steps;
  }

  lemma DeliveredTwice() returns (steps: seq<Step>)
    ensures Exec(Init(PLENTY), steps) == Sys(PLENTY, map[1 := SLOW, 3 := FAST], [])
  {
    Extend(PLENTY, [], Begin(1, RESERVE, 50, true));
    steps := [Begin(1, RESERVE, 50, true)];
    assert [] + steps == steps;
    assert Exec(Init(PLENTY), steps) == Sys(PLENTY, map[1 := SLOW], []);
    Extend(PLENTY, steps, Begin(3, RESERVE, 52, true));
    steps := steps + [Begin(3, RESERVE, 52, true)];
    assert map[1 := SLOW][3 := FAST] == map[1 := SLOW, 3 := FAST];
  }

  /** A statement that is not blocked, and what it makes of its transaction. */
  lemma Runs(steps: seq<Step>, s: Sys, t: TxId, tx: Tx)
    requires Exec(Init(PLENTY), steps) == s && t in s.txs && !Blocked(s, t) && Execute(s.db, s.txs[t]) == Some(tx)
    ensures Exec(Init(PLENTY), steps + [Statement(t)]) == s.(txs := s.txs[t := tx])
  {
    Extend(PLENTY, steps, Statement(t));
  }

  lemma FastStatements()
    ensures Execute(PLENTY, FAST) == Some(INSERTING)
    ensures Execute(PLENTY, INSERTING) == Some(ANSWERING)
    ensures Execute(PLENTY, ANSWERING) == Some(MARKING)
    ensures Execute(PLENTY, MARKING) == Some(DONE)
  {
    assert Acquire(FAST).held == INSERTING.held;
    assert I.Adjust(PLENTY.data.products, SKU, -2)[SKU] == I.Product(100, 98);
    assert Acquire(INSERTING).held == ANSWERING.held;
    assert Acquire(ANSWERING).held == HELD;
  }

  lemma FastStarts() returns (steps: seq<Step>)
    ensures Exec(Init(PLENTY), steps) == Sys(PLENTY, map[1 := SLOW, 3 := ANSWERING], [])
  {
    FastStatements();
    var before := DeliveredTwice();
    var s0, s1 := Sys(PLENTY, map[1 := SLOW, 3 := FAST], []), Sys(PLENTY, map[1 := SLOW, 3 := INSERTING], []);
    Runs(before, s0, 3, INSERTING);
    assert s0.txs[3 := INSERTING] == s1.txs;
    Runs(before + [Statement(3)], s1, 3, ANSWERING);
    assert s1.txs[3 := ANSWERING] == map[1 := SLOW, 3 := ANSWERING];
    steps := before + [Statement(3)] + [Statement(3)];
  }

  lemma FastFinishes() returns (steps: seq<Step>)
    ensures Exec(Init(PLENTY), steps) == Sys(PLENTY, map[1 := SLOW, 3 := DONE], [])
  {
    FastStatements();
    var before := FastStarts();
    var s0, s1 := Sys(PLENTY, map[1 := SLOW, 3 := ANSWERING], []), Sys(PLENTY, map[1 := SLOW, 3 := MARKING], []);
    Runs(before, s0, 3, MARKING);
    assert s0.txs[3 := MARKING] == s1.txs;
    Runs(before + [Statement(3)], s1, 3, DONE);
    assert s1.txs[3 := DONE] == map[1 := SLOW, 3 := DONE];
    steps := before + [Statement(3)] + [Statement(3)];
  }

  lemma FastCommits() returns (steps: seq<Step>)
    ensures Exec(Init(PLENTY), steps) == Sys(STOCKED, map[1 := SLOW], [DONE])
  {
    var before := FastFinishes();
    Extend(PLENTY, before, Commit(3));
    steps := before + [Commit(3)];
    CommitOfFast(Sys(PLENTY, map[1 := SLOW, 3 := DONE], []));
  }

  lemma FastWrites()
    ensures Overlay(PLENTY.data, WRITTEN) == STOCKED.data
  {
    var t := Overlay(PLENTY.data, WRITTEN);
    assert t.products == STOCKED.data.products && t.reservations == STOCKED.data.reservations;
    assert t.outbox == STOCKED.data.outbox;
  }

  lemma CommitOfFast(s: Sys)
    requires s == Sys(PLENTY, map[1 := SLOW, 3 := DONE], [])
    ensures Next(s, Commit(3)) == Sys(STOCKED, map[1 := SLOW], [DONE])
  {
    FastWrites();
    CommitIs(s, 3);
    assert PLENTY.processed[10 := |PLENTY.processed|] == STOCKED.processed;
    assert s.txs - {3} == map[1 := SLOW];
  }

  lemma CommitIs(s: Sys, t: TxId)
    requires t in s.txs && s.txs[t].pc == Ready
    ensures var tx := s.txs[t];
      Next(s, Commit(t)) == Sys(
        Dedup.Store(Overlay(s.db.data, tx.writes), s.db.processed[tx.msg.eid := |s.db.processed|]),
        s.txs - {t}, s.log + [tx])
  {
  }

  const RELEASING := Tx(RELEASE, 51, false, LockSlot, {}, NOTHING)

  /** The slower one has the product and wants the slot; the release has it the other way round. */
  const HAS_PRODUCT := SLOW.(pc := InsertReservation, held := {ProductRow(SKU)},
                             writes := NOTHING.(products := map[SKU := I.Product(100, 96)]))
  const HAS_SLOT := RELEASING.(pc := TouchProduct, held := {Slot(1)},
                               writes := NOTHING.(reservations := map[1 := I.Reservation(SKU, 2, I.Released)]))

  lemma CancelArrives() returns (steps: seq<Step>)
    ensures Exec(Init(PLENTY), steps) == Sys(STOCKED, map[1 := SLOW, 2 := RELEASING], [DONE])
  {
    var before := FastCommits();
    Extend(PLENTY, before, Begin(2, RELEASE, 51, false));
    steps := before + [Begin(2, RELEASE, 51, false)];
    assert map[1 := SLOW][2 := RELEASING] == map[1 := SLOW, 2 := RELEASING];
  }

  lemma LastStatements()
    ensures Execute(STOCKED, SLOW) == Some(HAS_PRODUCT)
    ensures Execute(STOCKED, RELEASING) == Some(HAS_SLOT)
  {
    assert Acquire(SLOW).held == HAS_PRODUCT.held && Acquire(RELEASING).held == HAS_SLOT.held;
    assert I.Adjust(STOCKED.data.products, SKU, -2)[SKU] == I.Product(100, 96);
  }

  lemma Stuck(s: Sys)
    requires s.txs == map[1 := HAS_PRODUCT, 2 := HAS_SLOT]
    ensures Deadlock(s, [1, 2])
  {
    assert WaitsFor(s, 1, 2) && WaitsFor(s, 2, 1);
  }

  /** With the reversed order a reserve and a release of one order can wait for each other. The
      order has a single OrderCreated event; it is delivered to two workers at once. The faster
      one reserves and commits; then the slower one has taken the product and wants the slot,
      while the release has the slot and wants the product. */
  lemma ReversedOrderDeadlocks() returns (steps: seq<Step>)
    ensures Deadlock(Exec(Init(PLENTY), steps), [1, 2])
  {
    LastStatements();
    var before := CancelArrives();
    var s0 := Sys(STOCKED, map[1 := SLOW, 2 := RELEASING], [DONE]);
    var s1 := Sys(STOCKED, map[1 := HAS_PRODUCT, 2 := RELEASING], [DONE]);
    Runs(before, s0, 1, HAS_PRODUCT);
    assert s0.txs[1 := HAS_PRODUCT] == s1.txs;
    Runs(before + [Statement(1)], s1, 2, HAS_SLOT);
    steps := before + [Statement(1)] + [Statement(2)];
    assert s1.txs[2 := HAS_SLOT] == map[1 := HAS_PRODUCT, 2 := HAS_SLOT];
    Stuck(Exec(Init(PLENTY), steps));
  }
}
