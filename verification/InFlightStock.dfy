/** Stock under interleaved, row-locked statements: conserved with what is in flight counted,
    and within its bounds in every version of every row. */
module InFlightStock {
  import opened Events
  import opened Sums
  import Dedup
  import I = Inventory
  import opened RowLocks

  // ---------------------------------------------------------------- rows as they are in place

  /** The rows with every open transaction's changes in place, committed or not. The locks keep
      the transactions on different rows, so their order does not matter. */
  ghost function InPlace(t: I.Tables, txs: map<TxId, Tx>): I.Tables {
    if txs == map[] then t
    else
      var k :| k in txs;
      Overlay(InPlace(t, txs - {k}), txs[k].writes)
  }

  ghost function InPlaceDb(db: I.Db, txs: map<TxId, Tx>): I.Db {
    Dedup.Store(InPlace(db.data, txs), db.processed)
  }

  ghost predicate Consistent(db: I.Db, txs: map<TxId, Tx>) {
    Exclusive(txs) && forall t :: t in txs ==> SoFar(db, txs[t])
  }

  /** A transaction has locked every row it has written. */
  lemma WritesAreLocked(db: I.Db, tx: Tx)
    requires SoFar(db, tx)
    ensures forall sku :: sku in tx.writes.products ==> ProductRow(sku) in tx.held && sku in db.data.products
    ensures forall id :: id in tx.writes.reservations ==> Slot(id) in tx.held
    ensures forall e :: e in tx.writes.outbox ==> EventKey(e) in tx.held
  {
  }

  lemma OverlayElsewhere(db: I.Db, a: I.Db, tx: Tx, r: Resource)
    requires SoFar(db, tx) && r !in tx.held
    ensures SameRow(a, Dedup.Store(Overlay(a.data, tx.writes), a.processed), r)
  {
    WritesAreLocked(db, tx);
  }

  /** A row nobody has locked is in place as it was committed. */
  lemma {:induction false} UnlockedInPlace(db: I.Db, txs: map<TxId, Tx>, r: Resource)
    requires Consistent(db, txs) && forall t :: t in txs ==> r !in txs[t].held
    ensures SameRow(db, InPlaceDb(db, txs), r)
    decreases |txs|
  {
    if txs != map[] {
      var k :| k in txs && InPlace(db.data, txs) == Overlay(InPlace(db.data, txs - {k}), txs[k].writes);
      UnlockedInPlace(db, txs - {k}, r);
      OverlayElsewhere(db, InPlaceDb(db, txs - {k}), txs[k], r);
    }
  }

  ghost predicate Shows(t: I.Tables, w: Writes) {
    && (forall sku :: sku in w.products ==> sku in t.products && t.products[sku] == w.products[sku])
    && (forall id :: id in w.reservations ==> id in t.reservations && t.reservations[id] == w.reservations[id])
  }

  lemma OwnOverlay(t: I.Tables, w: Writes)
    ensures Shows(Overlay(t, w), w)
  {
  }

  lemma OtherOverlay(db: I.Db, t: I.Tables, a: Tx, b: Tx)
    requires SoFar(db, a) && SoFar(db, b) && a.held !! b.held && Shows(t, a.writes)
    ensures Shows(Overlay(t, b.writes), a.writes)
  {
    WritesAreLocked(db, a);
    WritesAreLocked(db, b);
  }

  /** A row a transaction has written is in place as that transaction wrote it. */
  lemma {:induction false} WrittenInPlace(db: I.Db, txs: map<TxId, Tx>, u: TxId)
    requires Consistent(db, txs) && u in txs
    ensures Shows(InPlace(db.data, txs), txs[u].writes)
    decreases |txs|
  {
    var k :| k in txs && InPlace(db.data, txs) == Overlay(InPlace(db.data, txs - {k}), txs[k].writes);
    if u != k {
      assert (txs - {k})[u] == txs[u];
      WrittenInPlace(db, txs - {k}, u);
      OtherOverlay(db, InPlace(db.data, txs - {k}), txs[u], txs[k]);
    } else {
      OwnOverlay(InPlace(db.data, txs - {k}), txs[k].writes);
    }
  }

  /** What a transaction has found holds of the rows in place, too. */
  lemma FoundInPlace(db: I.Db, txs: map<TxId, Tx>, k: TxId)
    requires Consistent(db, txs) && k in txs
    ensures Consistent(db, txs - {k}) && SoFar(InPlaceDb(db, txs - {k}), txs[k])
  {
    forall r | r in txs[k].held ensures SameRow(db, InPlaceDb(db, txs - {k}), r) {
      UnlockedInPlace(db, txs - {k}, r);
    }
    StableUnderLocks(db, InPlaceDb(db, txs - {k}), txs[k]);
  }

  // ---------------------------------------------------------------- conservation, in flight included

  /** Stock that a transaction has on the way: taken from `available` but not yet reserved, or no
      longer reserved but not yet given back. */
  function Carried(tx: Tx, sku: Sku): int {
    if Created(tx) && tx.pc == InsertReservation && tx.msg.event.sku == sku then tx.msg.event.quantity
    else if Cancelled(tx) && tx.pc == TouchProduct && tx.msg.event.orderId in tx.writes.reservations
      && tx.writes.reservations[tx.msg.event.orderId].sku == sku
    then tx.writes.reservations[tx.msg.event.orderId].quantity
    else 0
  }

  function InFlight(txs: map<TxId, Tx>, sku: Sku): map<TxId, int> {
    map t | t in txs :: Carried(txs[t], sku)
  }

  /** The stock of a product, on the shelf and reserved. */
  ghost function Accounted(t: I.Tables, sku: Sku): int
    requires sku in t.products
  {
    t.products[sku].available + Total(I.Held(t.reservations, sku))
  }

  lemma CreatedCarries(db: I.Db, tx: Tx, sku: Sku)
    requires Created(tx) && CreatedSoFar(db, tx) && sku in db.data.products
    ensures var t := Overlay(db.data, tx.writes);
      && sku in t.products && t.products[sku].total == db.data.products[sku].total
      && Accounted(t, sku) + Carried(tx, sku) == Accounted(db.data, sku)
  {
    var id, rs, t := tx.msg.event.orderId, db.data.reservations, Overlay(db.data, tx.writes);
    if id in tx.writes.reservations {
      assert t.reservations == rs[id := tx.writes.reservations[id]];
      I.HeldAfterInsert(rs, id, tx.writes.reservations[id], sku);
    } else {
      assert t.reservations == rs;
    }
  }

  lemma CancelledCarries(db: I.Db, tx: Tx, sku: Sku)
    requires Cancelled(tx) && CancelledSoFar(db, tx) && sku in db.data.products
    ensures var t := Overlay(db.data, tx.writes);
      && sku in t.products && t.products[sku].total == db.data.products[sku].total
      && Accounted(t, sku) + Carried(tx, sku) == Accounted(db.data, sku)
  {
    var id, rs, t := tx.msg.event.orderId, db.data.reservations, Overlay(db.data, tx.writes);
    if id in tx.writes.reservations {
      assert t.reservations == rs[id := rs[id].(status := I.Released)];
      I.HeldAfterRelease(rs, id, sku);
    } else {
      assert t.reservations == rs;
    }
  }

  /** At every statement, what a transaction has changed and what it carries cancel out. */
  lemma Carries(db: I.Db, tx: Tx, sku: Sku)
    requires SoFar(db, tx) && sku in db.data.products
    ensures var t := Overlay(db.data, tx.writes);
      && sku in t.products && t.products[sku].total == db.data.products[sku].total
      && Accounted(t, sku) + Carried(tx, sku) == Accounted(db.data, sku)
  {
    match tx.msg.event
    case OrderCreated(_, _, _, _, _, _) => CreatedCarries(db, tx, sku);
    case OrderCancelled(_, _, _, _) => CancelledCarries(db, tx, sku);
    case OtherOrderEvent => assert Overlay(db.data, NOTHING) == db.data;
  }

  lemma {:induction false} AllCarry(db: I.Db, txs: map<TxId, Tx>, sku: Sku)
    requires Consistent(db, txs) && sku in db.data.products
    ensures var t := InPlace(db.data, txs);
      && sku in t.products && t.products[sku].total == db.data.products[sku].total
      && Accounted(t, sku) + Total(InFlight(txs, sku)) == Accounted(db.data, sku)
    decreases |txs|
  {
    if txs == map[] {
      assert InFlight(txs, sku) == map[];
    } else {
      var k :| k in txs && InPlace(db.data, txs) == Overlay(InPlace(db.data, txs - {k}), txs[k].writes);
      FoundInPlace(db, txs, k);
      AllCarry(db, txs - {k}, sku);
      Carries(InPlaceDb(db, txs - {k}), txs[k], sku);
      OneCarriesMore(txs, k, sku);
    }
  }

  lemma OneCarriesMore(txs: map<TxId, Tx>, k: TxId, sku: Sku)
    requires k in txs
    ensures Total(InFlight(txs, sku)) == Total(InFlight(txs - {k}, sku)) + Carried(txs[k], sku)
  {
    TotalRemove(InFlight(txs, sku), k);
    assert InFlight(txs, sku) - {k} == InFlight(txs - {k}, sku);
  }

  lemma {:induction false} SerialConserves(db: I.Db, log: seq<Tx>)
    requires I.Conserved(db.data)
    ensures Serial(db, log).Some? ==> I.Conserved(Serial(db, log).value.data)
  {
    if log != [] && Serial(db, log).Some? {
      SerialConserves(db, log[..|log| - 1]);
      I.CommitConserves(Serial(db, log[..|log| - 1]).value, log[|log| - 1].msg, log[|log| - 1].newEid);
    }
  }

  /** Conservation between any two statements, in either lock order and wherever transactions
      abort: the committed stock is conserved; and so is the stock in place, where all open
      transactions' changes show at once, when the stock they carry is counted. */
  lemma ConservedUnderInterleaving(db: I.Db, steps: seq<Step>, sku: Sku)
    requires I.Conserved(db.data)
    ensures var s := Exec(Init(db), steps);
      var t := InPlace(s.db.data, s.txs);
      && I.Conserved(s.db.data)
      && (sku in s.db.data.products ==>
            && sku in t.products
            && t.products[sku].available + Total(I.Held(t.reservations, sku)) + Total(InFlight(s.txs, sku))
               == s.db.data.products[sku].total)
  {
    var s := Exec(Init(db), steps);
    Serializable(db, steps);
    SerialConserves(db, s.log);
    if sku in s.db.data.products {
      AllCarry(s.db, s.txs, sku);
    }
  }

  // ---------------------------------------------------------------- bounds

  /** No order for less than 1 reaches the inventory. */
  ghost predicate PositiveBegins(steps: seq<Step>) {
    forall i :: 0 <= i < |steps| ==> steps[i].Begin? ==> Positive(steps[i].msg)
  }

  ghost predicate Positive(msg: Msg<OrderEvent>) {
    msg.event.OrderCreated? ==> msg.event.quantity >= 1
  }

  /** Each product row a transaction has written is a product's, with its total and within it. */
  ghost predicate WritesInBounds(t: I.Tables, tx: Tx) {
    I.InBounds(tx.writes.products)
    && forall sku :: sku in tx.writes.products ==>
      sku in t.products && tx.writes.products[sku].total == t.products[sku].total
  }

  ghost predicate SoundSys(db: I.Db, s: Sys) {
    && I.Sound(s.db.data) && I.SameTotals(db.data.products, s.db.data.products)
    && forall t :: t in s.txs ==> Positive(s.txs[t].msg)
  }

  lemma StepKeepsSound(db: I.Db, s: Sys, step: Step)
    requires SoundSys(db, s) && AllSoFar(s) && (step.Begin? ==> Positive(step.msg))
    ensures SoundSys(db, Next(s, step))
  {
    if step.Commit? && step.t in s.txs && s.txs[step.t].pc == Ready {
      HandlesAtCommit(s.db, s.txs[step.t]);
      I.HandleKeepsSound(s.db.data, s.txs[step.t].msg.event, s.txs[step.t].newEid);
    } else if step.Statement? && step.t in s.txs && Execute(s.db, s.txs[step.t]).Some? {
      ExecuteHolds(s.db, s.txs[step.t]);
    }
  }

  lemma {:induction false} RunKeepsSound(db: I.Db, steps: seq<Step>)
    requires I.Sound(db.data) && PositiveBegins(steps)
    ensures SoundSys(db, Exec(Init(db), steps))
  {
    if steps != [] {
      var before := steps[..|steps| - 1];
      RunKeepsSound(db, before);
      Serializable(db, before);
      StepKeepsSound(db, Exec(Init(db), before), steps[|steps| - 1]);
    }
  }

  lemma PrivateInBounds(db: I.Db, tx: Tx)
    requires I.Sound(db.data) && SoFar(db, tx) && Positive(tx.msg)
    ensures WritesInBounds(db.data, tx)
  {
    I.SoundIsInBounds(db.data);
    if Created(tx) {
      CreatedInBounds(db, tx);
    } else if Cancelled(tx) {
      I.ReleaseKeepsSound(db.data, tx.msg.event.orderId);
      I.SoundIsInBounds(I.Release(db.data, tx.msg.event.orderId));
      ReleasedAsSpecified(db, tx);
    }
  }

  lemma CreatedInBounds(db: I.Db, tx: Tx)
    requires I.InBounds(db.data.products) && Created(tx) && CreatedSoFar(db, tx) && Positive(tx.msg)
    ensures WritesInBounds(db.data, tx)
  {
  }

  lemma ReleasedAsSpecified(db: I.Db, tx: Tx)
    requires Cancelled(tx) && CancelledSoFar(db, tx)
    ensures var t := I.Release(db.data, tx.msg.event.orderId);
      forall sku :: sku in tx.writes.products ==>
        sku in db.data.products && sku in t.products && tx.writes.products[sku] == t.products[sku]
  {
  }

  lemma {:induction false} InPlaceInBounds(t: I.Tables, txs: map<TxId, Tx>)
    requires I.InBounds(t.products) && forall u :: u in txs ==> WritesInBounds(t, txs[u])
    ensures I.InBounds(InPlace(t, txs).products) && I.SameTotals(t.products, InPlace(t, txs).products)
    decreases |txs|
  {
    if txs != map[] {
      var k :| k in txs && InPlace(t, txs) == Overlay(InPlace(t, txs - {k}), txs[k].writes);
      InPlaceInBounds(t, txs - {k});
      OverlayInBounds(t, InPlace(t, txs - {k}), txs[k]);
    }
  }

  lemma OverlayInBounds(t: I.Tables, a: I.Tables, tx: Tx)
    requires I.InBounds(a.products) && I.SameTotals(t.products, a.products) && WritesInBounds(t, tx)
    ensures I.InBounds(Overlay(a, tx.writes).products) && I.SameTotals(t.products, Overlay(a, tx.writes).products)
  {
    var after := Overlay(a, tx.writes).products;
    assert after.Keys == a.products.Keys;
    forall sku | sku in after
      ensures after[sku].total == t.products[sku].total && 0 <= after[sku].available <= after[sku].total
    {
      assert sku in t.products;
      if sku in tx.writes.products {
        assert after[sku] == tx.writes.products[sku];
      } else {
        assert after[sku] == a.products[sku];
      }
    }
  }

  /** From sound tables, and with no order for less than 1: between any two statements the
      committed tables are sound again, with the same products and totals, and available is
      within 0..total in the committed row, in every private version, and in the row in place. */
  lemma StockUnderInterleaving(db: I.Db, steps: seq<Step>)
    requires I.Sound(db.data) && PositiveBegins(steps)
    ensures var s := Exec(Init(db), steps);
      && I.Sound(s.db.data) && I.InBounds(s.db.data.products)
      && I.SameTotals(db.data.products, s.db.data.products)
      && (forall t :: t in s.txs ==> WritesInBounds(s.db.data, s.txs[t]))
      && I.InBounds(InPlace(s.db.data, s.txs).products)
  {
    var s := Exec(Init(db), steps);
    Serializable(db, steps);
    RunKeepsSound(db, steps);
    I.SoundIsInBounds(s.db.data);
    forall t | t in s.txs ensures WritesInBounds(s.db.data, s.txs[t]) {
      PrivateInBounds(s.db, s.txs[t]);
    }
    InPlaceInBounds(s.db.data, s.txs);
  }
}
