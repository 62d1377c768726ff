/** One poller tick: select a batch of outbox rows, publish each, record the outcome per row,
    all in one transaction. The loop is proved against a function, and the function against
    what a tick is for: every row ends up sent or given up on, in a bounded number of ticks. */
module Poller {
  import opened Events
  import opened Outbox

  /** An outbox row with its event id; the table is in `created_at` order, ids are positions. */
  datatype Entry<+E> = Entry(eid: EventId, row: Row<E>)

  /** What one publish call answers. The writer retries inside the call, so an acknowledged message
      may have been appended more than once, and a refused one any number of times. */
  datatype Published = Acked(extra: nat) | Refused(copies: nat)

  function Appended(p: Published): nat {
    match p
    case Acked(extra) => 1 + extra
    case Refused(copies) => copies
  }

  function Copies<T>(x: T, n: nat): seq<T> {
    seq(n, _ => x)
  }

  /** What happens to one row of the batch. */
  datatype RowEnv = RowEnv(publish: Published, markFails: bool, incrementFails: bool)

  /** What happens to one tick. `locked` rows belong to other pollers and are skipped. */
  datatype TickEnv = TickEnv(limit: nat, locked: set<nat>, selectFails: bool, commitFails: bool, row: nat -> RowEnv)

  /** `WHERE pending AND retry_count < 5 ORDER BY created_at LIMIT limit FOR UPDATE SKIP LOCKED`,
      from position `i` on. */
  function Select<E>(rows: seq<Entry<E>>, locked: set<nat>, limit: nat, i: nat): seq<nat>
    decreases |rows| - i
  {
    if i >= |rows| || limit == 0 then []
    else if Eligible(rows[i].row) && i !in locked then [i] + Select(rows, locked, limit - 1, i + 1)
    else Select(rows, locked, limit, i + 1)
  }

  ghost predicate Within(batch: seq<nat>, bound: nat) {
    forall k :: 0 <= k < |batch| ==> batch[k] < bound
  }

  ghost predicate Rising(batch: seq<nat>, bound: nat) {
    && Within(batch, bound)
    && (forall k, l :: 0 <= k < l < |batch| ==> batch[k] < batch[l])
  }

  /** What the poller is to send: what is pending and has not been refused 5 times. */
  ghost predicate Due<E>(row: Row<E>) {
    row.status == RowPending && row.retries < 5
  }

  lemma {:induction false} SelectMember<E>(rows: seq<Entry<E>>, locked: set<nat>, limit: nat, i: nat, j: nat)
    ensures var batch := Select(rows, locked, limit, i);
      && (j in batch ==> i <= j < |rows| && Due(rows[j].row) && j !in locked)
      && (|batch| < limit && i <= j < |rows| && Due(rows[j].row) && j !in locked ==> j in batch)
    decreases |rows| - i
  {
    if i < |rows| && limit > 0 {
      if Eligible(rows[i].row) && i !in locked {
        SelectMember(rows, locked, limit - 1, i + 1, j);
        assert j in Select(rows, locked, limit, i) <==> j == i || j in Select(rows, locked, limit - 1, i + 1);
      } else {
        SelectMember(rows, locked, limit, i + 1, j);
      }
    }
  }

  lemma {:induction false} SelectRises<E>(rows: seq<Entry<E>>, locked: set<nat>, limit: nat, i: nat)
    ensures var batch := Select(rows, locked, limit, i);
      Rising(batch, |rows|) && |batch| <= limit && forall k :: 0 <= k < |batch| ==> i <= batch[k]
    decreases |rows| - i
  {
    if i < |rows| && limit > 0 {
      if Eligible(rows[i].row) && i !in locked {
        SelectRises(rows, locked, limit - 1, i + 1);
      } else {
        SelectRises(rows, locked, limit, i + 1);
      }
    }
  }

  /** The batch: distinct rows in order, all due and unlocked, and no fewer than there are. */
  lemma SelectSound<E>(rows: seq<Entry<E>>, locked: set<nat>, limit: nat, i: nat)
    ensures var batch := Select(rows, locked, limit, i);
      && Rising(batch, |rows|) && |batch| <= limit
      && (forall j :: j in batch ==> i <= j < |rows| && Due(rows[j].row) && j !in locked)
      && (|batch| < limit ==> forall j :: i <= j < |rows| && Due(rows[j].row) && j !in locked ==> j in batch)
  {
    SelectRises(rows, locked, limit, i);
    forall j: nat {
      SelectMember(rows, locked, limit, i, j);
    }
  }

  /** Rows are taken by age: one that is due and unlocked is not passed over for a later one. */
  lemma {:induction false} SelectEarliest<E>(rows: seq<Entry<E>>, locked: set<nat>, limit: nat, i: nat, j: nat, k: nat)
    requires i <= j < k && k in Select(rows, locked, limit, i)
    requires j < |rows| && Due(rows[j].row) && j !in locked
    ensures j in Select(rows, locked, limit, i)
    decreases |rows| - i
  {
    if Eligible(rows[i].row) && i !in locked {
      if i < j {
        SelectEarliest(rows, locked, limit - 1, i + 1, j, k);
      }
    } else {
      SelectEarliest(rows, locked, limit, i + 1, j, k);
    }
  }

  function WithRow<E>(rows: seq<Entry<E>>, j: nat, row: Row<E>): seq<Entry<E>>
    requires j < |rows|
  {
    rows[j := Entry(rows[j].eid, row)]
  }

  function Sent<E>(row: Row<E>): Row<E> { row.(status := RowSent) }

  function Retried<E>(row: Row<E>): Row<E> { row.(retries := row.retries + 1) }

  function Message<E>(e: Entry<E>): Msg<E> { Msg(e.eid, e.row.event) }

  datatype Swept<+E> = Swept(rows: seq<Entry<E>>, log: seq<Msg<E>>, failed: bool)

  /** The batch from its first row on: a failed mark ends it, a failed publish does not. */
  function Sweep<E>(rows: seq<Entry<E>>, log: seq<Msg<E>>, batch: seq<nat>, env: nat -> RowEnv): Swept<E>
    requires Within(batch, |rows|)
    decreases |batch|
  {
    if batch == [] then Swept(rows, log, false)
    else
      var j := batch[0];
      var published := log + Copies(Message(rows[j]), Appended(env(j).publish));
      match env(j).publish
      case Acked(_) =>
        if env(j).markFails then Swept(rows, published, true)
        else Sweep(WithRow(rows, j, Sent(rows[j].row)), published, batch[1..], env)
      case Refused(_) =>
        Sweep(if env(j).incrementFails then rows else WithRow(rows, j, Retried(rows[j].row)),
              published, batch[1..], env)
  }

  /** A tick: the sweep if it committed; otherwise the rows are rolled back and what was
      published stays published. */
  function Tick<E>(rows: seq<Entry<E>>, log: seq<Msg<E>>, env: TickEnv): Swept<E> {
    SelectSound(rows, env.locked, env.limit, 0);
    if env.selectFails then Swept(rows, log, true)
    else
      var s := Sweep(rows, log, Select(rows, env.locked, env.limit, 0), env.row);
      if s.failed || env.commitFails then Swept(rows, s.log, true) else s
  }

  class OutboxTable<E> {
    var rows: seq<Entry<E>>
    var log: seq<Msg<E>>

    constructor ()
      ensures rows == [] && log == []
    {
      rows, log := [], [];
    }

    method Insert(eid: EventId, event: E)
      modifies this
      ensures rows == old(rows) + [Entry(eid, Fresh(event))] && log == old(log)
    {
      rows := rows + [Entry(eid, Fresh(event))];
    }

    /** The row keeps its place, event and retry count; an unknown id changes nothing. */
    method MarkAsSent(id: nat)
      modifies `rows
      ensures rows == if id < |old(rows)| then WithRow(old(rows), id, Sent(old(rows)[id].row)) else old(rows)
    {
      if id < |rows| {
        rows := rows[id := Entry(rows[id].eid, rows[id].row.(status := RowSent))];
      }
    }

    method IncrementRetryCount(id: nat)
      modifies `rows
      ensures rows == if id < |old(rows)| then WithRow(old(rows), id, Retried(old(rows)[id].row)) else old(rows)
    {
      if id < |rows| {
        rows := rows[id := Entry(rows[id].eid, rows[id].row.(retries := rows[id].row.retries + 1))];
      }
    }

    /** The loop over the batch, row by row in place, with `continue` after a failed publish and
        an early return after a failed mark; the transaction rolls the rows back, not the topic. */
    method RunTick(env: TickEnv) returns (ok: bool)
      modifies this
      ensures var t := Tick(old(rows), old(log), env); rows == t.rows && log == t.log && ok == !t.failed
      ensures Within(Select(old(rows), env.locked, env.limit, 0), |old(rows)|)
      ensures TickDone(old(rows), old(log), env, rows, log, ok)
    {
      TickDoes(rows, log, env);
      if env.selectFails {
        return false;
      }
      var before := rows;
      var batch := Select(rows, env.locked, env.limit, 0);
      assert Within(batch, |rows|) by {
        SelectSound(rows, env.locked, env.limit, 0);
      }
      ghost var all := Sweep(rows, log, batch, env.row);
      var i := 0;
      ok := true;
      while i < |batch|
        invariant i <= |batch| && |rows| == |before|
        invariant Sweep(rows, log, batch[i..], env.row) == all
      {
        var id := batch[i];
        assert batch[i..][0] == id && batch[i..][1..] == batch[i + 1..];
        log := log + Copies(Message(rows[id]), Appended(env.row(id).publish));
        match env.row(id).publish {
          case Refused(_) =>
            if !env.row(id).incrementFails {
              IncrementRetryCount(id);
            }
          case Acked(_) =>
            if env.row(id).markFails {
              rows := before;
              return false;
            }
            MarkAsSent(id);
        }
        i := i + 1;
      }
      if env.commitFails {
        rows := before;
        ok := false;
      }
    }
  }

  // ---------------------------------------------------------------- what a sweep does to rows and topic

  /** A row after a committed sweep that included it. */
  function Handled<E>(row: Row<E>, env: RowEnv): Row<E> {
    match env.publish
    case Acked(_) => Sent(row)
    case Refused(_) => if env.incrementFails then row else Retried(row)
  }

  /** A committed sweep handles every row of its batch exactly once and no other row. */
  lemma {:induction false} SweepHandlesBatch<E>(rows: seq<Entry<E>>, log: seq<Msg<E>>,
                                                batch: seq<nat>, env: nat -> RowEnv)
    requires Rising(batch, |rows|)
    ensures var s := Sweep(rows, log, batch, env);
      && |s.rows| == |rows|
      && (!s.failed ==> forall j :: 0 <= j < |rows| ==>
            s.rows[j] == if j in batch then Entry(rows[j].eid, Handled(rows[j].row, env(j))) else rows[j])
    decreases |batch|
  {
    if batch != [] {
      var j, rest := batch[0], batch[1..];
      assert j !in rest;
      var rows' := WithRow(rows, j, Handled(rows[j].row, env(j)));
      assert WithRow(rows, j, rows[j].row) == rows;
      if !(env(j).publish.Acked? && env(j).markFails) {
        SweepHandlesBatch(rows', log + Copies(Message(rows[j]), Appended(env(j).publish)), rest, env);
        forall k | 0 <= k < |rows| ensures k in batch <==> k == j || k in rest {
        }
      }
    }
  }

  /** The topic only grows, and only by messages of rows of the batch. */
  lemma {:induction false} SweepAppends<E>(rows: seq<Entry<E>>, log: seq<Msg<E>>, batch: seq<nat>, env: nat -> RowEnv)
    requires Within(batch, |rows|)
    ensures var s := Sweep(rows, log, batch, env);
      && |log| <= |s.log| && s.log[..|log|] == log
      && (forall k :: |log| <= k < |s.log| ==> PublishedFrom(rows, batch, s.log[k]))
    decreases |batch|
  {
    if batch != [] {
      var j, rest := batch[0], batch[1..];
      var rows' := WithRow(rows, j, Handled(rows[j].row, env(j)));
      assert WithRow(rows, j, rows[j].row) == rows;
      var log' := log + Copies(Message(rows[j]), Appended(env(j).publish));
      assert PublishedFrom(rows, batch, Message(rows[j])) by {
        assert batch[0] in batch;
      }
      if !(env(j).publish.Acked? && env(j).markFails) {
        SweepAppends(rows', log', rest, env);
        var s := Sweep(rows', log', rest, env);
        assert s == Sweep(rows, log, batch, env);
        forall k | |log| <= k < |s.log| ensures PublishedFrom(rows, batch, s.log[k]) {
          if k >= |log'| {
            assert PublishedFrom(rows', rest, s.log[k]);
            var i :| i in rest && s.log[k] == Message(rows'[i]);
            assert i in batch && Message(rows'[i]) == Message(rows[i]);
          } else {
            assert s.log[..|log'|][k] == log'[k] == Message(rows[j]);
          }
        }
        assert s.log[..|log|] == s.log[..|log'|][..|log|];
      }
    }
  }

  lemma StaysOnTopic<E>(log: seq<Msg<E>>, log': seq<Msg<E>>, m: Msg<E>)
    requires m in log && |log| <= |log'| && log'[..|log|] == log
    ensures m in log'
  {
    var k :| 0 <= k < |log| && log[k] == m;
    assert log'[..|log|][k] == log'[k];
  }

  /** After a committed sweep the topic holds the message of every row it marked. */
  lemma {:induction false} SweepPublishes<E>(rows: seq<Entry<E>>, log: seq<Msg<E>>, batch: seq<nat>, env: nat -> RowEnv)
    requires Within(batch, |rows|) && !Sweep(rows, log, batch, env).failed
    ensures forall j :: j in batch && env(j).publish.Acked? ==> Message(rows[j]) in Sweep(rows, log, batch, env).log
    decreases |batch|
  {
    if batch != [] {
      var j, rest := batch[0], batch[1..];
      var rows' := WithRow(rows, j, Handled(rows[j].row, env(j)));
      assert WithRow(rows, j, rows[j].row) == rows;
      var log' := log + Copies(Message(rows[j]), Appended(env(j).publish));
      var s := Sweep(rows', log', rest, env);
      assert s == Sweep(rows, log, batch, env);
      SweepPublishes(rows', log', rest, env);
      SweepAppends(rows', log', rest, env);
      forall i | i in batch && env(i).publish.Acked? ensures Message(rows[i]) in s.log {
        if i == j {
          assert log'[|log|] == Message(rows[j]);
          StaysOnTopic(log', s.log, Message(rows[j]));
        } else {
          assert i in rest && Message(rows'[i]) == Message(rows[i]);
        }
      }
    }
  }

  ghost predicate PublishedFrom<E>(rows: seq<Entry<E>>, batch: seq<nat>, m: Msg<E>)
    requires Within(batch, |rows|)
  {
    exists j :: j in batch && m == Message(rows[j])
  }

  /** What a batch puts on the topic: for each of its rows, in the order of the batch, the copies
      its publish call appended of the row's id and event. */
  function BatchMessages<E>(rows: seq<Entry<E>>, batch: seq<nat>, env: nat -> RowEnv): seq<Msg<E>>
    requires Within(batch, |rows|)
  {
    if batch == [] then []
    else
      var j, rest := batch[|batch| - 1], batch[..|batch| - 1];
      BatchMessages(rows, rest, env) + Copies(Msg(rows[j].eid, rows[j].row.event), Appended(env(j).publish))
  }

  lemma {:induction false} FirstMessage<E>(rows: seq<Entry<E>>, rows': seq<Entry<E>>, batch: seq<nat>,
                                           env: nat -> RowEnv)
    requires batch != [] && Within(batch, |rows|) && |rows'| == |rows|
    requires forall j :: 0 <= j < |rows| ==> Message(rows'[j]) == Message(rows[j])
    ensures BatchMessages(rows, batch, env)
         == Copies(Message(rows[batch[0]]), Appended(env(batch[0]).publish)) + BatchMessages(rows', batch[1..], env)
  {
    var n := |batch| - 1;
    if n > 0 {
      FirstMessage(rows, rows', batch[..n], env);
      assert batch[..n][1..] == batch[1..][..n - 1] && batch[1..][n - 1] == batch[n];
    }
  }

  /** A batch fails exactly if a row it has published cannot be marked; otherwise the topic gets
      its messages in order. */
  lemma {:induction false} SweepInOrder<E>(rows: seq<Entry<E>>, log: seq<Msg<E>>, batch: seq<nat>, env: nat -> RowEnv)
    requires Within(batch, |rows|)
    ensures var s := Sweep(rows, log, batch, env);
      && (s.failed <==> exists j :: j in batch && env(j).publish.Acked? && env(j).markFails)
      && (!s.failed ==> s.log == log + BatchMessages(rows, batch, env))
    decreases |batch|
  {
    if batch != [] {
      var j, rest := batch[0], batch[1..];
      assert forall i :: i in batch <==> i == j || i in rest;
      if !(env(j).publish.Acked? && env(j).markFails) {
        var rows' := WithRow(rows, j, Handled(rows[j].row, env(j)));
        assert WithRow(rows, j, rows[j].row) == rows;
        SweepInOrder(rows', log + Copies(Message(rows[j]), Appended(env(j).publish)), rest, env);
        FirstMessage(rows, rows', batch, env);
      }
    }
  }

  /** What a tick does, row by row: it goes through exactly if nothing but publishing and counting
      fails; then each row of its batch is sent if its publish was acknowledged, and has one more
      refusal to its name if it was refused and that could be recorded; otherwise no row changes. */
  ghost predicate TickDone<E>(rows: seq<Entry<E>>, log: seq<Msg<E>>, env: TickEnv,
                              rows': seq<Entry<E>>, log': seq<Msg<E>>, ok: bool)
    requires Within(Select(rows, env.locked, env.limit, 0), |rows|)
  {
    var batch := Select(rows, env.locked, env.limit, 0);
    && (ok <==> !env.selectFails && !env.commitFails
                && forall j :: j in batch ==> !(env.row(j).publish.Acked? && env.row(j).markFails))
    && (!ok ==> rows' == rows)
    && (ok ==> log' == log + BatchMessages(rows, batch, env.row) && |rows'| == |rows|)
    && (ok ==> forall j :: 0 <= j < |rows| ==>
          rows'[j].eid == rows[j].eid
          && rows'[j].row ==
            if j !in batch then rows[j].row
            else if env.row(j).publish.Acked? then rows[j].row.(status := RowSent)
            else if env.row(j).incrementFails then rows[j].row
            else rows[j].row.(retries := rows[j].row.retries + 1))
  }

  lemma TickDoes<E>(rows: seq<Entry<E>>, log: seq<Msg<E>>, env: TickEnv)
    ensures Within(Select(rows, env.locked, env.limit, 0), |rows|)
    ensures var t := Tick(rows, log, env); TickDone(rows, log, env, t.rows, t.log, !t.failed)
  {
    SelectSound(rows, env.locked, env.limit, 0);
    SweepHandlesBatch(rows, log, Select(rows, env.locked, env.limit, 0), env.row);
    SweepInOrder(rows, log, Select(rows, env.locked, env.limit, 0), env.row);
  }

  // ---------------------------------------------------------------- a table under any number of ticks

  /** Every row marked sent is on the topic, every message on it is a row's, and no row is past
      the retry cap. */
  ghost predicate Sound<E>(rows: seq<Entry<E>>, log: seq<Msg<E>>) {
    && (forall j :: 0 <= j < |rows| && rows[j].row.status == RowSent ==> Message(rows[j]) in log)
    && (forall k :: 0 <= k < |log| ==> exists j :: 0 <= j < |rows| && log[k] == Message(rows[j]))
    && (forall j :: 0 <= j < |rows| ==> rows[j].row.retries <= MAX_RETRIES)
  }

  /** A tick, whatever fails in it, keeps the table sound. */
  lemma TickIsSound<E>(rows: seq<Entry<E>>, log: seq<Msg<E>>, env: TickEnv)
    requires Sound(rows, log)
    ensures Sound(Tick(rows, log, env).rows, Tick(rows, log, env).log)
  {
    SelectSound(rows, env.locked, env.limit, 0);
    var batch := Select(rows, env.locked, env.limit, 0);
    SweepHandlesBatch(rows, log, batch, env.row);
    SweepAppends(rows, log, batch, env.row);
    if !Sweep(rows, log, batch, env.row).failed {
      SweepPublishes(rows, log, batch, env.row);
    }
    var t := Tick(rows, log, env);
    assert forall j :: 0 <= j < |rows| ==> Message(t.rows[j]) == Message(rows[j]);
    if !env.selectFails {
      forall m | m in log ensures m in t.log {
        StaysOnTopic(log, t.log, m);
      }
      forall k | 0 <= k < |t.log| ensures exists j :: 0 <= j < |t.rows| && t.log[k] == Message(t.rows[j]) {
        if k < |log| {
          assert t.log[..|log|][k] == log[k];
          var j :| 0 <= j < |rows| && log[k] == Message(rows[j]);
          assert t.log[k] == Message(t.rows[j]);
        } else {
          assert PublishedFrom(rows, batch, t.log[k]);
          var j :| j in batch && t.log[k] == Message(rows[j]);
          assert t.log[k] == Message(t.rows[j]);
        }
      }
    }
  }

  // ---------------------------------------------------------------- termination

  /** How many more times a row can be refused before it is given up on. */
  function Budget<E>(row: Row<E>): nat {
    if Eligible(row) then MAX_RETRIES - row.retries else 0
  }

  function Measure<E>(rows: seq<Entry<E>>): nat {
    if rows == [] then 0 else Measure(rows[..|rows| - 1]) + Budget(rows[|rows| - 1].row)
  }

  lemma {:induction false} MeasureBound<E>(rows: seq<Entry<E>>)
    ensures Measure(rows) <= MAX_RETRIES * |rows|
  {
    if rows != [] {
      MeasureBound(rows[..|rows| - 1]);
    }
  }

  /** If no budget rises, the measure does not; if one falls, so does the measure. */
  lemma {:induction false} MeasureFalls<E>(rows: seq<Entry<E>>, rows': seq<Entry<E>>)
    requires |rows| == |rows'| && forall j :: 0 <= j < |rows| ==> Budget(rows'[j].row) <= Budget(rows[j].row)
    ensures Measure(rows') <= Measure(rows)
    ensures (exists j :: 0 <= j < |rows| && Budget(rows'[j].row) < Budget(rows[j].row)) ==>
      Measure(rows') < Measure(rows)
  {
    if rows != [] {
      var n := |rows| - 1;
      MeasureFalls(rows[..n], rows'[..n]);
      if j :| 0 <= j < |rows| && Budget(rows'[j].row) < Budget(rows[j].row) {
        if j < n {
          assert Budget(rows'[..n][j].row) < Budget(rows[..n][j].row);
        }
      }
    }
  }

  /** A tick in which nothing but publishing can fail, with no other poller about. */
  ghost predicate Clean(env: TickEnv) {
    && env.limit >= 1 && env.locked == {} && !env.selectFails && !env.commitFails
    && (forall j: nat :: !env.row(j).markFails && !env.row(j).incrementFails)
  }

  ghost predicate Idle<E>(rows: seq<Entry<E>>) {
    forall j :: 0 <= j < |rows| ==> !Eligible(rows[j].row)
  }

  lemma {:induction false} CleanSweepCommits<E>(rows: seq<Entry<E>>, log: seq<Msg<E>>,
                                                batch: seq<nat>, env: nat -> RowEnv)
    requires Within(batch, |rows|)
    requires forall j: nat :: !env(j).markFails
    ensures !Sweep(rows, log, batch, env).failed
    decreases |batch|
  {
    if batch != [] {
      var j := batch[0];
      var log' := log + Copies(Message(rows[j]), Appended(env(j).publish));
      match env(j).publish {
        case Acked(_) => CleanSweepCommits(WithRow(rows, j, Sent(rows[j].row)), log', batch[1..], env);
        case Refused(_) =>
          CleanSweepCommits(if env(j).incrementFails then rows else WithRow(rows, j, Retried(rows[j].row)),
                            log', batch[1..], env);
      }
    }
  }

  /** Every committed tick whose increments succeed makes progress, beside whatever other pollers:
      with no row to select it leaves the table alone, otherwise it strictly lowers the measure. */
  lemma TickProgresses<E>(rows: seq<Entry<E>>, log: seq<Msg<E>>, env: TickEnv)
    requires !env.selectFails && !Tick(rows, log, env).failed
    requires forall j :: j in Select(rows, env.locked, env.limit, 0) ==> !env.row(j).incrementFails
    ensures var t := Tick(rows, log, env);
      && |t.rows| == |rows|
      && (if Select(rows, env.locked, env.limit, 0) == [] then t.rows == rows else Measure(t.rows) < Measure(rows))
  {
    SelectSound(rows, env.locked, env.limit, 0);
    var batch := Select(rows, env.locked, env.limit, 0);
    SweepHandlesBatch(rows, log, batch, env.row);
    if batch != [] {
      var t, j := Tick(rows, log, env), batch[0];
      assert j in batch && Budget(t.rows[j].row) < Budget(rows[j].row);
      MeasureFalls(rows, t.rows);
    }
  }

  /** In particular, a clean tick strictly lowers the measure unless there was nothing to do. */
  lemma CleanTickProgresses<E>(rows: seq<Entry<E>>, log: seq<Msg<E>>, env: TickEnv)
    requires Clean(env)
    ensures var t := Tick(rows, log, env);
      && |t.rows| == |rows|
      && (if Idle(rows) then t.rows == rows else Measure(t.rows) < Measure(rows))
  {
    SelectSound(rows, {}, env.limit, 0);
    var batch := Select(rows, env.locked, env.limit, 0);
    assert forall k :: 0 <= k < |batch| ==> batch[k] in batch;
    CleanSweepCommits(rows, log, batch, env.row);
    TickProgresses(rows, log, env);
    assert !Idle(rows) ==> batch != [];
  }

  function Ticks<E>(rows: seq<Entry<E>>, log: seq<Msg<E>>, envs: seq<TickEnv>): Swept<E> {
    if envs == [] then Swept(rows, log, false)
    else
      var s := Ticks(rows, log, envs[..|envs| - 1]);
      Tick(s.rows, s.log, envs[|envs| - 1])
  }

  /** What a tick can do to a row, whatever happens in it: nothing; or, if the row was pending and
      under the cap, mark it sent or raise its count by one. Id and event never change. */
  lemma TickMovesRows<E>(rows: seq<Entry<E>>, log: seq<Msg<E>>, env: TickEnv, j: nat)
    requires j < |rows|
    ensures var t, row := Tick(rows, log, env), rows[j].row;
      && |t.rows| == |rows| && t.rows[j].eid == rows[j].eid
      && (t.rows[j].row == row
          || (Due(row) && t.rows[j].row == row.(status := RowSent))
          || (Due(row) && t.rows[j].row == row.(retries := row.retries + 1)))
  {
    SelectMember(rows, env.locked, env.limit, 0, j);
    TickDoes(rows, log, env);
  }

  /** A row that is sent, or was refused 5 times, is as it is for good, whatever ticks follow. */
  lemma {:induction false} SettledRowsStay<E>(rows: seq<Entry<E>>, log: seq<Msg<E>>, envs: seq<TickEnv>, j: nat)
    requires j < |rows| && (rows[j].row.status == RowSent || rows[j].row.retries >= MAX_RETRIES)
    ensures |Ticks(rows, log, envs).rows| == |rows| && Ticks(rows, log, envs).rows[j] == rows[j]
  {
    if envs != [] {
      SettledRowsStay(rows, log, envs[..|envs| - 1], j);
      var s := Ticks(rows, log, envs[..|envs| - 1]);
      TickMovesRows(s.rows, s.log, envs[|envs| - 1], j);
    }
  }

  lemma {:induction false} TicksLowerMeasure<E>(rows: seq<Entry<E>>, log: seq<Msg<E>>, envs: seq<TickEnv>)
    requires Sound(rows, log) && forall i :: 0 <= i < |envs| ==> Clean(envs[i])
    ensures var s := Ticks(rows, log, envs);
      && |s.rows| == |rows| && Sound(s.rows, s.log)
      && (Idle(s.rows) || Measure(s.rows) + |envs| <= Measure(rows))
  {
    if envs != [] {
      var before := envs[..|envs| - 1];
      TicksLowerMeasure(rows, log, before);
      var s := Ticks(rows, log, before);
      TickIsSound(s.rows, s.log, envs[|envs| - 1]);
      CleanTickProgresses(s.rows, s.log, envs[|envs| - 1]);
    }
  }

  /** A single poller over n rows, with no inserts, is done within 5n clean ticks: each row is
      sent, and on the topic, or has been refused 5 times; whatever the broker answers. */
  lemma IdleWithinFiveTicksPerRow<E>(rows: seq<Entry<E>>, log: seq<Msg<E>>, envs: seq<TickEnv>)
    requires Sound(rows, log) && forall i :: 0 <= i < |envs| ==> Clean(envs[i])
    requires |envs| >= 5 * |rows|
    ensures var s := Ticks(rows, log, envs);
      |s.rows| == |rows| &&
      forall j :: 0 <= j < |rows| ==>
        if s.rows[j].row.status == RowSent then Msg(s.rows[j].eid, s.rows[j].row.event) in s.log
        else s.rows[j].row.retries == 5
  {
    TicksLowerMeasure(rows, log, envs);
    MeasureBound(rows);
    var s := Ticks(rows, log, envs);
    if !Idle(s.rows) {
      var j :| 0 <= j < |s.rows| && Eligible(s.rows[j].row);
      PositiveMeasure(s.rows, j);
    }
  }

  lemma {:induction false} PositiveMeasure<E>(rows: seq<Entry<E>>, j: nat)
    requires j < |rows|
    ensures Measure(rows) >= Budget(rows[j].row)
  {
    if j < |rows| - 1 {
      PositiveMeasure(rows[..|rows| - 1], j);
    }
  }
}
