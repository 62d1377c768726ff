/** How the three views of polling fit together: one poller's tick is a run of the fleet, and
    whatever the fleet does is a run of the relay that the saga is built on. */
module PollerRefinement {
  import opened Events
  import opened Outbox
  import opened Poller
  import F = PollerFleet

  // ---------------------------------------------------------------- the fleet seen as a channel

  ghost predicate UniqueIds<E>(rows: seq<Entry<E>>) {
    forall j, k :: 0 <= j < |rows| && 0 <= k < |rows| && rows[j].eid == rows[k].eid ==> j == k
  }

  /** The committed table, by event id. */
  ghost function Table<E>(rows: seq<Entry<E>>): map<EventId, Row<E>>
    requires UniqueIds(rows)
  {
    map j | 0 <= j < |rows| :: rows[j].eid := rows[j].row
  }

  ghost predicate LogWithin(log: seq<nat>, bound: nat) {
    forall k :: 0 <= k < |log| ==> log[k] < bound
  }

  /** The topic, with the messages themselves in place of the rows they came from. */
  ghost function Messages<E>(rows: seq<Entry<E>>, log: seq<nat>): (m: seq<Msg<E>>)
    requires LogWithin(log, |rows|)
    ensures |m| == |log|
  {
    seq(|log|, k requires 0 <= k < |log| => Message(rows[log[k]]))
  }

  ghost function AsChannel<E>(f: F.Fleet<E>): Channel<E>
    requires F.Inv(f) && UniqueIds(f.rows)
  {
    Channel(Table(f.rows), Messages(f.rows, f.log))
  }

  /** What the saga lets happen to a channel: a transaction writes a row, or the relay moves. */
  datatype ChannelStep<+E> = Write(eid: EventId, event: E) | Relayed(relay: RelayStep)

  function ChannelNext<E(==)>(ch: Channel<E>, step: ChannelStep<E>): Channel<E> {
    match step
    case Write(eid, event) => if eid in ch.outbox then ch else ch.(outbox := ch.outbox[eid := Fresh(event)])
    case Relayed(relay) => Relay(ch, relay)
  }

  function ChannelExec<E(==)>(ch: Channel<E>, steps: seq<ChannelStep<E>>): Channel<E> {
    if steps == [] then ch else ChannelNext(ChannelExec(ch, steps[..|steps| - 1]), steps[|steps| - 1])
  }

  lemma Extend<E>(ch: Channel<E>, steps: seq<ChannelStep<E>>, step: ChannelStep<E>)
    ensures ChannelExec(ch, steps + [step]) == ChannelNext(ChannelExec(ch, steps), step)
  {
    assert (steps + [step])[..|steps|] == steps;
  }

  lemma {:induction false} Join<E>(ch: Channel<E>, a: seq<ChannelStep<E>>, b: seq<ChannelStep<E>>)
    ensures ChannelExec(ch, a + b) == ChannelExec(ChannelExec(ch, a), b)
  {
    if b == [] {
      assert a + b == a;
    } else {
      assert a + b == (a + b[..|b| - 1]) + [b[|b| - 1]];
      Join(ch, a, b[..|b| - 1]);
      Extend(ch, a + b[..|b| - 1], b[|b| - 1]);
    }
  }

  /** The rows after the outcomes of the first `n` rows of a batch have been stored. */
  ghost function Stored<E>(rows: seq<Entry<E>>, ids: seq<nat>, draft: map<nat, Row<E>>, n: nat): (rows': seq<Entry<E>>)
    requires n <= |ids| && Within(ids, |rows|)
    ensures |rows'| == |rows|
  {
    if n == 0 then rows
    else
      var before := Stored(rows, ids, draft, n - 1);
      if ids[n - 1] in draft then WithRow(before, ids[n - 1], draft[ids[n - 1]]) else before
  }

  /** What a batch may store about a row: that it was refused, or sent if the topic has it. */
  ghost predicate Outcome<E>(before: Entry<E>, log: seq<Msg<E>>, row: Row<E>) {
    Eligible(before.row) && (row == Retried(before.row) || (row == Sent(before.row) && Message(before) in log))
  }

  ghost predicate Outcomes<E>(rows: seq<Entry<E>>, log: seq<Msg<E>>, draft: map<nat, Row<E>>) {
    forall j :: j in draft ==> j < |rows| && Outcome(rows[j], log, draft[j])
  }

  lemma {:induction false} StoredAt<E>(rows: seq<Entry<E>>, ids: seq<nat>, draft: map<nat, Row<E>>, n: nat, j: nat)
    requires n <= |ids| && Rising(ids, |rows|) && j < |rows|
    ensures Stored(rows, ids, draft, n)[j]
         == if j in ids[..n] && j in draft then Entry(rows[j].eid, draft[j]) else rows[j]
  {
    if n > 0 {
      StoredAt(rows, ids, draft, n - 1, j);
      assert ids[..n] == ids[..n - 1] + [ids[n - 1]];
    }
  }

  lemma TableKeys<E>(rows: seq<Entry<E>>, e: EventId)
    requires UniqueIds(rows)
    ensures e in Table(rows) <==> exists k :: 0 <= k < |rows| && rows[k].eid == e
  {
  }

  lemma TableUpdate<E>(rows: seq<Entry<E>>, j: nat, row: Row<E>)
    requires UniqueIds(rows) && j < |rows|
    ensures UniqueIds(WithRow(rows, j, row))
    ensures rows[j].eid in Table(rows) && Table(rows)[rows[j].eid] == rows[j].row
    ensures Table(WithRow(rows, j, row)) == Table(rows)[rows[j].eid := row]
  {
    var rows' := WithRow(rows, j, row);
    forall e ensures e in Table(rows') <==> e in Table(rows) {
      SameKeys(rows, rows', e);
    }
  }

  lemma SameKeys<E>(rows: seq<Entry<E>>, rows': seq<Entry<E>>, e: EventId)
    requires UniqueIds(rows) && UniqueIds(rows') && |rows'| == |rows|
    requires forall k :: 0 <= k < |rows| ==> rows'[k].eid == rows[k].eid
    ensures e in Table(rows') <==> e in Table(rows)
  {
    TableKeys(rows, e);
    TableKeys(rows', e);
  }

  /** A commit is one mark or one increment per row of the batch. */
  lemma {:induction false} CommitRelays<E>(rows: seq<Entry<E>>, log: seq<Msg<E>>,
                                           ids: seq<nat>, draft: map<nat, Row<E>>, n: nat)
    returns (steps: seq<ChannelStep<E>>)
    requires Rising(ids, |rows|) && Outcomes(rows, log, draft) && UniqueIds(rows) && n <= |ids|
    ensures UniqueIds(Stored(rows, ids, draft, n))
    ensures ChannelExec(Channel(Table(rows), log), steps) == Channel(Table(Stored(rows, ids, draft, n)), log)
  {
    if n == 0 {
      return [];
    }
    steps := CommitRelays(rows, log, ids, draft, n - 1);
    var before, after, j := Stored(rows, ids, draft, n - 1), Stored(rows, ids, draft, n), ids[n - 1];
    StoredAt(rows, ids, draft, n - 1, j);
    assert before[j] == rows[j];
    if j in draft {
      steps := OneMoreOutcome(Channel(Table(rows), log), steps, before, after, log, j, draft[j]);
    }
  }

  lemma OneMoreOutcome<E>(ch: Channel<E>, steps: seq<ChannelStep<E>>, rows: seq<Entry<E>>, rows': seq<Entry<E>>,
                          log: seq<Msg<E>>, j: nat, row: Row<E>)
    returns (steps': seq<ChannelStep<E>>)
    requires UniqueIds(rows) && ChannelExec(ch, steps) == Channel(Table(rows), log)
    requires j < |rows| && Outcome(rows[j], log, row) && rows' == WithRow(rows, j, row)
    ensures UniqueIds(rows')
    ensures ChannelExec(ch, steps') == Channel(Table(rows'), log)
  {
    OutcomeIsARelayStep(rows, log, j, row);
    Extend(ch, steps, OutcomeStep(rows[j].eid, row));
    steps' := steps + [OutcomeStep(rows[j].eid, row)];
  }

  function OutcomeStep<E>(eid: EventId, row: Row<E>): ChannelStep<E> {
    Relayed(if row.status == RowSent then MarkAsSent(eid) else IncrementRetry(eid))
  }

  lemma OutcomeIsARelayStep<E>(rows: seq<Entry<E>>, log: seq<Msg<E>>, j: nat, row: Row<E>)
    requires UniqueIds(rows) && j < |rows| && Outcome(rows[j], log, row)
    ensures UniqueIds(WithRow(rows, j, row))
    ensures ChannelNext(Channel(Table(rows), log), OutcomeStep(rows[j].eid, row))
         == Channel(Table(WithRow(rows, j, row)), log)
  {
    TableUpdate(rows, j, row);
  }

  /** What a batch has published is on the topic. */
  lemma AckedIsOnTopic<E>(f: F.Fleet<E>, p: F.PollerId, j: nat)
    requires F.Inv(f) && p in f.batches && j in f.batches[p].acked
    ensures j < |f.rows| && Message(f.rows[j]) in Messages(f.rows, f.log)
  {
    F.AckedIsHeld(f.rows, f.batches[p], j);
    assert F.InFlight(f.batches, j);
    assert F.Accounted(f, j);
    assert j in f.log;
    var k :| 0 <= k < |f.log| && f.log[k] == j;
    assert Messages(f.rows, f.log)[k] == Message(f.rows[j]);
  }

  lemma DraftsAreOutcomes<E>(f: F.Fleet<E>, p: F.PollerId)
    requires F.Inv(f) && p in f.batches
    ensures Outcomes(f.rows, Messages(f.rows, f.log), f.batches[p].draft)
  {
    var b := f.batches[p];
    F.DraftIsHeld(f.rows, b);
    forall j | j in b.draft ensures j < |f.rows| && Outcome(f.rows[j], Messages(f.rows, f.log), b.draft[j]) {
      if j in b.acked {
        AckedIsOnTopic(f, p, j);
      }
    }
  }

  lemma CommitIsRelaySteps<E>(f: F.Fleet<E>, p: F.PollerId) returns (steps: seq<ChannelStep<E>>)
    requires F.Inv(f) && UniqueIds(f.rows) && p in f.batches && f.batches[p].next == |f.batches[p].ids|
    ensures var f' := F.Next(f, F.Commit(p));
      F.Inv(f') && UniqueIds(f'.rows) && AsChannel(f') == ChannelExec(AsChannel(f), steps)
  {
    var b, f' := f.batches[p], F.Next(f, F.Commit(p));
    F.CommitKeeps(f, p);
    DraftsAreOutcomes(f, p);
    steps := CommitRelays(f.rows, Messages(f.rows, f.log), b.ids, b.draft, |b.ids|);
    assert b.ids[..|b.ids|] == b.ids;
    F.DraftIsHeld(f.rows, b);
    forall j: nat | j < |f.rows| ensures f'.rows[j] == Stored(f.rows, b.ids, b.draft, |b.ids|)[j] {
      StoredAt(f.rows, b.ids, b.draft, |b.ids|, j);
    }
    assert f'.rows == Stored(f.rows, b.ids, b.draft, |b.ids|);
    assert Messages(f'.rows, f'.log) == Messages(f.rows, f.log) by {
      F.DraftsKeepEvents(f.rows, b);
    }
  }

  lemma WorkIsRelaySteps<E>(f: F.Fleet<E>, p: F.PollerId, env: RowEnv) returns (steps: seq<ChannelStep<E>>)
    requires F.Inv(f) && UniqueIds(f.rows) && p in f.batches && f.batches[p].next < |f.batches[p].ids|
    ensures var f' := F.Next(f, F.Work(p, env));
      F.Inv(f') && UniqueIds(f'.rows) && AsChannel(f') == ChannelExec(AsChannel(f), steps)
  {
    F.StepKeeps(f, F.Work(p, env));
    F.NextIsOwn(f, p);
    WorkPublishes(f, p, env);
    steps := PublishesAreRelaySteps(f.rows, f.log, f.batches[p].ids[f.batches[p].next], Appended(env.publish));
  }

  lemma WorkPublishes<E>(f: F.Fleet<E>, p: F.PollerId, env: RowEnv)
    requires p in f.batches && f.batches[p].next < |f.batches[p].ids|
    requires f.batches[p].ids[f.batches[p].next] < |f.rows|
    ensures var f' := F.Next(f, F.Work(p, env));
      && f'.rows == f.rows
      && f'.log == f.log + Copies(f.batches[p].ids[f.batches[p].next], Appended(env.publish))
  {
  }

  /** A publish call that appends `n` copies is `n` publishing steps of the relay. */
  lemma {:induction false} PublishesAreRelaySteps<E>(rows: seq<Entry<E>>, log: seq<nat>, j: nat, n: nat)
    returns (steps: seq<ChannelStep<E>>)
    requires UniqueIds(rows) && j < |rows| && Eligible(rows[j].row) && LogWithin(log, |rows|)
    ensures LogWithin(log + Copies<nat>(j, n), |rows|)
    ensures Channel(Table(rows), Messages(rows, log + Copies<nat>(j, n)))
         == ChannelExec(Channel(Table(rows), Messages(rows, log)), steps)
  {
    if n == 0 {
      assert log + Copies<nat>(j, 0) == log;
      return [];
    }
    var ch := Channel(Table(rows), Messages(rows, log));
    steps := PublishesAreRelaySteps(rows, log, j, n - 1);
    assert log + Copies<nat>(j, n) == (log + Copies<nat>(j, n - 1)) + [j];
    PublishIsARelayStep(rows, log + Copies<nat>(j, n - 1), j);
    Extend(ch, steps, Relayed(Publish(rows[j].eid)));
    steps := steps + [Relayed(Publish(rows[j].eid))];
  }

  lemma PublishIsARelayStep<E>(rows: seq<Entry<E>>, log: seq<nat>, j: nat)
    requires UniqueIds(rows) && j < |rows| && Eligible(rows[j].row) && LogWithin(log, |rows|)
    ensures LogWithin(log + [j], |rows|)
    ensures Channel(Table(rows), Messages(rows, log + [j]))
         == ChannelNext(Channel(Table(rows), Messages(rows, log)), Relayed(Publish(rows[j].eid)))
  {
    TableUpdate(rows, j, rows[j].row);
    assert Messages(rows, log + [j]) == Messages(rows, log) + [Message(rows[j])];
  }

  lemma InsertIsAWrite<E>(f: F.Fleet<E>, eid: EventId, event: E) returns (steps: seq<ChannelStep<E>>)
    requires F.Inv(f) && UniqueIds(f.rows)
    ensures var f' := F.Next(f, F.Insert(eid, event));
      F.Inv(f') && UniqueIds(f'.rows) && AsChannel(f') == ChannelExec(AsChannel(f), steps)
  {
    var f' := F.Next(f, F.Insert(eid, event));
    F.InsertKeeps(f, eid, event);
    if f' == f {
      return [];
    }
    steps := [Write(eid, event)];
    Extend(AsChannel(f), [], steps[0]);
    assert [] + steps == steps;
    assert Messages(f'.rows, f.log) == Messages(f.rows, f.log);
    TableInsert(f.rows, Entry(eid, Fresh(event)));
  }

  lemma TableInsert<E>(rows: seq<Entry<E>>, entry: Entry<E>)
    requires UniqueIds(rows) && forall k :: 0 <= k < |rows| ==> rows[k].eid != entry.eid
    ensures UniqueIds(rows + [entry]) && entry.eid !in Table(rows)
    ensures Table(rows + [entry]) == Table(rows)[entry.eid := entry.row]
  {
    var rows' := rows + [entry];
    assert rows'[|rows|] == entry;
    forall e | e in Table(rows) ensures e in Table(rows') {
      var k :| 0 <= k < |rows| && rows[k].eid == e;
      assert rows'[k].eid == e;
    }
  }

  lemma StepIsARelayRun<E>(f: F.Fleet<E>, step: F.Step<E>) returns (steps: seq<ChannelStep<E>>)
    requires F.Inv(f) && UniqueIds(f.rows)
    ensures var f' := F.Next(f, step);
      F.Inv(f') && UniqueIds(f'.rows) && AsChannel(f') == ChannelExec(AsChannel(f), steps)
  {
    steps := [];
    match step
    case Insert(eid, event) => steps := InsertIsAWrite(f, eid, event);
    case Begin(p, limit) => F.StepKeeps(f, step);
    case Work(p, env) =>
      if p in f.batches && f.batches[p].next < |f.batches[p].ids| {
        steps := WorkIsRelaySteps(f, p, env);
      }
    case Commit(p) =>
      if p in f.batches && f.batches[p].next >= |f.batches[p].ids| {
        steps := CommitIsRelaySteps(f, p);
      }
    case Rollback(p) => F.StepKeeps(f, step);
  }

  /** Refinement: whatever any number of pollers do, with whatever failures, the table and the
      topic change exactly as some run of the saga's relay and of writing transactions does. */
  lemma {:induction false} FleetIsARelay<E>(steps: seq<F.Step<E>>) returns (relayed: seq<ChannelStep<E>>)
    ensures var f := F.Exec(F.Init<E>(), steps);
      F.Inv(f) && UniqueIds(f.rows) && AsChannel(f) == ChannelExec(Channel(map[], []), relayed)
  {
    F.RunKeeps(steps);
    relayed := [];
    if steps == [] {
      assert Table(F.Init<E>().rows) == map[];
    } else {
      var f := F.Exec(F.Init<E>(), steps[..|steps| - 1]);
      relayed := FleetIsARelay(steps[..|steps| - 1]);
      var more := StepIsARelayRun(f, steps[|steps| - 1]);
      Join(Channel(map[], []), relayed, more);
      relayed := relayed + more;
    }
  }

  // ---------------------------------------------------------------- a tick seen as a run of the fleet

  /** The rows as the batch transaction itself sees them. */
  ghost function Overlay<E>(rows: seq<Entry<E>>, draft: map<nat, Row<E>>): (rows': seq<Entry<E>>)
    ensures |rows'| == |rows|
  {
    seq(|rows|, j requires 0 <= j < |rows| => if j in draft then Entry(rows[j].eid, draft[j]) else rows[j])
  }

  /** The batch has worked off `n` rows, and sweeping the rest makes the whole sweep. */
  ghost predicate OnCourse<E>(rows: seq<Entry<E>>, log: seq<nat>, b: F.Batch<E>,
                              ids: seq<nat>, env: nat -> RowEnv, n: nat, all: Swept<E>)
    requires n <= |ids| && LogWithin(log, |rows|) && Within(ids, |rows|)
  {
    && b.ids == ids && b.next == n
    && (forall j :: j in b.draft ==> j in ids[..n])
    && Sweep(Overlay(rows, b.draft), Messages(rows, log), ids[n..], env) == all
  }

  /** Where the fleet is after some Work steps: still in the batch with the rest of the sweep to
      do, or rolled back by a failed mark. */
  ghost predicate Midway<E>(f: F.Fleet<E>, g: F.Fleet<E>, p: F.PollerId,
                            ids: seq<nat>, env: nat -> RowEnv, n: nat, all: Swept<E>)
    requires n <= |ids| && Within(ids, |f.rows|)
  {
    && LogWithin(g.log, |f.rows|) && g.rows == f.rows && g.batches - {p} == f.batches
    && if p in g.batches then OnCourse(f.rows, g.log, g.batches[p], ids, env, n, all)
       else all.failed && all.log == Messages(f.rows, g.log)
  }

  lemma SweepOnce<E>(rows: seq<Entry<E>>, log: seq<Msg<E>>, ids: seq<nat>, n: nat, env: nat -> RowEnv)
    requires n < |ids| && Within(ids, |rows|)
    ensures var j := ids[n];
      var published := log + Copies(Message(rows[j]), Appended(env(j).publish));
      Sweep(rows, log, ids[n..], env) ==
        match env(j).publish
        case Acked(_) =>
          if env(j).markFails then Swept(rows, published, true)
          else Sweep(WithRow(rows, j, Sent(rows[j].row)), published, ids[n + 1..], env)
        case Refused(_) =>
          Sweep(if env(j).incrementFails then rows else WithRow(rows, j, Retried(rows[j].row)),
                published, ids[n + 1..], env)
  {
    assert ids[n..][0] == ids[n] && ids[n..][1..] == ids[n + 1..];
  }

  /** One more row worked off, seen from both sides. */
  lemma DraftOne<E>(rows: seq<Entry<E>>, log: seq<nat>, draft: map<nat, Row<E>>, j: nat, row: Row<E>, n: nat)
    requires j < |rows| && j !in draft && LogWithin(log, |rows|)
    ensures Overlay(rows, draft)[j] == rows[j]
    ensures Overlay(rows, draft[j := row]) == WithRow(Overlay(rows, draft), j, row)
    ensures LogWithin(log + Copies<nat>(j, n), |rows|)
    ensures Messages(rows, log + Copies<nat>(j, n)) == Messages(rows, log) + Copies(Message(rows[j]), n)
  {
  }

  lemma NextIsUndrafted(ids: seq<nat>, bound: nat, n: nat)
    requires Rising(ids, bound) && n < |ids|
    ensures ids[n] !in ids[..n] && ids[..n + 1] == ids[..n] + [ids[n]]
  {
  }

  lemma MidwayStep<E>(f: F.Fleet<E>, g: F.Fleet<E>, g': F.Fleet<E>, p: F.PollerId,
                      ids: seq<nat>, env: nat -> RowEnv, n: nat, all: Swept<E>)
    requires n < |ids| && p !in f.batches && Rising(ids, |f.rows|) && Midway(f, g, p, ids, env, n, all)
    requires g' == F.Next(g, F.Work(p, env(ids[n])))
    ensures Midway(f, g', p, ids, env, n + 1, all)
  {
    if p in g.batches {
      var j, draft := ids[n], g.batches[p].draft;
      NextIsUndrafted(ids, |f.rows|, n);
      SweepOnce(Overlay(g.rows, draft), Messages(g.rows, g.log), ids, n, env);
      DraftOne(g.rows, g.log, draft, j, Handled(g.rows[j].row, env(j)), Appended(env(j).publish));
    }
  }

  /** The rest of the batch, one Work step a row. */
  lemma {:induction false} MidwayRun<E>(f: F.Fleet<E>, g: F.Fleet<E>, p: F.PollerId,
                                        ids: seq<nat>, env: nat -> RowEnv, n: nat, all: Swept<E>)
    returns (h: F.Fleet<E>, steps: seq<F.Step<E>>)
    requires n <= |ids| && p !in f.batches && Rising(ids, |f.rows|) && Midway(f, g, p, ids, env, n, all)
    ensures h == F.Exec(g, steps) && Midway(f, h, p, ids, env, |ids|, all)
    decreases |ids| - n
  {
    if n == |ids| {
      return g, [];
    }
    var g' := F.Next(g, F.Work(p, env(ids[n])));
    MidwayStep(f, g, g', p, ids, env, n, all);
    h, steps := MidwayRun(f, g', p, ids, env, n + 1, all);
    Prepend(g, F.Work(p, env(ids[n])), steps);
    steps := [F.Work(p, env(ids[n]))] + steps;
  }

  lemma {:induction false} ExecKeeps<E>(g: F.Fleet<E>, steps: seq<F.Step<E>>)
    requires F.Inv(g)
    ensures F.Inv(F.Exec(g, steps))
  {
    if steps != [] {
      ExecKeeps(g, steps[..|steps| - 1]);
      F.StepKeeps(F.Exec(g, steps[..|steps| - 1]), steps[|steps| - 1]);
    }
  }

  /** A tick beside other pollers is a run of the fleet: begin, one step a row, end. It leaves
      the rows and the topic as the tick does, and every other poller's batch alone. */
  lemma TickIsAFleetRun<E>(f: F.Fleet<E>, p: F.PollerId, env: TickEnv) returns (f': F.Fleet<E>, steps: seq<F.Step<E>>)
    requires F.Inv(f) && p !in f.batches && env.locked == F.Locked(f.batches)
    ensures f' == F.Exec(f, steps) && F.Inv(f') && f'.batches == f.batches
    ensures var t := Tick(f.rows, Messages(f.rows, f.log), env);
      f'.rows == t.rows && Messages(f'.rows, f'.log) == t.log
  {
    if env.selectFails {
      return f, [];
    }
    var begin := F.Begin(p, env.limit);
    var g := F.Next(f, begin);
    var ids := g.batches[p].ids;
    F.StepKeeps(f, begin);
    SelectSound(f.rows, env.locked, env.limit, 0);
    var all := Sweep(f.rows, Messages(f.rows, f.log), ids, env.row);
    assert Overlay(f.rows, map[]) == f.rows && ids[0..] == ids;
    assert g.batches - {p} == f.batches;
    var h, works := MidwayRun(f, g, p, ids, env.row, 0, all);
    ExecKeeps(g, works);
    var end := if env.commitFails then F.Rollback(p) else F.Commit(p);
    F.StepKeeps(h, end);
    TickEnds(f, h, p, ids, env, all);
    f', steps := F.Next(h, end), [begin] + works + [end];
    Around(f, begin, works, end);
  }

  lemma Around<E>(f: F.Fleet<E>, first: F.Step<E>, middle: seq<F.Step<E>>, last: F.Step<E>)
    ensures F.Exec(f, [first] + middle + [last]) == F.Next(F.Exec(F.Next(f, first), middle), last)
  {
    Prepend(f, first, middle);
    assert ([first] + middle + [last])[..|middle| + 1] == [first] + middle;
  }

  lemma {:induction false} Prepend<E>(f: F.Fleet<E>, first: F.Step<E>, rest: seq<F.Step<E>>)
    ensures F.Exec(f, [first] + rest) == F.Exec(F.Next(f, first), rest)
  {
    if rest == [] {
      assert [first] + rest == [first] && [first][..0] == [];
    } else {
      Prepend(f, first, rest[..|rest| - 1]);
      assert ([first] + rest)[..|rest|] == [first] + rest[..|rest| - 1];
    }
  }

  lemma TickEnds<E>(f: F.Fleet<E>, h: F.Fleet<E>, p: F.PollerId, ids: seq<nat>, env: TickEnv, all: Swept<E>)
    requires F.Inv(h) && p !in f.batches && Within(ids, |f.rows|) && Midway(f, h, p, ids, env.row, |ids|, all)
    ensures var f' := F.Next(h, if env.commitFails then F.Rollback(p) else F.Commit(p));
      && f'.batches == f.batches && f'.log == h.log && Messages(f.rows, h.log) == all.log
      && f'.rows == (if all.failed || env.commitFails then f.rows else all.rows)
      && |f'.rows| == |f.rows| && Messages(f'.rows, f'.log) == all.log
  {
    if p in h.batches {
      assert ids[|ids|..] == [];
      assert all == Swept(Overlay(f.rows, h.batches[p].draft), Messages(f.rows, h.log), false);
      if !env.commitFails {
        TickCommits(f, h, p);
      }
    }
  }

  lemma TickCommits<E>(f: F.Fleet<E>, h: F.Fleet<E>, p: F.PollerId)
    requires F.Inv(h) && h.rows == f.rows && p in h.batches && h.batches[p].next == |h.batches[p].ids|
    ensures var f' := F.Next(h, F.Commit(p));
      && f'.batches == h.batches - {p} && f'.log == h.log
      && f'.rows == Overlay(f.rows, h.batches[p].draft)
      && Messages(f'.rows, f'.log) == Messages(f.rows, h.log)
  {
    F.DraftsKeepEvents(f.rows, h.batches[p]);
  }
}
