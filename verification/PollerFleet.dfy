/** Any number of pollers over one outbox: who holds which row, and how often an event can
    end up on the topic. Messages are named by their row, which never changes its event. */
module PollerFleet {
  import opened Events
  import opened Outbox
  import opened Poller

  type PollerId = nat

  /** An open batch transaction: its locked rows, how far it is, the rows it has published with
      an acknowledgement, and its uncommitted row versions. */
  datatype Batch<+E> = Batch(ids: seq<nat>, next: nat, acked: set<nat>, draft: map<nat, Row<E>>)

  /** `lost` counts, per row, acknowledged publishes whose batch rolled back; `stray` counts the
      copies beyond the one acknowledged: repeated inside one publish call, or appended by a call
      that was refused. No step reads either. */
  datatype Fleet<+E> = Fleet(
    rows: seq<Entry<E>>, log: seq<nat>, batches: map<PollerId, Batch<E>>, lost: multiset<nat>, stray: multiset<nat>)

  datatype Step<+E> =
    | Insert(eid: EventId, event: E)
    | Begin(p: PollerId, limit: nat)
    | Work(p: PollerId, env: RowEnv)      // publish the next row of the batch and record the outcome
    | Commit(p: PollerId)
    | Rollback(p: PollerId)               // a crash or any database error, at any point

  function Locked<E>(batches: map<PollerId, Batch<E>>): set<nat> {
    set p, j | p in batches && j in batches[p].ids :: j
  }

  function Discard<E>(f: Fleet<E>, p: PollerId, acked: set<nat>): Fleet<E>
    requires p in f.batches
  {
    f.(batches := f.batches - {p}, lost := f.lost + multiset(acked))
  }

  function Next<E>(f: Fleet<E>, step: Step<E>): Fleet<E> {
    match step
    case Insert(eid, event) =>
      if exists k :: 0 <= k < |f.rows| && f.rows[k].eid == eid then f   // the unique index refuses it
      else f.(rows := f.rows + [Entry(eid, Fresh(event))])
    case Begin(p, limit) =>
      if p in f.batches then f
      else f.(batches := f.batches[p := Batch(Select(f.rows, Locked(f.batches), limit, 0), 0, {}, map[])])
    case Work(p, env) =>
      if p !in f.batches || f.batches[p].next >= |f.batches[p].ids| then f
      else
        var b := f.batches[p];
        var j := b.ids[b.next];
        if j >= |f.rows| then f
        else
          var row := f.rows[j].row;
          var published := f.log + Copies<nat>(j, Appended(env.publish));
          (match env.publish
           case Acked(extra) =>
             var g := f.(log := published, stray := f.stray + multiset(Copies<nat>(j, extra)));
             if env.markFails then Discard(g, p, b.acked + {j})
             else
               var b' := Batch(b.ids, b.next + 1, b.acked + {j}, b.draft[j := Sent(row)]);
               g.(batches := g.batches[p := b'])
           case Refused(copies) =>
             var draft := if env.incrementFails then b.draft else b.draft[j := Retried(row)];
             f.(log := published, stray := f.stray + multiset(Copies<nat>(j, copies)),
                batches := f.batches[p := Batch(b.ids, b.next + 1, b.acked, draft)]))
    case Commit(p) =>
      if p !in f.batches || f.batches[p].next < |f.batches[p].ids| then f
      else
        var draft := f.batches[p].draft;
        f.(rows := seq(|f.rows|, j requires 0 <= j < |f.rows| =>
             if j in draft then Entry(f.rows[j].eid, draft[j]) else f.rows[j]),
           batches := f.batches - {p})
    case Rollback(p) => if p in f.batches then Discard(f, p, f.batches[p].acked) else f
  }

  function Exec<E>(f: Fleet<E>, steps: seq<Step<E>>): Fleet<E> {
    if steps == [] then f else Next(Exec(f, steps[..|steps| - 1]), steps[|steps| - 1])
  }

  function Init<E>(): Fleet<E> {
    Fleet([], [], map[], multiset{}, multiset{})
  }

  // ---------------------------------------------------------------- who holds what

  /** One batch: distinct eligible rows, published in order, drafts only of rows passed. */
  ghost predicate BatchOk<E>(rows: seq<Entry<E>>, b: Batch<E>) {
    && Rising(b.ids, |rows|) && b.next <= |b.ids|
    && (forall k :: 0 <= k < |b.ids| ==> Eligible(rows[b.ids[k]].row))
    && (forall j :: j in b.acked <==> j in b.draft && b.draft[j].status == RowSent)
    && (forall j :: j in b.draft ==> j in b.ids[..b.next])
    && (forall j :: j in b.draft ==> j < |rows| && b.draft[j] in {Sent(rows[j].row), Retried(rows[j].row)})
  }

  ghost predicate Apart<E>(a: Batch<E>, b: Batch<E>) {
    forall j :: j in a.ids ==> j !in b.ids
  }

  /** No row is in two open batches. */
  ghost predicate Disjoint<E>(batches: map<PollerId, Batch<E>>) {
    forall p, q :: p in batches && q in batches && p != q ==> Apart(batches[p], batches[q])
  }

  ghost predicate InFlight<E>(batches: map<PollerId, Batch<E>>, j: nat) {
    exists p :: p in batches && j in batches[p].acked
  }

  ghost function Count(b: bool): nat {
    if b then 1 else 0
  }

  /** Every copy of a message is accounted for. */
  ghost predicate Accounted<E>(f: Fleet<E>, j: nat) {
    multiset(f.log)[j] ==
      Count(j < |f.rows| && f.rows[j].row.status == RowSent) + Count(InFlight(f.batches, j)) + f.lost[j] + f.stray[j]
  }

  ghost predicate Inv<E>(f: Fleet<E>) {
    && (forall p :: p in f.batches ==> BatchOk(f.rows, f.batches[p]))
    && Disjoint(f.batches)
    && (forall k :: 0 <= k < |f.log| ==> f.log[k] < |f.rows|)
    && (forall j :: Accounted(f, j))
    && (forall j :: 0 <= j < |f.rows| ==> f.rows[j].row.retries <= MAX_RETRIES)
  }

  lemma RowsSurvive<E>(rows: seq<Entry<E>>, rows': seq<Entry<E>>, b: Batch<E>)
    requires BatchOk(rows, b) && |rows| <= |rows'|
    requires forall k :: 0 <= k < |b.ids| ==> rows'[b.ids[k]].row == rows[b.ids[k]].row
    ensures BatchOk(rows', b)
  {
    forall j | j in b.draft ensures j < |rows'| && b.draft[j] in {Sent(rows'[j].row), Retried(rows'[j].row)} {
      var k :| 0 <= k < b.next && b.ids[..b.next][k] == j;
      assert b.ids[k] == j;
    }
  }

  lemma InsertKeeps<E>(f: Fleet<E>, eid: EventId, event: E)
    requires Inv(f)
    ensures Inv(Next(f, Insert(eid, event)))
  {
    var f' := Next(f, Insert(eid, event));
    if f' == f {
      return;
    }
    forall p | p in f.batches ensures BatchOk(f'.rows, f.batches[p]) {
      RowsSurvive(f.rows, f'.rows, f.batches[p]);
    }
    forall j ensures Accounted(f', j) {
      assert Accounted(f, j);
      if j == |f.rows| {
        assert j !in f.log;
      }
    }
  }

  lemma BeginKeeps<E>(f: Fleet<E>, p: PollerId, limit: nat)
    requires Inv(f)
    ensures Inv(Next(f, Begin(p, limit)))
  {
    if p !in f.batches {
      var f' := Next(f, Begin(p, limit));
      NewBatchIsApart(f, p, limit);
      assert forall q :: q in f'.batches ==> q == p || (q in f.batches && f'.batches[q] == f.batches[q]);
      forall j ensures Accounted(f', j) {
        assert Accounted(f, j);
        NewBatchFliesNothing(f.batches, p, f'.batches[p], j);
      }
    }
  }

  lemma NewBatchFliesNothing<E>(batches: map<PollerId, Batch<E>>, p: PollerId, b: Batch<E>, j: nat)
    requires p !in batches && b.acked == {}
    ensures InFlight(batches[p := b], j) <==> InFlight(batches, j)
  {
    if InFlight(batches, j) {
      var q :| q in batches && j in batches[q].acked;
      assert q in batches[p := b] && j in batches[p := b][q].acked;
    }
  }

  lemma NewBatchIsApart<E>(f: Fleet<E>, p: PollerId, limit: nat)
    requires Disjoint(f.batches) && p !in f.batches
    ensures Disjoint(Next(f, Begin(p, limit)).batches)
    ensures BatchOk(f.rows, Next(f, Begin(p, limit)).batches[p])
  {
    SelectSound(f.rows, Locked(f.batches), limit, 0);
    var b := Next(f, Begin(p, limit)).batches[p];
    assert forall k :: 0 <= k < |b.ids| ==> b.ids[k] in b.ids;
    forall q | q in f.batches ensures Apart(b, f.batches[q]) && Apart(f.batches[q], b) {
    }
  }

  /** The row a batch is about to publish: nobody else has it, and it is not yet published. */
  lemma NextIsOwn<E>(f: Fleet<E>, p: PollerId)
    requires Inv(f) && p in f.batches && f.batches[p].next < |f.batches[p].ids|
    ensures var j := f.batches[p].ids[f.batches[p].next];
      && j < |f.rows| && Eligible(f.rows[j].row) && !InFlight(f.batches, j) && j !in f.batches[p].draft
  {
    var b := f.batches[p];
    var j := b.ids[b.next];
    assert j in b.ids && j !in b.ids[..b.next];
    forall q | q in f.batches ensures j !in f.batches[q].acked {
      AckedAreHeld(f.rows, f.batches[q]);
      if q != p {
        assert Apart(b, f.batches[q]);
      }
    }
  }

  lemma AckedAreHeld<E>(rows: seq<Entry<E>>, b: Batch<E>)
    requires BatchOk(rows, b)
    ensures forall j :: j in b.acked ==> j in b.ids && j in b.ids[..b.next]
  {
    forall j | j in b.acked ensures j in b.ids && j in b.ids[..b.next] {
      AckedIsHeld(rows, b, j);
    }
  }

  lemma AckedIsHeld<E>(rows: seq<Entry<E>>, b: Batch<E>, j: nat)
    requires BatchOk(rows, b) && j in b.acked
    ensures j in b.ids && j in b.ids[..b.next] && j < |rows| && b.draft[j] == Sent(rows[j].row) && Eligible(rows[j].row)
  {
    var k :| 0 <= k < b.next && b.ids[..b.next][k] == j;
    assert b.ids[k] == j;
  }

  /** What a batch held, published and recorded, after one more row. */
  lemma BatchAdvances<E>(rows: seq<Entry<E>>, b: Batch<E>, row: Row<E>, acked: bool, recorded: bool)
    requires BatchOk(rows, b) && b.next < |b.ids| && b.ids[b.next] < |rows| && b.ids[b.next] !in b.draft
    requires recorded ==> row == if acked then Sent(rows[b.ids[b.next]].row) else Retried(rows[b.ids[b.next]].row)
    requires acked ==> recorded
    ensures var j := b.ids[b.next];
      BatchOk(rows, Batch(b.ids, b.next + 1, if acked then b.acked + {j} else b.acked,
                          if recorded then b.draft[j := row] else b.draft))
  {
    assert b.ids[..b.next + 1] == b.ids[..b.next] + [b.ids[b.next]];
    assert Eligible(rows[b.ids[b.next]].row);
  }

  lemma SameIdsStayApart<E>(batches: map<PollerId, Batch<E>>, p: PollerId, b: Batch<E>)
    requires Disjoint(batches) && p in batches && b.ids == batches[p].ids
    ensures Disjoint(batches[p := b])
  {
    forall q | q in batches && q != p ensures Apart(b, batches[q]) && Apart(batches[q], b) {
      assert Apart(batches[p], batches[q]) && Apart(batches[q], batches[p]);
    }
  }

  /** One batch replaced by another that is in order. */
  lemma BatchReplaced<E>(rows: seq<Entry<E>>, batches: map<PollerId, Batch<E>>, p: PollerId, b: Batch<E>)
    requires forall q :: q in batches ==> BatchOk(rows, batches[q])
    requires Disjoint(batches) && p in batches && b.ids == batches[p].ids && BatchOk(rows, b)
    ensures var batches' := batches[p := b]; forall q :: q in batches' ==> BatchOk(rows, batches'[q])
    ensures Disjoint(batches[p := b])
  {
    SameIdsStayApart(batches, p, b);
  }

  lemma CopiesCount(j: nat, n: nat, i: nat)
    ensures multiset(Copies<nat>(j, n))[i] == if i == j then n else 0
  {
    if n > 0 {
      CopiesCount(j, n - 1, i);
      assert Copies<nat>(j, n) == Copies<nat>(j, n - 1) + [j];
    }
  }

  lemma PublishIs<E>(f: Fleet<E>, p: PollerId, env: RowEnv)
    requires p in f.batches && f.batches[p].next < |f.batches[p].ids|
    requires f.batches[p].ids[f.batches[p].next] < |f.rows|
    requires env.publish.Acked? && !env.markFails
    ensures var b := f.batches[p];
      var j := b.ids[b.next];
      Next(f, Work(p, env)) == f.(
        log := f.log + Copies<nat>(j, 1 + env.publish.extra),
        stray := f.stray + multiset(Copies<nat>(j, env.publish.extra)),
        batches := f.batches[p := Batch(b.ids, b.next + 1, b.acked + {j}, b.draft[j := Sent(f.rows[j].row)])])
  {
  }

  lemma PublishKeeps<E>(f: Fleet<E>, p: PollerId, env: RowEnv)
    requires Inv(f) && p in f.batches && f.batches[p].next < |f.batches[p].ids|
    requires env.publish.Acked? && !env.markFails
    ensures Inv(Next(f, Work(p, env)))
  {
    var b := f.batches[p];
    var j := b.ids[b.next];
    NextIsOwn(f, p);
    PublishIs(f, p, env);
    BatchAdvances(f.rows, b, Sent(f.rows[j].row), true, true);
    var b' := Batch(b.ids, b.next + 1, b.acked + {j}, b.draft[j := Sent(f.rows[j].row)]);
    BatchReplaced(f.rows, f.batches, p, b');
    MoreMessages(f, Next(f, Work(p, env)), p, b', j, true, env.publish.extra);
  }

  /** The log grows by some strays, and by one copy more if its batch now holds the row. */
  lemma MoreMessages<E>(f: Fleet<E>, f': Fleet<E>, p: PollerId, b: Batch<E>, j: nat, acked: bool, strays: nat)
    requires p in f.batches && f'.batches == f.batches[p := b]
    requires forall i :: Accounted(f, i)
    requires f'.log == f.log + Copies<nat>(j, if acked then 1 + strays else strays)
    requires f'.stray == f.stray + multiset(Copies<nat>(j, strays)) && f'.rows == f.rows && f'.lost == f.lost
    requires b.acked == if acked then f.batches[p].acked + {j} else f.batches[p].acked
    requires acked ==> !InFlight(f.batches, j)
    ensures forall i :: Accounted(f', i)
  {
    forall i ensures Accounted(f', i) {
      assert Accounted(f, i);
      InFlightAfter(f.batches, p, b, i);
      CopiesCount(j, if acked then 1 + strays else strays, i);
      CopiesCount(j, strays, i);
    }
  }

  /** The batch after a refused publish. */
  ghost function AfterRefusal<E>(rows: seq<Entry<E>>, b: Batch<E>, env: RowEnv): Batch<E>
    requires b.next < |b.ids| && b.ids[b.next] < |rows|
  {
    var j := b.ids[b.next];
    Batch(b.ids, b.next + 1, b.acked, if env.incrementFails then b.draft else b.draft[j := Retried(rows[j].row)])
  }

  lemma RefusalIs<E>(f: Fleet<E>, p: PollerId, env: RowEnv)
    requires p in f.batches && f.batches[p].next < |f.batches[p].ids|
    requires f.batches[p].ids[f.batches[p].next] < |f.rows|
    requires env.publish.Refused?
    ensures var j := f.batches[p].ids[f.batches[p].next];
      Next(f, Work(p, env)) == f.(
        log := f.log + Copies<nat>(j, env.publish.copies),
        stray := f.stray + multiset(Copies<nat>(j, env.publish.copies)),
        batches := f.batches[p := AfterRefusal(f.rows, f.batches[p], env)])
  {
  }

  lemma RefusalKeeps<E>(f: Fleet<E>, p: PollerId, env: RowEnv)
    requires Inv(f) && p in f.batches && f.batches[p].next < |f.batches[p].ids|
    requires env.publish.Refused?
    ensures Inv(Next(f, Work(p, env)))
  {
    var b := f.batches[p];
    var j := b.ids[b.next];
    NextIsOwn(f, p);
    RefusalIs(f, p, env);
    BatchAdvances(f.rows, b, Retried(f.rows[j].row), false, !env.incrementFails);
    BatchReplaced(f.rows, f.batches, p, AfterRefusal(f.rows, b, env));
    MoreMessages(f, Next(f, Work(p, env)), p, AfterRefusal(f.rows, b, env), j, false, env.publish.copies);
  }

  lemma InFlightAfter<E>(batches: map<PollerId, Batch<E>>, p: PollerId, b: Batch<E>, i: nat)
    requires p in batches && batches[p].acked <= b.acked
    ensures InFlight(batches[p := b], i) <==> InFlight(batches, i) || i in b.acked
  {
    var batches' := batches[p := b];
    if InFlight(batches, i) {
      var q :| q in batches && i in batches[q].acked;
      assert q in batches' && i in batches'[q].acked;
    }
    if i in b.acked {
      assert p in batches' && i in batches'[p].acked;
    }
  }

  /** Without one batch, what is in flight is what the others published. */
  lemma InFlightWithout<E>(f: Fleet<E>, p: PollerId, i: nat)
    requires Inv(f) && p in f.batches
    ensures InFlight(f.batches - {p}, i) <==> InFlight(f.batches, i) && i !in f.batches[p].acked
  {
    var rest := f.batches - {p};
    AckedAreHeld(f.rows, f.batches[p]);
    forall q | q in rest && i in rest[q].acked ensures InFlight(f.batches, i) && i !in f.batches[p].acked {
      assert q in f.batches && i in f.batches[q].acked;
      AckedAreHeld(f.rows, f.batches[q]);
      assert Apart(f.batches[q], f.batches[p]);
    }
    if InFlight(f.batches, i) && i !in f.batches[p].acked {
      var q :| q in f.batches && i in f.batches[q].acked;
      assert q in rest && i in rest[q].acked;
    }
  }

  lemma RollbackKeeps<E>(f: Fleet<E>, p: PollerId)
    requires Inv(f) && p in f.batches
    ensures Inv(Discard(f, p, f.batches[p].acked))
  {
    var f' := Discard(f, p, f.batches[p].acked);
    forall i ensures Accounted(f', i) {
      assert Accounted(f, i);
      InFlightWithout(f, p, i);
      if i in f.batches[p].acked {
        assert InFlight(f.batches, i);
      }
    }
  }

  lemma FailedMarkIs<E>(f: Fleet<E>, p: PollerId, env: RowEnv)
    requires p in f.batches && f.batches[p].next < |f.batches[p].ids|
    requires f.batches[p].ids[f.batches[p].next] < |f.rows|
    requires env.publish.Acked? && env.markFails
    ensures var b := f.batches[p];
      var j := b.ids[b.next];
      Next(f, Work(p, env)) == f.(
        log := f.log + Copies<nat>(j, 1 + env.publish.extra),
        stray := f.stray + multiset(Copies<nat>(j, env.publish.extra)),
        lost := f.lost + multiset(b.acked + {j}), batches := f.batches - {p})
  {
  }

  /** A failed mark: the row just published is lost with the rest of its batch. */
  lemma FailedMarkKeeps<E>(f: Fleet<E>, p: PollerId, env: RowEnv)
    requires Inv(f) && p in f.batches && f.batches[p].next < |f.batches[p].ids|
    requires env.publish.Acked? && env.markFails
    ensures Inv(Next(f, Work(p, env)))
  {
    NextIsOwn(f, p);
    FailedMarkIs(f, p, env);
    var b, f' := f.batches[p], Next(f, Work(p, env));
    assert !InFlight(f.batches, b.ids[b.next]) && b.ids[b.next] !in b.acked;
    forall i ensures Accounted(f', i) {
      InFlightWithout(f, p, i);
      assert i in b.acked ==> InFlight(f.batches, i);
      LostAreAccounted(f, f', p, b.ids[b.next], env.publish.extra, i);
    }
  }

  /** What a batch had published, and the row it has published just now, counts as lost. */
  lemma LostAreAccounted<E>(f: Fleet<E>, f': Fleet<E>, p: PollerId, j: nat, extra: nat, i: nat)
    requires p in f.batches && j !in f.batches[p].acked && Accounted(f, i)
    requires f'.log == f.log + Copies<nat>(j, 1 + extra) && f'.stray == f.stray + multiset(Copies<nat>(j, extra))
    requires f'.rows == f.rows && f'.lost == f.lost + multiset(f.batches[p].acked + {j})
    requires InFlight(f'.batches, i) <==> InFlight(f.batches, i) && i !in f.batches[p].acked
    requires i in f.batches[p].acked ==> InFlight(f.batches, i)
    ensures Accounted(f', i)
  {
    CopiesCount(j, 1 + extra, i);
    CopiesCount(j, extra, i);
  }

  lemma CommitKeeps<E>(f: Fleet<E>, p: PollerId)
    requires Inv(f) && p in f.batches && f.batches[p].next == |f.batches[p].ids|
    ensures Inv(Next(f, Commit(p)))
  {
    var f' := Next(f, Commit(p));
    var b := f.batches[p];
    DraftIsHeld(f.rows, b);
    forall q | q in f'.batches ensures BatchOk(f'.rows, f'.batches[q]) {
      OthersSurviveCommit(f, p, q);
    }
    forall i ensures Accounted(f', i) {
      CommitAccounts(f, p, i);
    }
  }

  lemma DraftIsHeld<E>(rows: seq<Entry<E>>, b: Batch<E>)
    requires BatchOk(rows, b)
    ensures forall j :: j in b.draft ==> j in b.ids && j < |rows| && Eligible(rows[j].row)
  {
    forall j | j in b.draft ensures j in b.ids && j < |rows| && Eligible(rows[j].row) {
      var k :| 0 <= k < b.next && b.ids[..b.next][k] == j;
      assert b.ids[k] == j;
    }
  }

  lemma DraftsKeepEvents<E>(rows: seq<Entry<E>>, b: Batch<E>)
    requires BatchOk(rows, b)
    ensures forall j :: j in b.draft ==> j < |rows| && b.draft[j].event == rows[j].row.event
  {
  }

  lemma OthersSurviveCommit<E>(f: Fleet<E>, p: PollerId, q: PollerId)
    requires Inv(f) && p in f.batches && f.batches[p].next == |f.batches[p].ids| && q in f.batches && q != p
    ensures BatchOk(Next(f, Commit(p)).rows, f.batches[q])
  {
    var b, c, rows' := f.batches[p], f.batches[q], Next(f, Commit(p)).rows;
    DraftIsHeld(f.rows, b);
    assert Apart(c, b);
    forall k | 0 <= k < |c.ids| ensures rows'[c.ids[k]].row == f.rows[c.ids[k]].row {
      assert c.ids[k] in c.ids;
    }
    RowsSurvive(f.rows, rows', c);
  }

  lemma CommitAccounts<E>(f: Fleet<E>, p: PollerId, i: nat)
    requires Inv(f) && p in f.batches && f.batches[p].next == |f.batches[p].ids|
    ensures Accounted(Next(f, Commit(p)), i)
  {
    assert Accounted(f, i);
    InFlightWithout(f, p, i);
    DraftIsHeld(f.rows, f.batches[p]);
    if i in f.batches[p].acked {
      AckedIsHeld(f.rows, f.batches[p], i);
      assert InFlight(f.batches, i);
    }
  }

  lemma StepKeeps<E>(f: Fleet<E>, step: Step<E>)
    requires Inv(f)
    ensures Inv(Next(f, step))
  {
    match step
    case Insert(eid, event) => InsertKeeps(f, eid, event);
    case Begin(p, limit) => BeginKeeps(f, p, limit);
    case Work(p, env) =>
      if p in f.batches && f.batches[p].next < |f.batches[p].ids| {
        if env.publish.Acked? && env.markFails {
          FailedMarkKeeps(f, p, env);
        } else if env.publish.Acked? {
          PublishKeeps(f, p, env);
        } else {
          RefusalKeeps(f, p, env);
        }
      }
    case Commit(p) =>
      if p in f.batches && f.batches[p].next >= |f.batches[p].ids| {
        CommitKeeps(f, p);
      }
    case Rollback(p) =>
      if p in f.batches {
        RollbackKeeps(f, p);
      }
  }

  lemma {:induction false} RunKeeps<E>(steps: seq<Step<E>>)
    ensures Inv(Exec(Init<E>(), steps))
  {
    if steps == [] {
      forall j ensures Accounted(Init<E>(), j) {
      }
    } else {
      RunKeeps(steps[..|steps| - 1]);
      StepKeeps(Exec(Init<E>(), steps[..|steps| - 1]), steps[|steps| - 1]);
    }
  }

  /** Over every run of any number of pollers: no row is held by two open batches; a row marked
      sent has been published; everything on the topic is a row of the table; and the copies of
      an event number at most one, plus its publishes in batches that rolled back, plus the strays
      of its publish calls. */
  lemma AtLeastOnceWithAccountedDuplicates<E>(steps: seq<Step<E>>, j: nat, p: PollerId, q: PollerId)
    ensures var f := Exec(Init<E>(), steps);
      && (p in f.batches && q in f.batches && p != q && j in f.batches[p].ids ==> j !in f.batches[q].ids)
      && (j < |f.rows| && f.rows[j].row.status == RowSent ==> j in f.log)
      && (j in f.log ==> j < |f.rows|)
      && Accounted(f, j) && multiset(f.log)[j] <= 1 + f.lost[j] + f.stray[j]
      && (j < |f.rows| && f.rows[j].row.status == RowSent ==> !InFlight(f.batches, j))
  {
    RunKeeps(steps);
    var f := Exec(Init<E>(), steps);
    assert Accounted(f, j);
    if p in f.batches && q in f.batches && p != q {
      assert Apart(f.batches[p], f.batches[q]);
    }
    if InFlight(f.batches, j) {
      var r :| r in f.batches && j in f.batches[r].acked;
      AckedIsHeld(f.rows, f.batches[r], j);
    }
  }
}
