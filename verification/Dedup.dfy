/** Idempotent consumption: look the event up in `processed_events`, run the handler,
    mark the event, all in one transaction. Here for any business state and any handler;
    the inventory and order services instantiate it. */
module Dedup {
  import opened Events

  /** A service database: its business tables and `processed_events`, whose value is the
      position of the event in commit order (the role `processed_at` plays in the table). */
  datatype Store<+S> = Store(data: S, processed: map<EventId, nat>)

  /** The transaction. None is an error: the handler failed and everything rolls back. */
  function Process<S>(t: Store<S>, eid: EventId, fn: S -> Option<S>): Option<Store<S>> {
    if eid in t.processed then Some(t)
    else
      match fn(t.data)
      case None => None
      case Some(d) => Some(Store(d, t.processed[eid := |t.processed|]))
  }

  /** The database afterwards, whether the transaction committed or rolled back. */
  function After<S>(t: Store<S>, eid: EventId, fn: S -> Option<S>): Store<S> {
    match Process(t, eid, fn)
    case None => t
    case Some(t') => t'
  }

  // ---------------------------------------------------------------- concurrent consumers

  type WorkerId = nat

  /** A transaction in progress; `skip` is what its own lookup of the event id answered. */
  datatype Work<+M> = Work(eid: EventId, body: M, skip: bool)

  /** `history` records the committed messages in commit order; no step reads it. */
  datatype Fleet<+S, +M> = Fleet(store: Store<S>, workers: map<WorkerId, Work<M>>, history: seq<Work<M>>)

  datatype Step<+M> =
    | Begin(w: WorkerId, eid: EventId, body: M)  // any delivery: first, repeated or concurrent
    | Finish(w: WorkerId)                        // run the handler, mark, commit
    | Abort(w: WorkerId)                         // any database error, crash or lost connection

  function Next<S, M>(f: Fleet<S, M>, fn: (S, M) -> Option<S>, step: Step<M>): Fleet<S, M> {
    match step
    case Begin(w, eid, body) =>
      if w in f.workers then f
      else f.(workers := f.workers[w := Work(eid, body, eid in f.store.processed)])
    case Abort(w) => f.(workers := f.workers - {w})
    case Finish(w) =>
      if w !in f.workers then f
      else
        var work := f.workers[w];
        var rest := f.workers - {w};
        // The lookup may be stale by now: the primary key then refuses the second mark.
        if work.skip || work.eid in f.store.processed then f.(workers := rest)
        else
          match fn(f.store.data, work.body)
          case None => f.(workers := rest)
          case Some(d) =>
            Fleet(Store(d, f.store.processed[work.eid := |f.store.processed|]), rest, f.history + [work])
  }

  function Exec<S, M>(f: Fleet<S, M>, fn: (S, M) -> Option<S>, steps: seq<Step<M>>): Fleet<S, M> {
    if steps == [] then f
    else Next(Exec(f, fn, steps[..|steps| - 1]), fn, steps[|steps| - 1])
  }

  function Start<S, M>(data: S): Fleet<S, M> {
    Fleet(Store(data, map[]), map[], [])
  }

  /** The reference: apply each message of a list once, in order; None if a handler fails. */
  function Serial<S, M>(data: S, fn: (S, M) -> Option<S>, msgs: seq<Work<M>>): Option<S> {
    if msgs == [] then Some(data)
    else
      match Serial(data, fn, msgs[..|msgs| - 1])
      case None => None
      case Some(d) => fn(d, msgs[|msgs| - 1].body)
  }

  ghost predicate Distinct<M>(msgs: seq<Work<M>>) {
    forall i, j :: 0 <= i < j < |msgs| ==> msgs[i].eid != msgs[j].eid
  }

  ghost predicate Marks<M>(processed: map<EventId, nat>, msgs: seq<Work<M>>) {
    && |processed| == |msgs|
    && (forall i :: 0 <= i < |msgs| ==> msgs[i].eid in processed && processed[msgs[i].eid] == i)
    && (forall e :: e in processed ==> processed[e] < |msgs| && msgs[processed[e]].eid == e)
  }

  ghost predicate EachOnce<S, M>(f: Fleet<S, M>, data: S, fn: (S, M) -> Option<S>) {
    && Serial(data, fn, f.history) == Some(f.store.data)
    && Distinct(f.history)
    && Marks(f.store.processed, f.history)
    && (forall w :: w in f.workers && f.workers[w].skip ==> f.workers[w].eid in f.store.processed)
  }

  lemma OneMoreMark<M>(processed: map<EventId, nat>, msgs: seq<Work<M>>, work: Work<M>)
    requires Marks(processed, msgs) && Distinct(msgs) && work.eid !in processed
    ensures Marks(processed[work.eid := |processed|], msgs + [work]) && Distinct(msgs + [work])
  {
    forall i | 0 <= i < |msgs| ensures msgs[i].eid != work.eid {
      assert msgs[i].eid in processed;
    }
  }

  lemma OneMoreApplied<S, M>(data: S, fn: (S, M) -> Option<S>, msgs: seq<Work<M>>, d: S, work: Work<M>)
    requires Serial(data, fn, msgs) == Some(d)
    ensures Serial(data, fn, msgs + [work]) == fn(d, work.body)
  {
    assert (msgs + [work])[..|msgs|] == msgs;
  }

  lemma CommitKeepsEachOnce<S, M>(f: Fleet<S, M>, data: S, fn: (S, M) -> Option<S>, w: WorkerId)
    requires EachOnce(f, data, fn)
    requires w in f.workers && f.workers[w].eid !in f.store.processed
    ensures EachOnce(Next(f, fn, Finish(w)), data, fn)
  {
    var work := f.workers[w];
    OneMoreMark(f.store.processed, f.history, work);
    OneMoreApplied(data, fn, f.history, f.store.data, work);
  }

  /** Exactly-once effect. Whatever is delivered, however often, by however many workers at
      once and whatever aborts: the business state is that of applying each committed message
      once, in commit order, and `processed_events` holds exactly those messages' ids. */
  lemma {:induction false} ExactlyOnce<S, M>(data: S, fn: (S, M) -> Option<S>, steps: seq<Step<M>>)
    ensures EachOnce(Exec(Start(data), fn, steps), data, fn)
  {
    if steps != [] {
      var before, last := steps[..|steps| - 1], steps[|steps| - 1];
      ExactlyOnce(data, fn, before);
      var f := Exec(Start(data), fn, before);
      if last.Finish? && last.w in f.workers && f.workers[last.w].eid !in f.store.processed {
        CommitKeepsEachOnce(f, data, fn, last.w);
      }
    }
  }

  /** Two steps act as one: in every reachable state, finishing a transaction whose lookup was
      made some steps ago, and may be stale, does what looking up and finishing now would do. */
  lemma FinishIsProcess<S, M>(data: S, fn: (S, M) -> Option<S>, steps: seq<Step<M>>, w: WorkerId)
    requires w in Exec(Start(data), fn, steps).workers
    ensures var f := Exec(Start(data), fn, steps);
      var work := f.workers[w];
      Next(f, fn, Finish(w)).store == After(f.store, work.eid, (d: S) => fn(d, work.body))
  {
    ExactlyOnce(data, fn, steps);
  }

  /** A delivery that meets no other and does not abort, in any reachable state: a worker that is
      free looks up and finishes, and the database is that of the transaction. */
  lemma DeliveredIsProcessed<S, M>(data: S, fn: (S, M) -> Option<S>, steps: seq<Step<M>>,
                                   w: WorkerId, eid: EventId, body: M)
    requires w !in Exec(Start(data), fn, steps).workers
    ensures var f := Exec(Start(data), fn, steps);
      Next(Next(f, fn, Begin(w, eid, body)), fn, Finish(w)).store == After(f.store, eid, (d: S) => fn(d, body))
  {
    var all := steps + [Begin(w, eid, body)];
    assert all[..|steps|] == steps;
    FinishIsProcess(data, fn, all, w);
  }

  /** A handling that raises no error leaves its event marked; a repeated one changes nothing,
      and an error changes nothing at all. */
  lemma ProcessMarks<S>(t: Store<S>, eid: EventId, fn: S -> Option<S>)
    ensures Process(t, eid, fn).Some? ==> eid in After(t, eid, fn).processed
    ensures After(After(t, eid, fn), eid, fn) == After(t, eid, fn)
    ensures Process(t, eid, fn).None? ==> After(t, eid, fn) == t
    ensures forall e :: e in t.processed ==>
      e in After(t, eid, fn).processed && After(t, eid, fn).processed[e] == t.processed[e]
  {
  }
}
