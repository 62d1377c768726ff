/** The consumer loop on one partition: fetch in offset order, handle, commit after a handler
    that returned nil, and carry on after one that did not. */
module Consumer {
  import R = Retry

  /** What one turn of the loop meets. A handler that panics is recovered and counts as failed. */
  datatype Turn =
    | FetchFails
    | Delivered(handlerOk: bool, commitOk: bool)
    | Restart  // a crash or a rebalance: a new reader resumes at the committed offset

  /** `done` and `failed` record the offsets whose handler has ever returned nil, or has not. */
  datatype Partition = Partition(committed: nat, position: nat, backoff: nat, done: set<nat>, failed: set<nat>)

  const MAX_BACKOFF: nat := 10

  const FRESH := Partition(0, 0, 1, {}, {})

  function Next(p: Partition, end: nat, turn: Turn): Partition {
    match turn
    case FetchFails => p.(backoff := if 2 * p.backoff < MAX_BACKOFF then 2 * p.backoff else MAX_BACKOFF)
    case Restart => p.(position := p.committed, backoff := 1)
    case Delivered(handlerOk, commitOk) =>
      if p.position >= end then p
      else if !handlerOk then p.(position := p.position + 1, backoff := 1, failed := p.failed + {p.position})
      else
        var committed := if commitOk then p.position + 1 else p.committed;
        Partition(committed, p.position + 1, 1, p.done + {p.position}, p.failed)
  }

  function Run(p: Partition, end: nat, turns: seq<Turn>): Partition {
    if turns == [] then p else Next(Run(p, end, turns[..|turns| - 1]), end, turns[|turns| - 1])
  }

  class Reader {
    var committed: nat
    var position: nat
    var backoff: nat
    ghost var done: set<nat>
    ghost var failed: set<nat>

    ghost function State(): Partition
      reads this
    {
      Partition(committed, position, backoff, done, failed)
    }

    constructor ()
      ensures State() == FRESH
    {
      committed, position, backoff := 0, 0, 1;
      done, failed := {}, {};
    }

    /** The loop, for as many turns as the process lives. */
    method Consume(end: nat, turns: seq<Turn>)
      modifies this
      ensures State() == Run(old(State()), end, turns)
    {
      var i := 0;
      while i < |turns|
        invariant i <= |turns|
        invariant State() == Run(old(State()), end, turns[..i])
      {
        assert turns[..i + 1][..i] == turns[..i];
        var turn := turns[i];
        if turn.Restart? {
          position, backoff := committed, 1;
        } else if turn.FetchFails? {
          backoff := if backoff * 2 < MAX_BACKOFF then backoff * 2 else MAX_BACKOFF;
        } else if position < end {
          var offset := position;
          position, backoff := position + 1, 1;
          if turn.handlerOk {
            done := done + {offset};
            if turn.commitOk {
              committed := offset + 1;
            }
          } else {
            failed := failed + {offset};
          }
        }
        i := i + 1;
      }
      assert turns[..|turns|] == turns;
    }
  }

  /** At-least-once, exactly as far as it goes: every offset below the committed position has
      been given to a handler; the only ones that may never have been handled to the end are
      those whose handler failed. Commits never move back, and no offset from the committed
      position on is lost to a restart. */
  lemma {:induction false} CommittedIsAttempted(end: nat, turns: seq<Turn>)
    ensures var p := Run(FRESH, end, turns);
      && p.committed <= p.position <= end
      && (forall o :: 0 <= o < p.position ==> o in p.done || o in p.failed)
      && 1 <= p.backoff <= MAX_BACKOFF
      && (forall turn :: p.committed <= Next(p, end, turn).committed)
      && Next(p, end, Restart).position == p.committed
  {
    if turns != [] {
      CommittedIsAttempted(end, turns[..|turns| - 1]);
    }
  }

  ghost predicate NoHandlerFails(turns: seq<Turn>) {
    forall i :: 0 <= i < |turns| ==> turns[i].Delivered? ==> turns[i].handlerOk
  }

  lemma {:induction false} NothingFails(end: nat, turns: seq<Turn>)
    requires NoHandlerFails(turns)
    ensures Run(FRESH, end, turns).failed == {}
  {
    if turns != [] {
      NothingFails(end, turns[..|turns| - 1]);
    }
  }

  /** Prefix safety: in a run in which no handler call fails, every offset below the committed
      position has been handled, across crashes, failed commits and redelivery. */
  lemma PrefixSafety(end: nat, turns: seq<Turn>)
    requires NoHandlerFails(turns)
    ensures forall o :: 0 <= o < Run(FRESH, end, turns).committed ==> o in Run(FRESH, end, turns).done
  {
    CommittedIsAttempted(end, turns);
    NothingFails(end, turns);
  }

  ghost predicate PrefixHandled(p: Partition) {
    forall o :: 0 <= o < p.committed ==> o in p.done
  }

  /** The one way to lose it, turn by turn: committing over an offset that has not been handled. */
  lemma LostExactlyByCommittingOver(end: nat, turns: seq<Turn>, turn: Turn)
    requires PrefixHandled(Run(FRESH, end, turns))
    ensures var p := Run(FRESH, end, turns);
      PrefixHandled(Next(p, end, turn)) <==> !CommitsOver(p, end, turn)
  {
    CommittedIsAttempted(end, turns);
    var p := Run(FRESH, end, turns);
    var p' := Next(p, end, turn);
    if turn == Delivered(true, true) && p.position < end {
      if o :| p.committed <= o < p.position && o !in p.done {
        assert o < p'.committed && o !in p'.done;
      }
    }
  }

  lemma {:induction false} Join(p: Partition, end: nat, a: seq<Turn>, b: seq<Turn>)
    ensures Run(p, end, a + b) == Run(Run(p, end, a), end, b)
  {
    if b == [] {
      assert a + b == a;
    } else {
      var all := a + b;
      assert all[..|all| - 1] == a + b[..|b| - 1] && all[|all| - 1] == b[|b| - 1];
      Join(p, end, a, b[..|b| - 1]);
    }
  }

  /** Loss is for good: an offset that was committed over and not handled is never handled,
      however the loop goes on and however often it restarts. */
  lemma {:induction false} LossIsForGood(p: Partition, end: nat, more: seq<Turn>, o: nat)
    requires o < p.committed <= p.position && o !in p.done
    ensures var q := Run(p, end, more);
      o !in q.done && p.committed <= q.committed <= q.position
  {
    if more != [] {
      LossIsForGood(p, end, more[..|more| - 1], o);
    }
  }

  /** In every reachable state, a failed turn followed by a committed one loses an offset that
      has not been handled before, in every continuation. */
  lemma FailureIsSkipped(end: nat, turns: seq<Turn>, commitOk: bool, more: seq<Turn>)
    requires var p := Run(FRESH, end, turns); p.position + 1 < end && p.position !in p.done
    ensures var p := Run(FRESH, end, turns);
      var q := Run(p, end, [Delivered(false, commitOk), Delivered(true, true)] + more);
      p.position < q.committed && p.position !in q.done
  {
    CommittedIsAttempted(end, turns);
    var p := Run(FRESH, end, turns);
    var a, b := Delivered(false, commitOk), Delivered(true, true);
    assert [a, b][..1] == [a] && [a][..0] == [];
    assert Run(p, end, [a]) == Next(p, end, a);
    assert Run(p, end, [a, b]) == Next(Next(p, end, a), end, b);
    Join(p, end, [a, b], more);
    LossIsForGood(Run(p, end, [a, b]), end, more, p.position);
  }

  /** What one delivery does in any reachable state: the offset is attempted and passed; and the
      committed position moves only if the handler returned nil and the commit was acknowledged,
      and then to just behind the offset. */
  lemma OneDelivery(end: nat, turns: seq<Turn>, handlerOk: bool, commitOk: bool)
    requires Run(FRESH, end, turns).position < end
    ensures var p := Run(FRESH, end, turns);
      var q := Next(p, end, Delivered(handlerOk, commitOk));
      && q.position == p.position + 1 && q.backoff == 1
      && q.committed == (if handlerOk && commitOk then p.position + 1 else p.committed)
      && q.done == (if handlerOk then p.done + {p.position} else p.done)
  {
  }

  lemma {:induction false} SettledStays(p: Partition, end: nat, more: seq<Turn>, o: nat)
    requires o < p.committed <= p.position && o in p.done
    ensures var q := Run(p, end, more); o < q.committed <= q.position && o in q.done
  {
    if more != [] {
      SettledStays(p, end, more[..|more| - 1], o);
    }
  }

  /** A handled and acknowledged offset is settled: whatever follows, crashes included, it stays
      committed and is never fetched again. */
  lemma AcknowledgedIsSettled(end: nat, turns: seq<Turn>, more: seq<Turn>)
    requires Run(FRESH, end, turns).position < end
    ensures var p := Run(FRESH, end, turns);
      var q := Run(p, end, [Delivered(true, true)] + more);
      p.position < q.committed && p.position < q.position && p.position in q.done
  {
    CommittedIsAttempted(end, turns);
    OneDelivery(end, turns, true, true);
    var p := Run(FRESH, end, turns);
    assert [Delivered(true, true)][..0] == [];
    assert Run(p, end, [Delivered(true, true)]) == Next(p, end, Delivered(true, true));
    Join(p, end, [Delivered(true, true)], more);
    SettledStays(Next(p, end, Delivered(true, true)), end, more, p.position);
  }

  /** The fetch backoff: 1, 2, 4, 8 seconds and then 10, for as long as fetches fail, with nothing
      else changing; and 1 again after a fetch that does not. */
  lemma {:induction false} BackoffDoubles(p: Partition, end: nat, n: nat)
    requires p.backoff == 1
    ensures Run(p, end, seq(n, _ => FetchFails)) == p.(backoff := R.Min(R.Pow2(n), 10))
  {
    if n > 0 {
      var turns := seq(n, _ => FetchFails);
      assert turns[..n - 1] == seq(n - 1, _ => FetchFails);
      BackoffDoubles(p, end, n - 1);
    }
  }

  /** The turn commits over an offset that has not been handled. */
  ghost predicate CommitsOver(p: Partition, end: nat, turn: Turn) {
    turn == Delivered(true, true) && p.position < end && exists o :: p.committed <= o < p.position && o !in p.done
  }

  ghost predicate NeverCommitsOver(end: nat, turns: seq<Turn>) {
    forall i :: 0 <= i < |turns| ==> !CommitsOver(Run(FRESH, end, turns[..i]), end, turns[i])
  }

  lemma OneMoreTurn(end: nat, turns: seq<Turn>)
    requires turns != []
    ensures var before := turns[..|turns| - 1];
      NeverCommitsOver(end, turns) <==>
        (NeverCommitsOver(end, before) && !CommitsOver(Run(FRESH, end, before), end, turns[|turns| - 1]))
  {
    var before := turns[..|turns| - 1];
    assert forall i :: 0 <= i < |before| ==> before[..i] == turns[..i] && before[i] == turns[i];
  }

  /** Whole runs: the committed prefix has been handled if and only if no turn of the run ever
      committed over an offset not handled by then. */
  lemma {:induction false} PrefixHandledExactly(end: nat, turns: seq<Turn>)
    ensures PrefixHandled(Run(FRESH, end, turns)) <==> NeverCommitsOver(end, turns)
  {
    if turns != [] {
      var before, turn := turns[..|turns| - 1], turns[|turns| - 1];
      OneMoreTurn(end, turns);
      PrefixHandledExactly(end, before);
      if PrefixHandled(Run(FRESH, end, before)) {
        LostExactlyByCommittingOver(end, before, turn);
      } else {
        StaysLost(end, before, turn);
      }
    }
  }

  lemma StaysLost(end: nat, turns: seq<Turn>, turn: Turn)
    requires !PrefixHandled(Run(FRESH, end, turns))
    ensures !PrefixHandled(Next(Run(FRESH, end, turns), end, turn))
  {
    CommittedIsAttempted(end, turns);
    var p := Run(FRESH, end, turns);
    var o :| 0 <= o < p.committed && o !in p.done;
    assert o !in Next(p, end, turn).done;
  }

  // ---------------------------------------------------------------- message headers

  /** A header list read back as a map. */
  function AsMap(headers: seq<(string, string)>): map<string, string> {
    if headers == [] then map[]
    else AsMap(headers[..|headers| - 1])[headers[|headers| - 1].0 := headers[|headers| - 1].1]
  }

  ghost predicate LastOfItsKey(headers: seq<(string, string)>, i: int) {
    0 <= i < |headers| && forall j :: i < j < |headers| ==> headers[j].0 != headers[i].0
  }

  lemma AsMapOneMore(headers: seq<(string, string)>, h: (string, string))
    ensures AsMap(headers + [h]) == AsMap(headers)[h.0 := h.1]
  {
    assert (headers + [h])[..|headers|] == headers;
  }

  /** The value of a key is that of the header at the greatest index with that key. */
  lemma {:induction false} LastWins(headers: seq<(string, string)>, i: int)
    requires LastOfItsKey(headers, i)
    ensures headers[i].0 in AsMap(headers) && AsMap(headers)[headers[i].0] == headers[i].1
  {
    var before, last := headers[..|headers| - 1], headers[|headers| - 1];
    assert headers == before + [last];
    AsMapOneMore(before, last);
    if i < |before| {
      assert before[i] == headers[i] && last.0 != headers[i].0;
      assert LastOfItsKey(before, i);
      LastWins(before, i);
    }
  }

  /** Every key of the map is some header's. */
  lemma {:induction false} HeaderOf(headers: seq<(string, string)>, k: string) returns (i: nat)
    requires k in AsMap(headers)
    ensures i < |headers| && headers[i].0 == k
  {
    var before, last := headers[..|headers| - 1], headers[|headers| - 1];
    if k == last.0 {
      return |before|;
    }
    i := HeaderOf(before, k);
  }

  method FromHeaders(headers: seq<(string, string)>) returns (h: map<string, string>)
    ensures h == AsMap(headers)
    ensures forall i :: LastOfItsKey(headers, i) ==> headers[i].0 in h && h[headers[i].0] == headers[i].1
    ensures forall k :: k in h ==> exists i :: 0 <= i < |headers| && headers[i].0 == k
  {
    h := map[];
    for i := 0 to |headers|
      invariant h == AsMap(headers[..i])
    {
      assert headers[..i + 1] == headers[..i] + [headers[i]];
      AsMapOneMore(headers[..i], headers[i]);
      h := h[headers[i].0 := headers[i].1];
    }
    assert headers[..|headers|] == headers;
    forall i | LastOfItsKey(headers, i) ensures headers[i].0 in h && h[headers[i].0] == headers[i].1 {
      LastWins(headers, i);
    }
    forall k | k in h ensures exists i :: 0 <= i < |headers| && headers[i].0 == k {
      var i := HeaderOf(headers, k);
    }
  }

  /** Writing headers in any order and reading them back gives the same map. */
  method ToHeaders(h: map<string, string>) returns (headers: seq<(string, string)>)
    ensures AsMap(headers) == h && |headers| == |h|
  {
    headers := [];
    var rest := h;
    while rest != map[]
      invariant rest.Keys <= h.Keys && forall k :: k in rest ==> rest[k] == h[k]
      invariant AsMap(headers) == h - rest.Keys
      invariant |headers| + |rest| == |h|
      decreases |rest|
    {
      var k :| k in rest;
      var before := headers;
      headers := headers + [(k, rest[k])];
      assert headers[..|headers| - 1] == before;
      assert h - (rest - {k}).Keys == (h - rest.Keys)[k := h[k]];
      rest := rest - {k};
    }
  }
}
