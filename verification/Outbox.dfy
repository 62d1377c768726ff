/** The transactional outbox and its relay to an append-only topic.

    A business transaction inserts a row; pollers later publish it. Publishing and
    marking are separate steps, because the publish is visible on the topic before
    the poller's transaction commits, and stays visible when that transaction rolls back. */
module Outbox {
  import opened Events

  const MAX_RETRIES: nat := 5

  datatype RowStatus = RowPending | RowSent

  datatype Row<+E> = Row(event: E, status: RowStatus, retries: nat)

  /** An outbox table, unique on the event id, with the topic its poller publishes to. */
  datatype Channel<+E> = Channel(outbox: map<EventId, Row<E>>, log: seq<Msg<E>>)

  datatype RelayStep =
    | Publish(eid: EventId)         // the broker appended the message
    | MarkAsSent(eid: EventId)      // the poller's transaction committed the mark
    | IncrementRetry(eid: EventId)  // the poller's transaction committed a failed publish

  /** The poller's selection condition: pending and below the retry cap. */
  predicate Eligible<E>(row: Row<E>) {
    row.status == RowPending && row.retries < MAX_RETRIES
  }

  function Fresh<E>(event: E): Row<E> {
    Row(event, RowPending, 0)
  }

  /** One relay step; a step that is not enabled leaves the channel alone. */
  function Relay<E(==)>(ch: Channel<E>, step: RelayStep): Channel<E> {
    if step.eid !in ch.outbox || !Eligible(ch.outbox[step.eid]) then ch
    else
      var row := ch.outbox[step.eid];
      var msg := Msg(step.eid, row.event);
      match step
      case Publish(e) => ch.(log := ch.log + [msg])
      case MarkAsSent(e) => if msg in ch.log then ch.(outbox := ch.outbox[e := row.(status := RowSent)]) else ch
      case IncrementRetry(e) => ch.(outbox := ch.outbox[e := row.(retries := row.retries + 1)])
  }

  /** Every message on the topic is a committed row's event, every row marked sent is on
      the topic, and no row is past the retry cap. */
  ghost predicate Faithful<E>(ch: Channel<E>) {
    && (forall m :: m in ch.log ==> m.eid in ch.outbox && ch.outbox[m.eid].event == m.event)
    && (forall e :: e in ch.outbox && ch.outbox[e].status == RowSent ==> Msg(e, ch.outbox[e].event) in ch.log)
    && (forall e :: e in ch.outbox ==> ch.outbox[e].retries <= MAX_RETRIES)
  }

  /** The relay never adds, drops or rewrites a row's event, and never loses a message. */
  ghost predicate SameEvents<E>(ch: Channel<E>, ch': Channel<E>) {
    && ch'.outbox.Keys == ch.outbox.Keys
    && (forall e :: e in ch.outbox ==> ch'.outbox[e].event == ch.outbox[e].event)
    && (forall m :: m in ch.log ==> m in ch'.log)
  }

  lemma RelayIsFaithful<E>(ch: Channel<E>, step: RelayStep)
    requires Faithful(ch)
    ensures Faithful(Relay(ch, step))
    ensures SameEvents(ch, Relay(ch, step))
  {
    var ch' := Relay(ch, step);
    if ch'.log != ch.log {
      assert ch'.log == ch.log + [Msg(step.eid, ch.outbox[step.eid].event)];
    }
  }

  /** What the relay does with a row that is pending and has been refused less than 5 times. */
  lemma RelayMoves<E>(ch: Channel<E>, e: EventId)
    requires e in ch.outbox && ch.outbox[e].status == RowPending && ch.outbox[e].retries < 5
    ensures var row := ch.outbox[e];
      && Relay(ch, Publish(e)) == ch.(log := ch.log + [Msg(e, row.event)])
      && Relay(Relay(ch, Publish(e)), MarkAsSent(e)).outbox == ch.outbox[e := Row(row.event, RowSent, row.retries)]
      && Relay(ch, IncrementRetry(e)).outbox == ch.outbox[e := Row(row.event, RowPending, row.retries + 1)]
      && (Msg(e, row.event) !in ch.log ==> Relay(ch, MarkAsSent(e)) == ch)
  {
    assert Relay(ch, Publish(e)).log[|ch.log|] == Msg(e, ch.outbox[e].event);
  }

  /** A transaction that inserts a row under an unused event id keeps the channel faithful. */
  lemma InsertIsFaithful<E>(ch: Channel<E>, e: EventId, event: E)
    requires Faithful(ch) && e !in ch.outbox
    ensures Faithful(ch.(outbox := ch.outbox[e := Fresh(event)]))
  {
  }
}
