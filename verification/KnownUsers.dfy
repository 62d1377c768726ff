/** The `known_users` view: user-rpc writes users with their events, order-api folds the events
    into a table of its own, across an outbox relay and idempotent consumers. */
module KnownUsers {
  import opened Events
  import opened Outbox
  import Dedup

  datatype UserEvent = UserRegistered(userId: UserId, username: string)

  datatype User = User(username: string, email: string)

  datatype Users = Users(rows: map<UserId, User>, outbox: map<EventId, Row<UserEvent>>)

  predicate Taken(rows: map<UserId, User>, username: string, email: string) {
    exists id :: id in rows && (rows[id].username == username || rows[id].email == email)
  }

  /** User row and event in one transaction; None if a unique index refuses either. */
  function Register(t: Users, id: UserId, user: User, eid: EventId): Option<Users> {
    if id in t.rows || Taken(t.rows, user.username, user.email) || eid in t.outbox then None
    else Some(Users(t.rows[id := user], t.outbox[eid := Fresh(UserRegistered(id, user.username))]))
  }

  function Upsert(known: map<UserId, string>, event: UserEvent): Option<map<UserId, string>> {
    Some(known[event.userId := event.username])
  }

  /** Neither the username nor the email address is in the table. */
  ghost predicate NobodyHas(rows: map<UserId, User>, user: User) {
    forall id :: id in rows ==> rows[id].username != user.username && rows[id].email != user.email
  }

  datatype Reply = Registered(id: UserId) | AlreadyExists | Internal

  /** `InsertUserMySql` is any MySQL error of the insert, `InsertUserOther` any other kind. */
  datatype Statement = FindUsername | FindEmail | InsertUserMySql | InsertUserOther | InsertEvent | CommitTx | AckLost

  class Database {
    var rows: map<UserId, User>
    var outbox: map<EventId, Row<UserEvent>>

    function Value(): Users
      reads this
    {
      Users(rows, outbox)
    }

    constructor ()
      ensures Value() == Users(map[], map[])
    {
      rows, outbox := map[], map[];
    }

    /** Pre-checks on an earlier view of the table (`seen`), then the transaction, whose unique
        indexes catch what the pre-checks missed. */
    method CreateUser(seen: map<UserId, User>, id: UserId, user: User, eid: EventId, faults: set<Statement>)
      returns (reply: Reply)
      modifies this
      ensures reply.Registered? ==> reply.id == id && Register(old(Value()), id, user, eid) == Some(Value())
      ensures !reply.Registered? ==>
        || Value() == old(Value())
        || (AckLost in faults && reply.Internal? && Register(old(Value()), id, user, eid) == Some(Value()))
      ensures reply.AlreadyExists? ==>
        || Taken(seen, user.username, user.email) || id in old(rows) || Taken(old(rows), user.username, user.email)
        || InsertUserMySql in faults
      ensures reply.Registered? ==>
        && id !in old(rows) && rows == old(rows)[id := user] && NobodyHas(old(rows), user) && NobodyHas(seen, user)
        && eid !in old(outbox) && outbox == old(outbox)[eid := Row(UserRegistered(id, user.username), RowPending, 0)]
      ensures faults == {} && (!NobodyHas(seen, user) || id in old(rows) || !NobodyHas(old(rows), user)) ==>
        reply.AlreadyExists?
      ensures faults == {} ==>
        (reply.Registered? <==>
           NobodyHas(seen, user) && id !in old(rows) && NobodyHas(old(rows), user) && eid !in old(outbox))
    {
      if FindUsername in faults || FindEmail in faults {
        return Internal;
      }
      if Taken(seen, user.username, user.email) {
        return AlreadyExists;
      }
      var before := (rows, outbox);
      if InsertUserOther in faults {
        return Internal;
      }
      // Every MySQL error of the insert is reported as a duplicate, a deadlock included.
      if InsertUserMySql in faults || id in rows || Taken(rows, user.username, user.email) {
        return AlreadyExists;
      }
      rows := rows[id := user];
      if InsertEvent in faults || eid in outbox {
        rows := before.0;
        return Internal;
      }
      outbox := outbox[eid := Fresh(UserRegistered(id, user.username))];
      if CommitTx in faults {
        rows, outbox := before.0, before.1;
        return Internal;
      }
      if AckLost in faults {
        return Internal;
      }
      return Registered(id);
    }
  }

  datatype ViewStatement = FindProcessed | UpsertUser | InsertProcessed | CommitView | ViewAckLost

  /** The order service's side: its view and its `processed_events`. */
  class View {
    var known: map<UserId, string>
    var processed: map<EventId, nat>

    function Value(): Dedup.Store<map<UserId, string>>
      reads this
    {
      Dedup.Store(known, processed)
    }

    constructor ()
      ensures Value() == Dedup.Store(map[], map[])
    {
      known, processed := map[], map[];
    }

    /** The idempotent transaction: upsert and mark, or nothing. */
    method ProcessEvent(msg: Msg<UserEvent>, faults: set<ViewStatement>) returns (done: bool, ok: bool)
      modifies this
      ensures var result := Dedup.Process(old(Value()), msg.eid, (k: map<UserId, string>) => Upsert(k, msg.event));
        && (ok ==> result == Some(Value()))
        && (!ok ==> Value() == old(Value()) || (ViewAckLost in faults && result == Some(Value())))
      ensures ok ==> (done <==> msg.eid !in old(processed))
      ensures faults == {} ==> ok
    {
      var before := (known, processed);
      done, ok := false, FindProcessed !in faults;
      if ok && msg.eid !in processed {
        if UpsertUser !in faults {
          known := known[msg.event.userId := msg.event.username];
        }
        ok := UpsertUser !in faults && InsertProcessed !in faults;
        if ok {
          processed := processed[msg.eid := |processed|];
          done := true;
        }
      }
      if !ok || CommitView in faults {
        known, processed := before.0, before.1;
        return false, false;
      }
      ok := ViewAckLost !in faults;
    }

    /** Without an event id: dropped; undecodable: an error; otherwise the transaction, after
        which the view knows the user unless the event had been processed before. */
    method HandleUserEvent(d: Delivery<UserEvent>, faults: set<ViewStatement>) returns (ok: bool)
      modifies this
      ensures d.eidHeader.None? ==> ok && Value() == old(Value())
      ensures d.eidHeader.Some? && d.envelope.None? ==> !ok && Value() == old(Value())
      ensures !ok && ViewAckLost !in faults ==> Value() == old(Value())
      ensures ok && d.eidHeader.Some? && d.envelope.Some? ==>
        && d.eidHeader.value in processed
        && (if d.eidHeader.value in old(processed) then Value() == old(Value())
            else known == old(known)[d.envelope.value.userId := d.envelope.value.username])
    {
      if d.eidHeader.None? {
        return true;
      }
      if d.envelope.None? {
        return false;
      }
      var done;
      done, ok := ProcessEvent(Msg(d.eidHeader.value, d.envelope.value), faults);
    }
  }

  // ---------------------------------------------------------------- the two services together

  datatype State = State(users: Users, log: seq<Msg<UserEvent>>, view: Dedup.Store<map<UserId, string>>)

  datatype Step =
    | CreateUser(id: UserId, user: User, eid: EventId)
    | RelayUsers(relay: RelayStep)
    | Deliver(msg: Msg<UserEvent>)   // in any order, any number of times

  const INIT := State(Users(map[], map[]), [], Dedup.Store(map[], map[]))

  function UserChannel(s: State): Channel<UserEvent> {
    Channel(s.users.outbox, s.log)
  }

  function Next(s: State, step: Step): State {
    match step
    case CreateUser(id, user, eid) =>
      (match Register(s.users, id, user, eid)
       case None => s
       case Some(t) => s.(users := t))
    case RelayUsers(relay) =>
      var ch := Relay(UserChannel(s), relay);
      s.(users := s.users.(outbox := ch.outbox), log := ch.log)
    case Deliver(msg) =>
      if msg in s.log
      then s.(view := Dedup.After(s.view, msg.eid, (known: map<UserId, string>) => Upsert(known, msg.event)))
      else s
  }

  function Exec(steps: seq<Step>): State {
    if steps == [] then INIT else Next(Exec(steps[..|steps| - 1]), steps[|steps| - 1])
  }

  /** What the view is meant to be: the users table without passwords and addresses. */
  function Projection(rows: map<UserId, User>): map<UserId, string> {
    map id | id in rows :: rows[id].username
  }

  /** `row` links each user to the outbox row of its registration. */
  ghost predicate Inv(s: State, row: map<UserId, EventId>) {
    && Faithful(UserChannel(s))
    && row.Keys == s.users.rows.Keys
    && (forall id :: id in row ==>
          row[id] in s.users.outbox && s.users.outbox[row[id]].event == UserRegistered(id, s.users.rows[id].username))
    && (forall e :: e in s.users.outbox ==>
          s.users.outbox[e].event.userId in row && row[s.users.outbox[e].event.userId] == e)
    && (forall e :: e in s.view.processed ==> e in s.users.outbox)
    && (forall id :: id in s.view.data ==> id in row && s.view.data[id] == s.users.rows[id].username)
    && (forall id :: id in row ==> (id in s.view.data <==> row[id] in s.view.processed))
  }

  lemma DeliverKeeps(s: State, row: map<UserId, EventId>, msg: Msg<UserEvent>)
    requires Inv(s, row)
    ensures Inv(Next(s, Deliver(msg)), row)
  {
    if msg in s.log && msg.eid !in s.view.processed {
      assert UserChannel(s).outbox[msg.eid].event == msg.event;
      var s' := Next(s, Deliver(msg));
      assert s'.view == Dedup.Store(s.view.data[msg.event.userId := msg.event.username],
                                    s.view.processed[msg.eid := |s.view.processed|]);
    }
  }

  lemma RelayKeeps(s: State, row: map<UserId, EventId>, relay: RelayStep)
    requires Inv(s, row)
    ensures Inv(Next(s, RelayUsers(relay)), row)
  {
    RelayIsFaithful(UserChannel(s), relay);
    assert UserChannel(Next(s, RelayUsers(relay))) == Relay(UserChannel(s), relay);
  }

  lemma CreateKeeps(s: State, row: map<UserId, EventId>, id: UserId, user: User, eid: EventId)
    requires Inv(s, row) && Register(s.users, id, user, eid).Some?
    ensures Inv(Next(s, CreateUser(id, user, eid)), row[id := eid])
  {
    InsertIsFaithful(UserChannel(s), eid, UserRegistered(id, user.username));
  }

  lemma {:induction false} RunKeeps(steps: seq<Step>) returns (row: map<UserId, EventId>)
    ensures Inv(Exec(steps), row)
  {
    if steps == [] {
      return map[];
    }
    var s, step := Exec(steps[..|steps| - 1]), steps[|steps| - 1];
    row := RunKeeps(steps[..|steps| - 1]);
    match step
    case CreateUser(id, user, eid) =>
      if Register(s.users, id, user, eid).Some? {
        CreateKeeps(s, row, id, user, eid);
        row := row[id := eid];
      }
    case RelayUsers(relay) => RelayKeeps(s, row, relay);
    case Deliver(msg) => DeliverKeeps(s, row, msg);
  }

  /** In every reachable state no two users share a username or an email address. */
  lemma {:induction false} NobodyTwice(steps: seq<Step>, i: UserId, j: UserId)
    requires i in Exec(steps).users.rows && j in Exec(steps).users.rows && i != j
    ensures Exec(steps).users.rows[i].username != Exec(steps).users.rows[j].username
    ensures Exec(steps).users.rows[i].email != Exec(steps).users.rows[j].email
  {
    if steps != [] {
      var before := Exec(steps[..|steps| - 1]).users.rows;
      if i in before && j in before {
        NobodyTwice(steps[..|steps| - 1], i, j);
      }
    }
  }

  /** What the steps do when they can: a registration nobody's is in the way of adds the user and his
      pending event; a delivered message puts its user into the view, whatever was handled before. */
  lemma StepsShow(steps: seq<Step>, id: UserId, user: User, eid: EventId, msg: Msg<UserEvent>)
    ensures var s := Exec(steps);
      && (id !in s.users.rows && eid !in s.users.outbox && NobodyHas(s.users.rows, user) ==>
            var s' := Next(s, CreateUser(id, user, eid));
            && s'.users.rows == s.users.rows[id := user]
            && s'.users.outbox == s.users.outbox[eid := Row(UserRegistered(id, user.username), RowPending, 0)])
      && (msg in s.log ==>
            var known := Next(s, Deliver(msg)).view.data;
            && msg.event.userId in known && known[msg.event.userId] == msg.event.username
            && known - {msg.event.userId} == s.view.data - {msg.event.userId})
  {
    var row := RunKeeps(steps);
    if msg in Exec(steps).log {
      assert UserChannel(Exec(steps)).outbox[msg.eid].event == msg.event;
    }
  }

  ghost predicate Quiescent(s: State) {
    && (forall e :: e in s.users.outbox ==> s.users.outbox[e].status == RowSent)
    && (forall m :: m in s.log ==> m.eid in s.view.processed)
  }

  /** In every reachable state the view is part of the projection of the users table, never a
      user who is not there or under another name; and once everything written has been
      relayed and processed it is the whole projection, in whatever order and however often
      the events were delivered. */
  lemma ViewConverges(steps: seq<Step>)
    ensures var s := Exec(steps);
      && (forall id :: id in s.view.data ==> id in s.users.rows && s.view.data[id] == s.users.rows[id].username)
      && (Quiescent(s) ==> s.view.data == Projection(s.users.rows))
  {
    var s := Exec(steps);
    var row := RunKeeps(steps);
    if Quiescent(s) {
      forall id | id in s.users.rows ensures id in s.view.data {
        assert UserChannel(s).outbox[row[id]].status == RowSent;
        assert Msg(row[id], s.users.outbox[row[id]].event) in s.log;
      }
    }
  }
}
