/** Cache-aside with negative entries. First one call of GetOrLoad with its marshalling; then
    the shared cache over time, with any number of concurrent loads, to bound staleness. */
module Cache {
  import opened Events

  type Key = nat
  type Bytes = seq<char>

  const NEGATIVE_MARKER: Bytes := "__negative__"

  datatype Loaded<+T> = Found(value: T) | Miss | LoadError

  /** How the Redis calls of one GetOrLoad go. */
  datatype Redis = Redis(present: bool, getFails: bool, setFails: bool, delFails: bool)

  /** There is an entry that can be read: the negative marker, or bytes that decode. */
  ghost predicate Usable<T>(entries: map<Key, Bytes>, key: Key, unmarshal: Bytes -> Option<T>, getFails: bool) {
    !getFails && key in entries && (entries[key] == "__negative__" || unmarshal(entries[key]).Some?)
  }

  class Store<T> {
    var entries: map<Key, Bytes>

    constructor ()
      ensures entries == map[]
    {
      entries := map[];
    }

    /** Look the key up; answer from the cache if the bytes mean something; otherwise load, and
        remember a value or its absence, but never an error. `loaded` is what the loader returns. */
    method GetOrLoad(key: Key, marshal: T -> Option<Bytes>, unmarshal: Bytes -> Option<T>,
                     loaded: Loaded<T>, redis: Redis)
      returns (r: Loaded<T>)
      modifies this
      ensures
        match Hit(old(entries), key, unmarshal, redis)
        case Some(answer) => r == answer && entries == old(entries)
        case None =>
          r == loaded && entries == Remember(Cleaned(old(entries), key, redis), key, Remembered(loaded, marshal), redis)
      ensures !redis.present || redis.getFails || key !in old(entries) ==> r == loaded
      ensures redis.present && !redis.getFails && key in old(entries) ==>
        if old(entries)[key] == "__negative__" then r == Miss && entries == old(entries)
        else match unmarshal(old(entries)[key])
             case Some(v) => r == Found(v) && entries == old(entries)
             case None => r == loaded
      ensures !redis.present ==> entries == old(entries)
      ensures forall other :: other != key ==>
        (other in entries <==> other in old(entries)) && (other in entries ==> entries[other] == old(entries)[other])
      ensures redis.present && !Usable(old(entries), key, unmarshal, redis.getFails) ==>
        var dirty := !redis.getFails && key in old(entries);
        var kept := if dirty && !redis.delFails then old(entries) - {key} else old(entries);
        match loaded
        case LoadError => entries == kept
        case Miss => entries == if redis.setFails then kept else kept[key := "__negative__"]
        case Found(v) =>
          entries == if redis.setFails || marshal(v).None? then kept else kept[key := marshal(v).value]
    {
      if !redis.present {
        return loaded;
      }
      if !redis.getFails && key in entries {
        var val := entries[key];
        if val == NEGATIVE_MARKER {
          return Miss;
        }
        var v := unmarshal(val);
        if v.Some? {
          return Found(v.value);
        }
        if !redis.delFails {
          entries := entries - {key};
        }
      }
      match loaded
      case LoadError => return LoadError;
      case Miss =>
        if !redis.setFails {
          entries := entries[key := NEGATIVE_MARKER];
        }
        return Miss;
      case Found(v) =>
        var b := marshal(v);
        if b.Some? && !redis.setFails {
          entries := entries[key := b.value];
        }
        return Found(v);
    }

    /** Delete these keys, best effort: if that fails, or without Redis, nothing changes and nobody
        is told. */
    method Invalidate(keys: seq<Key>, redis: Redis)
      modifies this
      ensures forall key :: key in entries ==> key in old(entries) && entries[key] == old(entries)[key]
      ensures forall key :: key in old(entries) ==>
        (key !in entries <==> key in keys && redis.present && !redis.delFails)
    {
      if !redis.present || keys == [] {
        return;
      }
      if !redis.delFails {
        entries := map key | key in entries && key !in keys :: entries[key];
      }
    }
  }

  /** What a lookup answers from the cache alone. */
  function Hit<T>(entries: map<Key, Bytes>, key: Key, unmarshal: Bytes -> Option<T>, redis: Redis): Option<Loaded<T>> {
    if !redis.present || redis.getFails || key !in entries then None
    else if entries[key] == NEGATIVE_MARKER then Some(Miss)
    else
      match unmarshal(entries[key])
      case None => None
      case Some(v) => Some(Found(v))
  }

  /** The bytes a load leaves behind, if any. */
  function Remembered<T>(loaded: Loaded<T>, marshal: T -> Option<Bytes>): Option<Bytes> {
    match loaded
    case Found(v) => marshal(v)
    case Miss => Some(NEGATIVE_MARKER)
    case LoadError => None
  }

  /** A value that could not be used is deleted before loading. */
  function Cleaned(entries: map<Key, Bytes>, key: Key, redis: Redis): map<Key, Bytes> {
    if redis.present && !redis.getFails && key in entries && !redis.delFails then entries - {key} else entries
  }

  function Remember(entries: map<Key, Bytes>, key: Key, bytes: Option<Bytes>, redis: Redis): map<Key, Bytes> {
    if redis.present && !redis.setFails && bytes.Some? then entries[key := bytes.value] else entries
  }

  /** The value's bytes come back as the value, and cannot be taken for the negative marker. */
  predicate Decodes<T(==)>(v: T, marshal: T -> Option<Bytes>, unmarshal: Bytes -> Option<T>) {
    marshal(v).Some? && marshal(v).value != NEGATIVE_MARKER && unmarshal(marshal(v).value) == Some(v)
  }

  /** What a load left behind is what the next lookup answers: always for an absence, and for a
      value exactly when its bytes decode to it again and are not the negative marker. */
  lemma RememberedIsAnswered<T>(entries: map<Key, Bytes>, key: Key, loaded: Loaded<T>, marshal: T -> Option<Bytes>,
                                unmarshal: Bytes -> Option<T>, first: Redis, next: Redis)
    requires Hit(entries, key, unmarshal, first).None? && Remembered(loaded, marshal).Some?
    requires first.present && !first.setFails && next.present && !next.getFails
    ensures
      var after := Remember(Cleaned(entries, key, first), key, Remembered(loaded, marshal), first);
      Hit(after, key, unmarshal, next) == Some(loaded) <==> loaded.Miss? || Decodes(loaded.value, marshal, unmarshal)
  {
  }

  // ---------------------------------------------------------------- validating a user through the cache

  datatype Summary = Summary(exists_: bool, username: string)

  datatype Validation = Exists(username: string) | Unknown | Failed

  function AsValidation(r: Loaded<Summary>): Validation {
    match r
    case Found(s) => if s.exists_ then Exists(s.username) else Unknown
    case Miss => Unknown
    case LoadError => Failed
  }

  /** The loader: the users table as it is now, unless the query fails. */
  function LoadUser(users: map<Key, string>, id: Key, queryFails: bool): Loaded<Summary> {
    if queryFails then LoadError else if id in users then Found(Summary(true, users[id])) else Miss
  }

  method ValidateUser(store: Store<Summary>, id: Key, users: map<Key, string>, queryFails: bool, redis: Redis,
                      marshal: Summary -> Option<Bytes>, unmarshal: Bytes -> Option<Summary>) returns (v: Validation)
    modifies store
    ensures Hit(old(store.entries), id, unmarshal, redis).None? ==>
      v == if queryFails then Failed else if id in users then Exists(users[id]) else Unknown
    ensures Hit(old(store.entries), id, unmarshal, redis).Some? ==>
      && v == AsValidation(Hit(old(store.entries), id, unmarshal, redis).value) && v != Failed
      && store.entries == old(store.entries)
    ensures v == Failed ==> store.entries == Cleaned(old(store.entries), id, redis)
    ensures !redis.present || redis.getFails || id !in old(store.entries) ==>
      v == if queryFails then Failed else if id in users then Exists(users[id]) else Unknown
    ensures redis.present && !redis.getFails && id in old(store.entries) && old(store.entries)[id] == "__negative__" ==>
      v == Unknown
    ensures redis.present && !redis.getFails && id in old(store.entries) && old(store.entries)[id] != "__negative__" ==>
      match unmarshal(old(store.entries)[id])
      case Some(summary) => v == if summary.exists_ then Exists(summary.username) else Unknown
      case None => v == if queryFails then Failed else if id in users then Exists(users[id]) else Unknown
  {
    var r := store.GetOrLoad(id, marshal, unmarshal, LoadUser(users, id, queryFails), redis);
    return AsValidation(r);
  }

  // ---------------------------------------------------------------- the cache over time

  type FlightId = nat
  type QueryId = nat

  /** What a read of the users table saw, and when. */
  datatype Seen = Seen(name: Option<string>, readAt: nat)

  /** `expires` is None for an entry that was set without a time to live. */
  datatype Entry = Entry(seen: Seen, setAt: nat, expires: Option<int>)

  datatype Flight = Flight(id: UserId, seen: Seen)

  /** An answer on its way to the caller: taken at `takenAt`; if from the cache, set at `setAt`. */
  datatype Answer = Answer(id: UserId, seen: Seen, setAt: nat, takenAt: nat)

  /** Times to live as configured, and not checked: Redis takes 0 or less to mean no expiry. */
  datatype Config = Config(posTTL: int, negTTL: int)

  function Expiry(c: Config, seen: Seen, now: nat): Option<int> {
    var ttl := if seen.name.Some? then c.posTTL else c.negTTL;
    if ttl > 0 then Some(now + ttl) else None
  }

  predicate Alive(e: Entry, now: nat) {
    e.expires.None? || now < e.expires.value
  }

  /** `users` maps an id to its name and creation time; rows are only ever added. */
  datatype World = World(
    now: nat, users: map<UserId, (string, nat)>, entries: map<UserId, Entry>,
    flights: map<FlightId, Flight>, answers: map<QueryId, Answer>)

  datatype Step =
    | Wait(d: nat)
    | CreateUser(id: UserId, name: string)
    | Load(f: FlightId, id: UserId)       // the loader reads the table
    | SetEntry(f: FlightId)               // its result is written to the cache, possibly much later
    | Drop(id: UserId)                    // expiry, eviction, Invalidate, or a dirty value deleted
    | TakeCached(q: QueryId, id: UserId)  // a query is answered from the cache
    | TakeLoaded(q: QueryId, f: FlightId) // by its own load, or by one it joined in singleflight

  function ReadUser(w: World, id: UserId): Seen {
    Seen(if id in w.users then Some(w.users[id].0) else None, w.now)
  }

  function Next(w: World, c: Config, step: Step): World {
    match step
    case Wait(d) => w.(now := w.now + d)
    case CreateUser(id, name) => if id in w.users then w else w.(users := w.users[id := (name, w.now)])
    case Load(f, id) => if f in w.flights then w else w.(flights := w.flights[f := Flight(id, ReadUser(w, id))])
    case SetEntry(f) =>
      if f !in w.flights then w
      else
        var fl := w.flights[f];
        w.(entries := w.entries[fl.id := Entry(fl.seen, w.now, Expiry(c, fl.seen, w.now))])
    case Drop(id) => w.(entries := w.entries - {id})
    case TakeCached(q, id) =>
      if id in w.entries && Alive(w.entries[id], w.now)
      then w.(answers := w.answers[q := Answer(id, w.entries[id].seen, w.entries[id].setAt, w.now)])
      else w
    case TakeLoaded(q, f) =>
      if f in w.flights
      then w.(answers := w.answers[q := Answer(w.flights[f].id, w.flights[f].seen, w.now, w.now)])
      else w
  }

  function Exec(c: Config, steps: seq<Step>): World {
    if steps == [] then World(0, map[], map[], map[], map[])
    else Next(Exec(c, steps[..|steps| - 1]), c, steps[|steps| - 1])
  }

  /** The table as it was at a moment: the row exists once its creation time is reached, with
      rows created at that very moment counted either way. */
  ghost predicate TrueAt(w: World, id: UserId, name: Option<string>, t: nat) {
    match name
    case Some(n) => id in w.users && w.users[id].0 == n && w.users[id].1 <= t
    case None => id !in w.users || t <= w.users[id].1
  }

  ghost predicate SeenOk(w: World, id: UserId, seen: Seen) {
    seen.readAt <= w.now && TrueAt(w, id, seen.name, seen.readAt)
  }

  ghost predicate AnswerOk(w: World, c: Config, a: Answer) {
    && SeenOk(w, a.id, a.seen)
    && a.seen.readAt <= a.setAt <= a.takenAt <= w.now
    && (a.seen.name.None? && a.setAt < a.takenAt && c.negTTL > 0 ==> a.takenAt - a.setAt < c.negTTL)
  }

  ghost predicate EntryOk(w: World, c: Config, id: UserId, e: Entry) {
    && SeenOk(w, id, e.seen) && e.seen.readAt <= e.setAt <= w.now
    && e.expires == Expiry(c, e.seen, e.setAt)
  }

  ghost predicate Inv(w: World, c: Config) {
    && (forall id :: id in w.users ==> w.users[id].1 <= w.now)
    && (forall f :: f in w.flights ==> SeenOk(w, w.flights[f].id, w.flights[f].seen))
    && (forall id :: id in w.entries ==> EntryOk(w, c, id, w.entries[id]))
    && (forall q :: q in w.answers ==> AnswerOk(w, c, w.answers[q]))
  }

  /** Time goes on and users are only added, each at its moment of creation. */
  ghost predicate Later(w: World, w': World) {
    && w.now <= w'.now
    && (forall id :: id in w.users ==> id in w'.users && w'.users[id] == w.users[id])
    && (forall id :: id in w'.users && id !in w.users ==> w'.users[id].1 == w.now)
  }

  lemma SeenStays(w: World, w': World, id: UserId, seen: Seen)
    requires Later(w, w') && SeenOk(w, id, seen)
    ensures SeenOk(w', id, seen)
  {
  }

  lemma StepKeeps(w: World, c: Config, step: Step)
    requires Inv(w, c)
    ensures Inv(Next(w, c, step), c)
  {
    var w' := Next(w, c, step);
    assert Later(w, w');
    forall f | f in w'.flights ensures SeenOk(w', w'.flights[f].id, w'.flights[f].seen) {
      FlightKept(w, c, step, f);
    }
    forall id | id in w'.entries ensures EntryOk(w', c, id, w'.entries[id]) {
      EntryKept(w, c, step, id);
    }
    forall q | q in w'.answers ensures AnswerOk(w', c, w'.answers[q]) {
      AnswerKept(w, c, step, q);
    }
  }

  lemma FlightKept(w: World, c: Config, step: Step, f: FlightId)
    requires Inv(w, c) && f in Next(w, c, step).flights
    ensures SeenOk(Next(w, c, step), Next(w, c, step).flights[f].id, Next(w, c, step).flights[f].seen)
  {
    if f in w.flights {
      SeenStays(w, Next(w, c, step), w.flights[f].id, w.flights[f].seen);
    }
  }

  lemma EntryKept(w: World, c: Config, step: Step, id: UserId)
    requires Inv(w, c) && id in Next(w, c, step).entries
    ensures EntryOk(Next(w, c, step), c, id, Next(w, c, step).entries[id])
  {
    SeenStays(w, Next(w, c, step), id, Next(w, c, step).entries[id].seen);
  }

  lemma AnswerKept(w: World, c: Config, step: Step, q: QueryId)
    requires Inv(w, c) && q in Next(w, c, step).answers
    ensures AnswerOk(Next(w, c, step), c, Next(w, c, step).answers[q])
  {
    var a := Next(w, c, step).answers[q];
    SeenStays(w, Next(w, c, step), a.id, a.seen);
  }

  lemma {:induction false} RunKeeps(c: Config, steps: seq<Step>)
    ensures Inv(Exec(c, steps), c)
  {
    if steps != [] {
      RunKeeps(c, steps[..|steps| - 1]);
      StepKeeps(Exec(c, steps[..|steps| - 1]), c, steps[|steps| - 1]);
    }
  }

  /** Staleness, for every interleaving of loads, late sets, expiries and creations. An answer
      that a user exists is true of the table now, with the right name. An answer that a user
      does not exist was true at the moment it was read; with a negative TTL above 0 that moment
      lies no further back than this TTL plus the time from the read to its set, plus the time the
      reply has taken. */
  lemma StalenessBound(c: Config, steps: seq<Step>, q: QueryId)
    requires q in Exec(c, steps).answers
    ensures var w := Exec(c, steps);
      var a := w.answers[q];
      && (a.seen.name.Some? ==> a.id in w.users && w.users[a.id].0 == a.seen.name.value)
      && (a.seen.name.None? ==> TrueAt(w, a.id, None, a.seen.readAt))
      && (a.seen.name.None? && c.negTTL > 0 ==>
            w.now - a.seen.readAt <= c.negTTL + (a.setAt - a.seen.readAt) + (w.now - a.takenAt))
  {
    RunKeeps(c, steps);
  }

  /** However late the query, an absence is answered at most this long after it was set. */
  ghost predicate AbsenceBounded(c: Config, bound: int) {
    forall steps, q :: q in Exec(c, steps).answers && Exec(c, steps).answers[q].seen.name.None? ==>
      Exec(c, steps).answers[q].takenAt - Exec(c, steps).answers[q].setAt <= bound
  }

  /** When there is such a bound at all: exactly for a negative TTL above 0. */
  lemma AbsenceBoundedExactly(c: Config)
    ensures (exists bound :: AbsenceBounded(c, bound)) <==> c.negTTL > 0
  {
    if c.negTTL > 0 {
      forall steps, q | q in Exec(c, steps).answers && Exec(c, steps).answers[q].seen.name.None?
        ensures Exec(c, steps).answers[q].takenAt - Exec(c, steps).answers[q].setAt <= c.negTTL
      {
        RunKeeps(c, steps);
      }
      assert AbsenceBounded(c, c.negTTL);
    } else if bound :| AbsenceBounded(c, bound) {
      var steps := AbsenceForGood(c, if bound < 0 then 0 else bound + 1);
      assert 0 in Exec(c, steps).answers;
    }
  }

  /** With a TTL of 0 or less: however much later, a user is still answered not to exist who was
      created right after the absence was cached. */
  lemma AbsenceForGood(c: Config, age: nat) returns (steps: seq<Step>)
    requires c.negTTL <= 0
    ensures var w := Exec(c, steps);
      && 0 in w.answers && w.answers[0].id == 7 && w.answers[0].seen.name == None && 7 in w.users
      && w.answers[0].takenAt - w.answers[0].setAt == age
  {
    steps := [Load(1, 7)];
    Extend(c, [], Load(1, 7));
    assert [] + steps == steps;
    Extend(c, steps, SetEntry(1));
    steps := steps + [SetEntry(1)];
    Extend(c, steps, CreateUser(7, "u"));
    steps := steps + [CreateUser(7, "u")];
    Extend(c, steps, Wait(age));
    steps := steps + [Wait(age)];
    Extend(c, steps, TakeCached(0, 7));
    steps := steps + [TakeCached(0, 7)];
  }

  /** How long an entry answers: from its write, for its own time to live, or for good if that is 0
      or less; the time to live of an absence is the negative one. */
  lemma EntryLives(w: World, c: Config, f: FlightId, q: QueryId, d: nat)
    requires f in w.flights
    ensures var fl := w.flights[f];
      var ttl := match fl.seen.name case Some(_) => c.posTTL case None => c.negTTL;
      var later := Next(Next(w, c, SetEntry(f)), c, Wait(d));
      var w' := Next(later, c, TakeCached(q, fl.id));
      if ttl <= 0 || d < ttl then q in w'.answers && w'.answers[q] == Answer(fl.id, fl.seen, w.now, w.now + d)
      else w' == later
  {
  }

  /** A query `d` later would still be answered from this user's entry, with a read that by then
      is more than `age` old. */
  ghost predicate AnswersOlder(w: World, c: Config, id: UserId, d: nat, age: int) {
    var later := Next(w, c, Wait(d));
    var w' := Next(later, c, TakeCached(0, id));
    && id in later.entries && Alive(later.entries[id], later.now)
    && 0 in w'.answers && w'.answers[0] == Answer(id, w.entries[id].seen, w.entries[id].setAt, later.now)
    && w'.answers[0].takenAt - w'.answers[0].seen.readAt > age
  }

  /** The promised window, in every reachable state and for every absence in the cache: it can be
      answered when its read is more than one negative TTL old if and only if it was written more
      than one tick after it was read. */
  lemma OlderThanTTLExactly(c: Config, steps: seq<Step>, id: UserId)
    requires c.negTTL > 0
    requires var w := Exec(c, steps);
      id in w.entries && w.entries[id].seen.name.None? && Alive(w.entries[id], w.now)
    ensures var w := Exec(c, steps);
      (exists d: nat :: AnswersOlder(w, c, id, d, c.negTTL)) <==> w.entries[id].setAt - w.entries[id].seen.readAt > 1
  {
    RunKeeps(c, steps);
    var w := Exec(c, steps);
    var e := w.entries[id];
    if e.setAt - e.seen.readAt > 1 {
      // The last moment at which the entry is alive.
      var d := e.setAt + c.negTTL - 1 - w.now;
      assert AnswersOlder(w, c, id, d, c.negTTL);
    }
  }

  /** Whatever the TTL and however large the delay between read and write: a run in which a user
      who was created and cached in between is answered not to exist, from an absence read
      `delay + negTTL - 1` ticks ago. A load that read before the user existed wrote over the
      entry. With a delay of 8 and a TTL of 10 the answer is 17 ticks old. */
  lemma LateNegativeSet(c: Config, delay: nat) returns (steps: seq<Step>)
    requires c.negTTL > 0
    ensures var w := Exec(c, steps);
      && 0 in w.answers && w.answers[0].id == 7 && w.answers[0].seen.name == None
      && w.answers[0].takenAt - w.answers[0].seen.readAt == delay + c.negTTL - 1
      && 7 in w.users && w.users[7].1 == w.answers[0].seen.readAt
  {
    steps := LateWrite(c, delay);
    Extend(c, steps, Wait(c.negTTL - 1));
    steps := steps + [Wait(c.negTTL - 1)];
    Extend(c, steps, TakeCached(0, 7));
    steps := steps + [TakeCached(0, 7)];
  }

  lemma LateWrite(c: Config, delay: nat) returns (steps: seq<Step>)
    ensures var w := Exec(c, steps);
      && 7 in w.users && w.users[7].1 == 0 && w.now == delay
      && w.entries == map[7 := Entry(Seen(None, 0), delay, Expiry(c, Seen(None, 0), delay))]
  {
    steps := [Load(1, 7)];
    Extend(c, [], Load(1, 7));
    assert [] + steps == steps;
    Extend(c, steps, CreateUser(7, "u"));
    steps := steps + [CreateUser(7, "u")];
    Extend(c, steps, Load(2, 7));
    steps := steps + [Load(2, 7)];
    Extend(c, steps, SetEntry(2));
    steps := steps + [SetEntry(2)];
    Extend(c, steps, Wait(delay));
    steps := steps + [Wait(delay)];
    Extend(c, steps, SetEntry(1));
    steps := steps + [SetEntry(1)];
  }

  // ---------------------------------------------------------------- one call, seen over time

  /** What Redis holds now: the entries that have not expired, as bytes. */
  function Live(w: World, marshal: Summary -> Option<Bytes>): map<Key, Bytes> {
    map id | id in w.entries && Alive(w.entries[id], w.now) && Remembered(AsLoaded(w.entries[id].seen), marshal).Some?
      :: Remembered(AsLoaded(w.entries[id].seen), marshal).value
  }

  function AsLoaded(seen: Seen): Loaded<Summary> {
    match seen.name
    case None => Miss
    case Some(n) => Found(Summary(true, n))
  }

  function Names(w: World): map<Key, string> {
    map id | id in w.users :: w.users[id].0
  }

  const WORKING := Redis(true, false, false, false)

  ghost predicate Codec(marshal: Summary -> Option<Bytes>, unmarshal: Bytes -> Option<Summary>) {
    forall n :: Decodes(Summary(true, n), marshal, unmarshal)
  }

  /** GetOrLoad, with Redis working, is a run of the cache over time. It answers from the cache
      exactly when TakeCached would, with that answer; and otherwise it is Load, SetEntry and
      TakeLoaded in a row: the same answer, and the same entries afterwards. */
  lemma LookupIsARun(w: World, c: Config, q: QueryId, f: FlightId, id: UserId,
                     marshal: Summary -> Option<Bytes>, unmarshal: Bytes -> Option<Summary>)
    requires Codec(marshal, unmarshal) && f !in w.flights
    ensures match Hit(Live(w, marshal), id, unmarshal, WORKING)
      case Some(answer) =>
        var w' := Next(w, c, TakeCached(q, id));
        && q in w'.answers && w'.answers[q].id == id && AsLoaded(w'.answers[q].seen) == answer
        && Live(w', marshal) == Live(w, marshal)
      case None =>
        var loaded := LoadUser(Names(w), id, false);
        var w' := LoadNow(w, c, q, f, id);
        && Next(w, c, TakeCached(q, id)) == w
        && q in w'.answers && w'.answers[q].id == id && AsLoaded(w'.answers[q].seen) == loaded
        && Live(w', marshal)
           == Remember(Cleaned(Live(w, marshal), id, WORKING), id, Remembered(loaded, marshal), WORKING)
  {
    if id in w.entries && Alive(w.entries[id], w.now) {
      EntryAnswers(w.entries[id].seen, marshal, unmarshal);
    } else {
      MissLoads(w, c, q, f, id, marshal, unmarshal);
    }
  }

  function LoadNow(w: World, c: Config, q: QueryId, f: FlightId, id: UserId): World {
    Next(Next(Next(w, c, Load(f, id)), c, SetEntry(f)), c, TakeLoaded(q, f))
  }

  lemma MissLoads(w: World, c: Config, q: QueryId, f: FlightId, id: UserId,
                  marshal: Summary -> Option<Bytes>, unmarshal: Bytes -> Option<Summary>)
    requires Codec(marshal, unmarshal) && f !in w.flights
    requires id !in w.entries || !Alive(w.entries[id], w.now)
    ensures var loaded, w' := LoadUser(Names(w), id, false), LoadNow(w, c, q, f, id);
      && q in w'.answers && w'.answers[q].id == id && AsLoaded(w'.answers[q].seen) == loaded
      && Live(w', marshal) == Remember(Cleaned(Live(w, marshal), id, WORKING), id, Remembered(loaded, marshal), WORKING)
  {
    EntryAnswers(ReadUser(w, id), marshal, unmarshal);
    var seen, w1 := ReadUser(w, id), Next(w, c, Load(f, id));
    var w2 := Next(w1, c, SetEntry(f));
    assert w2.entries == w.entries[id := Entry(seen, w.now, Expiry(c, seen, w.now))];
    assert LoadNow(w, c, q, f, id) == Next(w2, c, TakeLoaded(q, f));
    assert AsLoaded(seen) == LoadUser(Names(w), id, false);
  }

  lemma EntryAnswers(seen: Seen, marshal: Summary -> Option<Bytes>, unmarshal: Bytes -> Option<Summary>)
    requires Codec(marshal, unmarshal)
    ensures var bytes := Remembered(AsLoaded(seen), marshal);
      && bytes.Some?
      && (bytes.value == NEGATIVE_MARKER <==> seen.name.None?)
      && (seen.name.Some? ==> unmarshal(bytes.value) == Some(Summary(true, seen.name.value)))
  {
    if seen.name.Some? {
      assert Decodes(Summary(true, seen.name.value), marshal, unmarshal);
    }
  }

  lemma Extend(c: Config, steps: seq<Step>, step: Step)
    ensures Exec(c, steps + [step]) == Next(Exec(c, steps), c, step)
  {
    assert (steps + [step])[..|steps|] == steps;
  }
}
