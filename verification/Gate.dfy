/** The idempotency gate in front of order creation, for one gate key and any number of
    concurrent requests, one Redis or database call per step. */
module Gate {
  import opened Events
  import O = Orders

  type RequestId = nat

  /** An order as it was when its creation committed; this is what a replay answers. */
  datatype Placed = Placed(id: OrderId, row: O.Order)

  /** What Redis holds under the key: nothing, the bare gate, or the created order. */
  datatype Cell = Absent | Taken | Stored(order: Placed)

  datatype Reply = Order(order: Placed) | Conflict | CreateFailed

  datatype Pc =
    | Creating(gated: bool)
    | Created(order: Placed, gated: bool)
    | Failing(gated: bool)
    | Replaying
    | Replied(reply: Reply)

  datatype State = State(cell: Cell, orders: seq<Placed>, requests: map<RequestId, Pc>)

  datatype Step =
    | SetNX(r: RequestId)
    | SetNXFails(r: RequestId)           // Redis unreachable: the request goes on without the gate
    | CreateOk(r: RequestId, order: Placed)
    | CreateFail(r: RequestId)           // nothing committed
    | Store(r: RequestId, ok: bool)      // keep the order for replays; may fail
    | Delete(r: RequestId, ok: bool)     // open the gate again after a failed create; may fail
    | Get(r: RequestId, ok: bool)
    | Crash(r: RequestId)
    | Expire                             // the key's TTL runs out

  const INIT := State(Absent, [], map[])

  function At(s: State, r: RequestId, pc: Pc): State {
    s.(requests := s.requests[r := pc])
  }

  function Next(s: State, step: Step): State {
    match step
    case SetNX(r) =>
      if r in s.requests then s
      else if s.cell == Absent then At(s.(cell := Taken), r, Creating(true))
      else At(s, r, Replaying)
    case SetNXFails(r) => if r in s.requests then s else At(s, r, Creating(false))
    case CreateOk(r, order) =>
      if r in s.requests && s.requests[r].Creating? && order !in s.orders
      then At(s.(orders := s.orders + [order]), r, Created(order, s.requests[r].gated))
      else s
    case CreateFail(r) =>
      if r in s.requests && s.requests[r].Creating? then At(s, r, Failing(s.requests[r].gated)) else s
    case Store(r, ok) =>
      if r in s.requests && s.requests[r].Created? then
        var pc := s.requests[r];
        At(s.(cell := if pc.gated && ok then Stored(pc.order) else s.cell), r, Replied(Order(pc.order)))
      else s
    case Delete(r, ok) =>
      if r in s.requests && s.requests[r].Failing?
      then At(s.(cell := if s.requests[r].gated && ok then Absent else s.cell), r, Replied(CreateFailed))
      else s
    case Get(r, ok) =>
      if r in s.requests && s.requests[r].Replaying?
      then At(s, r, Replied(if ok && s.cell.Stored? then Order(s.cell.order) else Conflict))
      else s
    case Crash(r) => s.(requests := s.requests - {r})
    case Expire => s.(cell := Absent)
  }

  function Exec(s: State, steps: seq<Step>): State {
    if steps == [] then s else Next(Exec(s, steps[..|steps| - 1]), steps[|steps| - 1])
  }

  /** A run in which the gate itself answers and the key does not expire. Later Redis calls may fail. */
  ghost predicate Undisturbed(steps: seq<Step>) {
    forall i :: 0 <= i < |steps| ==> !steps[i].SetNXFails? && !steps[i].Expire?
  }

  ghost predicate Holder(pc: Pc) {
    pc.Creating? || pc.Created? || pc.Failing?
  }

  ghost predicate HolderOk(s: State, pc: Pc) {
    match pc
    case Creating(gated) => gated && s.cell == Taken && s.orders == []
    case Failing(gated) => gated && s.cell == Taken && s.orders == []
    case Created(order, gated) => gated && s.cell == Taken && s.orders == [order]
    case Replaying => true
    case Replied(reply) => reply.Order? ==> s.orders == [reply.order]
  }

  ghost predicate Inv(s: State) {
    && |s.orders| <= 1
    && (s.cell == Absent ==> s.orders == [])
    && (s.cell.Stored? ==> s.orders == [s.cell.order])
    && (forall r :: r in s.requests ==> HolderOk(s, s.requests[r]))
    && (forall q, r :: q in s.requests && r in s.requests && Holder(s.requests[q]) && Holder(s.requests[r]) ==> q == r)
  }

  lemma StepKeeps(s: State, step: Step)
    requires Inv(s) && !step.SetNXFails? && !step.Expire?
    ensures Inv(Next(s, step))
  {
  }

  /** For any number of concurrent requests with one key, with no Redis error at the gate and no
      expiry: at most one order is committed, and every reply is that order, a conflict, or the
      caller's own failure to create. */
  lemma {:induction false} OneOrderPerKey(steps: seq<Step>)
    requires Undisturbed(steps)
    ensures var s := Exec(INIT, steps);
      && Inv(s)
      && |s.orders| <= 1
      && forall r :: r in s.requests && s.requests[r].Replied? && s.requests[r].reply.Order? ==>
           s.orders == [s.requests[r].reply.order]
  {
    if steps != [] {
      OneOrderPerKey(steps[..|steps| - 1]);
      StepKeeps(Exec(INIT, steps[..|steps| - 1]), steps[|steps| - 1]);
    }
  }

  /** Once the order is committed the gate stays shut: no later request creates another, however
      the later requests interleave, fail or crash, as long as the gate goes on answering and the
      key does not expire. ExpiryHarmlessExactly and OutageHarmlessExactly say when these matter. */
  lemma {:induction false} OrderIsFinal(steps: seq<Step>, more: seq<Step>)
    requires Undisturbed(steps) && Undisturbed(more) && Exec(INIT, steps).orders != []
    ensures Exec(Exec(INIT, steps), more).orders == Exec(INIT, steps).orders && Inv(Exec(Exec(INIT, steps), more))
  {
    OneOrderPerKey(steps);
    if more != [] {
      OrderIsFinal(steps, more[..|more| - 1]);
      StepKeeps(Exec(Exec(INIT, steps), more[..|more| - 1]), more[|more| - 1]);
    }
  }

  /** Idempotent replay: once the order is stored under the key it stays there, and every later
      request that finds the gate shut and can read it is answered with that very order. */
  lemma {:induction false} StoredIsReplayed(steps: seq<Step>, more: seq<Step>, r: RequestId)
    requires Undisturbed(steps) && Undisturbed(more) && Exec(INIT, steps).cell.Stored?
    ensures var order := Exec(INIT, steps).cell.order;
      var s := Exec(Exec(INIT, steps), more);
      && Inv(s) && s.cell == Stored(order) && s.orders == [order]
      && (r !in s.requests ==> r in Next(s, SetNX(r)).requests && Next(s, SetNX(r)).requests[r] == Replaying)
      && (r in s.requests && s.requests[r] == Replaying ==>
            && Next(s, Get(r, true)).requests[r] == Replied(Order(order))
            && Next(s, Get(r, false)).requests[r] == Replied(Conflict))
  {
    OneOrderPerKey(steps);
    if more != [] {
      var before := more[..|more| - 1];
      StoredIsReplayed(steps, before, r);
      StepKeeps(Exec(Exec(INIT, steps), before), more[|more| - 1]);
      StoredStays(Exec(Exec(INIT, steps), before), more[|more| - 1]);
    }
  }

  /** A request whose order is stored is repeated in vain: whatever happens in between, any later
      request under the key that can read it is answered with the first one's order, and there is no
      other order. */
  lemma RetryGetsTheOrder(steps: seq<Step>, r: RequestId, order: Placed, more: seq<Step>, q: RequestId)
    requires Undisturbed(steps) && Undisturbed(more)
    requires r in Exec(INIT, steps).requests && Exec(INIT, steps).requests[r] == Created(order, true)
    requires q !in Exec(Next(Exec(INIT, steps), Store(r, true)), more).requests
    ensures var s := Exec(Next(Exec(INIT, steps), Store(r, true)), more);
      var answered := Next(Next(s, SetNX(q)), Get(q, true));
      && q in answered.requests && answered.requests[q] == Replied(Order(order))
      && answered.orders == [order]
  {
    OneOrderPerKey(steps);
    Extend(steps, Store(r, true));
    assert Exec(INIT, steps).orders == [order];
    assert Exec(INIT, steps + [Store(r, true)]).cell == Stored(order);
    StoredIsReplayed(steps + [Store(r, true)], more, q);
  }

  lemma StoredStays(s: State, step: Step)
    requires Inv(s) && s.cell.Stored? && !step.Expire?
    ensures Next(s, step).cell == s.cell && (!step.SetNXFails? ==> Next(s, step).orders == s.orders)
  {
  }

  lemma Extend(steps: seq<Step>, step: Step)
    ensures Exec(INIT, steps + [step]) == Next(Exec(INIT, steps), step)
  {
    assert (steps + [step])[..|steps|] == steps;
  }

  // ---------------------------------------------------------------- which disturbances do harm

  /** However the requests go on, as long as the gate answers and the key does not expire, there is
      at most one order. */
  ghost predicate Once(s: State) {
    forall more :: Undisturbed(more) ==> |Exec(s, more).orders| <= 1
  }

  /** May still create an order, or will open the gate for another request to do so. */
  predicate Live(pc: Pc) {
    pc.Creating? || (pc.Failing? && pc.gated)
  }

  ghost function LiveOnes(s: State): set<RequestId> {
    set r | r in s.requests && Live(s.requests[r])
  }

  /** Orders there are, orders that requests under way may yet bring, and one more if the gate is open. */
  ghost function Potential(s: State): nat {
    |s.orders| + |LiveOnes(s)| + if s.cell == Absent then 1 else 0
  }

  lemma LiveAfter(s: State, cell: Cell, orders: seq<Placed>, r: RequestId, pc: Pc)
    ensures LiveOnes(At(s.(cell := cell, orders := orders), r, pc))
         == if Live(pc) then LiveOnes(s) + {r} else LiveOnes(s) - {r}
  {
  }

  /** One request's share of the potential, with the orders and the gate. */
  function Share(cell: Cell, orders: seq<Placed>, live: bool): nat {
    |orders| + (if live then 1 else 0) + (if cell == Absent then 1 else 0)
  }

  predicate IsLive(s: State, r: RequestId) {
    r in s.requests && Live(s.requests[r])
  }

  lemma PotentialMoves(s: State, cell: Cell, orders: seq<Placed>, r: RequestId, pc: Pc)
    requires Share(cell, orders, Live(pc)) <= Share(s.cell, s.orders, IsLive(s, r))
    ensures Potential(At(s.(cell := cell, orders := orders), r, pc)) <= Potential(s)
  {
    LiveAfter(s, cell, orders, r, pc);
    assert LiveOnes(s) == if IsLive(s, r) then (LiveOnes(s) - {r}) + {r} else LiveOnes(s) - {r};
    assert LiveOnes(s) + {r} == (LiveOnes(s) - {r}) + {r};
  }

  /** Only one request moves, and its share does not grow. */
  lemma StepShares(s: State, step: Step)
    requires !step.SetNXFails? && !step.Expire? && !step.Crash? && Next(s, step) != s
    ensures var s' := Next(s, step);
      && step.r in s'.requests && s' == At(s.(cell := s'.cell, orders := s'.orders), step.r, s'.requests[step.r])
      && Share(s'.cell, s'.orders, IsLive(s', step.r)) <= Share(s.cell, s.orders, IsLive(s, step.r))
  {
  }

  lemma StepPotential(s: State, step: Step)
    requires !step.SetNXFails? && !step.Expire?
    ensures Potential(Next(s, step)) <= Potential(s)
  {
    if step.Crash? {
      assert LiveOnes(Next(s, step)) == LiveOnes(s) - {step.r};
    } else if Next(s, step) != s {
      StepShares(s, step);
      var s' := Next(s, step);
      PotentialMoves(s, s'.cell, s'.orders, step.r, s'.requests[step.r]);
    }
  }

  lemma {:induction false} PotentialNeverRises(s: State, more: seq<Step>)
    requires Undisturbed(more)
    ensures Potential(Exec(s, more)) <= Potential(s)
  {
    if more != [] {
      PotentialNeverRises(s, more[..|more| - 1]);
      StepPotential(Exec(s, more[..|more| - 1]), more[|more| - 1]);
    }
  }

  lemma {:induction false} Prepend(s: State, first: Step, rest: seq<Step>)
    ensures Exec(s, [first] + rest) == Exec(Next(s, first), rest)
  {
    if rest == [] {
      assert [first] + rest == [first] && [first][..0] == [];
    } else {
      Prepend(s, first, rest[..|rest| - 1]);
      assert ([first] + rest)[..|rest|] == [first] + rest[..|rest| - 1];
    }
  }

  lemma {:induction false} FreshOrder(orders: seq<Placed>) returns (order: Placed)
    ensures order !in orders && forall o :: o in orders ==> o.id < order.id
  {
    if orders == [] {
      return Placed(0, O.Order(7, "SKU-003", 3, "p", 100, O.Pending, 0, None));
    }
    var last := orders[|orders| - 1];
    order := FreshOrder(orders[..|orders| - 1]);
    order := order.(id := order.id + last.id + 1);
  }

  lemma {:induction false} FreshRequest(taken: set<RequestId>) returns (r: RequestId)
    ensures forall q :: q in taken ==> q < r
    decreases |taken|
  {
    if taken == {} {
      return 0;
    }
    var q :| q in taken;
    var rest := FreshRequest(taken - {q});
    assert forall p :: p in taken ==> p == q || p in taken - {q};
    r := rest + q + 1;
  }

  ghost function FailingOnes(s: State): set<RequestId> {
    set r | r in s.requests && s.requests[r].Failing? && s.requests[r].gated
  }

  lemma PassTheGate(s: State) returns (step: Step)
    requires s.cell == Absent
    ensures step.SetNX? && Next(s, step).cell != Absent
    ensures Potential(Next(s, step)) == Potential(s) && FailingOnes(Next(s, step)) == FailingOnes(s)
  {
    var r := FreshRequest(s.requests.Keys);
    step := SetNX(r);
    LiveAfter(s, Taken, s.orders, r, Creating(true));
  }

  lemma OpenTheGate(s: State, f: RequestId)
    requires s.cell != Absent && f in FailingOnes(s)
    ensures Potential(Next(s, Delete(f, true))) == Potential(s)
    ensures FailingOnes(Next(s, Delete(f, true))) == FailingOnes(s) - {f}
  {
    LiveAfter(s, Absent, s.orders, f, Replied(CreateFailed));
  }

  lemma CreateTheOrder(s: State, r: RequestId) returns (step: Step)
    requires s.cell != Absent && r in s.requests && s.requests[r].Creating?
    ensures step.CreateOk? && Next(s, step).cell == s.cell && FailingOnes(Next(s, step)) == FailingOnes(s)
    ensures Potential(Next(s, step)) == Potential(s) && LiveOnes(Next(s, step)) == LiveOnes(s) - {r}
  {
    var order := FreshOrder(s.orders);
    step := CreateOk(r, order);
    LiveAfter(s, s.cell, s.orders + [order], r, Created(order, s.requests[r].gated));
  }

  /** All the potential can be realised: whoever is creating creates, whoever is failing opens the
      gate, and a new request passes it. */
  lemma {:induction false} Realise(s: State) returns (more: seq<Step>)
    ensures Undisturbed(more) && |Exec(s, more).orders| == Potential(s)
    decreases |FailingOnes(s)|, if s.cell == Absent then 1 else 0, |LiveOnes(s)|
  {
    if Potential(s) == |s.orders| {
      return [];
    }
    var step;
    if s.cell == Absent {
      step := PassTheGate(s);
    } else if FailingOnes(s) != {} {
      var f :| f in FailingOnes(s);
      step := Delete(f, true);
      OpenTheGate(s, f);
    } else {
      var r :| r in LiveOnes(s);
      assert r !in FailingOnes(s);
      step := CreateTheOrder(s, r);
    }
    more := Realise(Next(s, step));
    Prepend(s, step, more);
    more := [step] + more;
  }

  /** In any state, however disturbed the run that led there: there will be at most one order if
      and only if the potential is at most 1. */
  lemma OnceExactly(s: State)
    ensures Once(s) <==> Potential(s) <= 1
  {
    if Potential(s) <= 1 {
      forall more | Undisturbed(more) ensures |Exec(s, more).orders| <= 1 {
        PotentialNeverRises(s, more);
      }
    } else {
      var more := Realise(s);
    }
  }

  /** No request has passed the gate and is still about its order. */
  ghost predicate Settled(s: State) {
    forall r :: r in s.requests ==> !Holder(s.requests[r])
  }

  lemma LiveIsHolder(s: State)
    requires Inv(s)
    ensures s.orders == [] ==> (LiveOnes(s) == {} <==> Settled(s))
  {
    if s.orders == [] {
      forall r | r in s.requests ensures r in LiveOnes(s) <==> Holder(s.requests[r]) {
      }
    }
  }

  /** The first expiry is harmless if and only if there is no order and no request about one: the
      failing inputs are an expiry during a create, after one, and before a failed create has
      deleted its key, which then opens the gate of the next request. */
  lemma ExpiryHarmlessExactly(steps: seq<Step>)
    requires Undisturbed(steps)
    ensures var s := Exec(INIT, steps);
      Once(Next(s, Expire)) <==> s.orders == [] && Settled(s)
  {
    OneOrderPerKey(steps);
    var s := Exec(INIT, steps);
    OnceExactly(Next(s, Expire));
    LiveIsHolder(s);
    assert LiveOnes(Next(s, Expire)) == LiveOnes(s);
  }

  /** The first request to go on without the gate is harmless if and only if there is no order, no
      other request about one, and the gate is shut: left behind by a request that has crashed, or
      whose failed create could not delete its key. */
  lemma OutageHarmlessExactly(steps: seq<Step>, q: RequestId)
    requires Undisturbed(steps) && q !in Exec(INIT, steps).requests
    ensures var s := Exec(INIT, steps);
      Once(Next(s, SetNXFails(q))) <==> s.orders == [] && Settled(s) && s.cell == Taken
  {
    OneOrderPerKey(steps);
    var s := Exec(INIT, steps);
    OnceExactly(Next(s, SetNXFails(q)));
    LiveIsHolder(s);
    LiveAfter(s, s.cell, s.orders, q, Creating(false));
  }

  /** Both exceptions are needed: when the key expires under a slow create, or when Redis cannot
      be reached, two requests with one key commit two orders. */
  lemma GateCanBePassedTwice(expiry: bool) returns (steps: seq<Step>)
    ensures |Exec(INIT, steps).orders| == 2
  {
    var disturbance := if expiry then Expire else SetNXFails(2);
    var s1 := Next(INIT, SetNX(1));
    var s2 := Next(s1, disturbance);
    assert LiveOnes(s2) == if expiry then {1} else {1, 2};
    var more := Realise(s2);
    Prepend(s1, disturbance, more);
    Prepend(INIT, SetNX(1), [disturbance] + more);
    steps := [SetNX(1)] + ([disturbance] + more);
  }

  // ---------------------------------------------------------------- one request, start to end

  /** What the environment does to one request. */
  datatype Env = Env(
    hasKey: bool, setNXFails: bool, createFails: bool, storeFails: bool, deleteFails: bool, getFails: bool,
    order: Placed)

  class Creator {
    var cell: Cell
    var orders: seq<Placed>

    constructor ()
      ensures cell == Absent && orders == []
    {
      cell, orders := Absent, [];
    }

    method ReplayOrder(getFails: bool) returns (reply: Reply)
      ensures reply == if !getFails && cell.Stored? then Order(cell.order) else Conflict
    {
      if !getFails && cell.Stored? {
        return Order(cell.order);
      }
      return Conflict;
    }

    /** A whole request, undisturbed by others. */
    method Create(env: Env) returns (reply: Reply)
      modifies this
      ensures (cell, orders, reply) == Alone(old(cell), old(orders), env)
      ensures env.hasKey && !env.setNXFails && old(cell) != Absent ==>
        && cell == old(cell) && orders == old(orders)
        && reply == match old(cell)
                    case Stored(order) => if env.getFails then Conflict else Order(order)
                    case _ => Conflict
      ensures (!env.hasKey || env.setNXFails || old(cell) == Absent) && env.createFails ==>
        && orders == old(orders) && reply == CreateFailed
        && (env.hasKey && !env.setNXFails ==> cell == if env.deleteFails then Taken else Absent)
      ensures (!env.hasKey || env.setNXFails || old(cell) == Absent) && !env.createFails ==>
        && orders == old(orders) + [env.order] && reply == Order(env.order)
        && (env.hasKey && !env.setNXFails ==> cell == if env.storeFails then Taken else Stored(env.order))
      ensures !env.hasKey || env.setNXFails ==> cell == old(cell)
    {
      var gated := false;
      if env.hasKey && !env.setNXFails {
        if cell != Absent {
          reply := ReplayOrder(env.getFails);
          return;
        }
        cell, gated := Taken, true;
      }
      if env.createFails {
        if gated && !env.deleteFails {
          cell := Absent;
        }
        return CreateFailed;
      }
      orders := orders + [env.order];
      if gated && !env.storeFails {
        cell := Stored(env.order);
      }
      return Order(env.order);
    }
  }

  /** What a request that meets no other leaves and answers. */
  function Alone(cell: Cell, orders: seq<Placed>, env: Env): (Cell, seq<Placed>, Reply) {
    var gated := env.hasKey && !env.setNXFails;
    if gated && cell != Absent then
      (cell, orders, if !env.getFails && cell.Stored? then Order(cell.order) else Conflict)
    else if env.createFails then
      (if gated then (if env.deleteFails then Taken else Absent) else cell, orders, CreateFailed)
    else
      (if gated then (if env.storeFails then Taken else Stored(env.order)) else cell,
       orders + [env.order], Order(env.order))
  }

  /** The calls one request makes; without a key it makes none to the gate, as when Redis fails. */
  function Calls(cell: Cell, env: Env, r: RequestId): seq<Step> {
    if env.hasKey && !env.setNXFails && cell != Absent then [SetNX(r), Get(r, !env.getFails)]
    else if env.createFails then [First(env, r), CreateFail(r), Delete(r, !env.deleteFails)]
    else [First(env, r), CreateOk(r, env.order), Store(r, !env.storeFails)]
  }

  function First(env: Env, r: RequestId): Step {
    if env.hasKey && !env.setNXFails then SetNX(r) else SetNXFails(r)
  }

  /** A whole request is those calls of the concurrent machine in a row. */
  lemma AloneIsARun(cell: Cell, orders: seq<Placed>, env: Env, r: RequestId)
    requires env.order !in orders
    ensures var (c, o, reply) := Alone(cell, orders, env);
      Exec(State(cell, orders, map[]), Calls(cell, env, r)) == State(c, o, map[r := Replied(reply)])
  {
    var s := State(cell, orders, map[]);
    if env.hasKey && !env.setNXFails && cell != Absent {
      Calls2(s, SetNX(r), Get(r, !env.getFails));
      assert Next(s, SetNX(r)) == State(cell, orders, map[r := Replaying]);
    } else {
      FirstStep(s, env, r);
      if env.createFails {
        Calls3(s, First(env, r), CreateFail(r), Delete(r, !env.deleteFails));
        FailingSteps(Next(s, First(env, r)), env, r);
      } else {
        Calls3(s, First(env, r), CreateOk(r, env.order), Store(r, !env.storeFails));
        CreatingSteps(Next(s, First(env, r)), env, r);
      }
    }
  }

  lemma FailingSteps(s: State, env: Env, r: RequestId)
    requires s.requests == map[r := Creating(env.hasKey && !env.setNXFails)]
    ensures Next(Next(s, CreateFail(r)), Delete(r, !env.deleteFails)) ==
      State(if env.hasKey && !env.setNXFails && !env.deleteFails then Absent else s.cell,
            s.orders, map[r := Replied(CreateFailed)])
  {
    assert Next(s, CreateFail(r)).requests == map[r := Failing(env.hasKey && !env.setNXFails)];
  }

  lemma CreatingSteps(s: State, env: Env, r: RequestId)
    requires s.requests == map[r := Creating(env.hasKey && !env.setNXFails)] && env.order !in s.orders
    ensures Next(Next(s, CreateOk(r, env.order)), Store(r, !env.storeFails)) ==
      State(if env.hasKey && !env.setNXFails && !env.storeFails then Stored(env.order) else s.cell,
            s.orders + [env.order], map[r := Replied(Order(env.order))])
  {
    assert Next(s, CreateOk(r, env.order)).requests == map[r := Created(env.order, env.hasKey && !env.setNXFails)];
  }

  lemma FirstStep(s: State, env: Env, r: RequestId)
    requires s.requests == map[] && (env.hasKey && !env.setNXFails ==> s.cell == Absent)
    ensures var gated := env.hasKey && !env.setNXFails;
      Next(s, First(env, r)) == State(if gated then Taken else s.cell, s.orders, map[r := Creating(gated)])
  {
  }

  lemma Calls2(s: State, a: Step, b: Step)
    ensures Exec(s, [a, b]) == Next(Next(s, a), b)
  {
    assert [a, b][..1] == [a] && [a][..0] == [];
    assert Exec(s, [a]) == Next(s, a);
  }

  lemma Calls3(s: State, a: Step, b: Step, c: Step)
    ensures Exec(s, [a, b, c]) == Next(Next(Next(s, a), b), c)
  {
    Calls2(s, a, b);
    assert [a, b, c][..2] == [a, b];
  }
}
