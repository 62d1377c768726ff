/** Runs that show what the saga does not guarantee. Each phase is a few steps between two
    states written out in full. */
module SagaWitnesses {
  import opened Events
  import opened Outbox
  import opened Saga
  import Dedup
  import I = Inventory
  import O = Orders
  import opened SagaConvergence

  const SKU: Sku := "SKU-003"
  const TOTALS: map<Sku, nat> := map[SKU := 10]
  const REQUEST := O.NewOrder(7, SKU, 3, "p", 100)
  const PLACED := O.Order(7, SKU, 3, "p", 100, O.Pending, 0, None)
  const GONE := O.Advance(PLACED, O.Cancelled, Some(UserCancelled))
  const CREATED := O.CreatedEvent(1, PLACED)
  const CANCELLED := OrderCancelled(1, SKU, 3, UserCancelled)
  const STOCK := I.Tables(map[SKU := I.Product(10, 10)], map[], map[])

  /** Order 1 exists and has been cancelled by its user; nothing is published yet. */
  const AFTER_CANCEL := State(
    Dedup.Store(O.Tables(map[1 := GONE], map[100 := Fresh(CREATED), 101 := Fresh(CANCELLED)]), map[]),
    Dedup.Store(STOCK, map[]), [], [], map[0 := Update(1, PLACED)])

  const SENT_ROWS: map<EventId, Row<OrderEvent>> :=
    map[100 := Row(CREATED, RowSent, 0), 101 := Row(CANCELLED, RowSent, 0)]
  const BOTH := [Msg(100, CREATED), Msg(101, CANCELLED)]

  /** Both events are on the topic and marked. */
  const AFTER_RELAY := AFTER_CANCEL.(
    odb := Dedup.Store(O.Tables(map[1 := GONE], SENT_ROWS), map[]), orderLog := BOTH)

  /** The inventory has handled the cancellation, then the creation. */
  const GRANTED := I.Tables(map[SKU := I.Product(10, 7)], map[1 := I.Reservation(SKU, 3, I.Reserved)],
                            map[200 := Fresh(InventoryReserved(1))])
  const AFTER_HANDLING := AFTER_RELAY.(idb := Dedup.Store(GRANTED, map[101 := 0, 100 := 1]))

  /** The inventory's answer has been relayed. */
  const ANSWER := Msg(200, InventoryReserved(1))
  const ANSWER_SENT: map<EventId, Row<InventoryEvent>> := map[200 := Row(InventoryReserved(1), RowSent, 0)]
  const ANSWERED := AFTER_HANDLING.(
    idb := Dedup.Store(GRANTED.(outbox := ANSWER_SENT), map[101 := 0, 100 := 1]), inventoryLog := [ANSWER])

  /** The answer has been handled: the system is at rest. */
  const AT_REST := ANSWERED.(
    odb := Dedup.Store(O.Tables(map[1 := GONE], SENT_ROWS), map[200 := 0]),
    requests := map[0 := Update(1, PLACED), 1 := Handling(ANSWER, Some(GONE))])

  lemma Extend(s: State, steps: seq<Step>, step: Step)
    ensures Exec(s, steps + [step]) == Next(Exec(s, steps), step)
  {
    assert (steps + [step])[..|steps|] == steps;
  }

  lemma CreateAndCancel() returns (steps: seq<Step>)
    ensures Exec(Init(TOTALS), steps) == AFTER_CANCEL
  {
    var s0 := Init(TOTALS);
    assert s0.idb.data == STOCK;
    var s1 := Next(s0, CreateOrder(1, REQUEST, 100));
    assert s1.odb.data == O.Tables(map[1 := PLACED], map[100 := Fresh(CREATED)]);
    var s2 := Next(s1, ReadOrder(0, 7, 1));
    assert s2.requests == map[0 := Update(1, PLACED)];
    steps := [CreateOrder(1, REQUEST, 100)];
    Extend(s0, [], CreateOrder(1, REQUEST, 100));
    assert [] + steps == steps;
    Extend(s0, steps, ReadOrder(0, 7, 1));
    steps := steps + [ReadOrder(0, 7, 1)];
    Extend(s0, steps, UserCancel(0, 101));
    steps := steps + [UserCancel(0, 101)];
    assert map[1 := PLACED][1 := GONE] == map[1 := GONE];
    assert Next(s2, UserCancel(0, 101)) == AFTER_CANCEL;
  }

  lemma PublishBoth(steps: seq<Step>) returns (steps': seq<Step>)
    requires Exec(Init(TOTALS), steps) == AFTER_CANCEL
    ensures Exec(Init(TOTALS), steps') == AFTER_CANCEL.(orderLog := BOTH)
  {
    Extend(Init(TOTALS), steps, RelayOrders(Publish(100)));
    steps' := steps + [RelayOrders(Publish(100))];
    var s1 := Next(AFTER_CANCEL, RelayOrders(Publish(100)));
    assert s1 == AFTER_CANCEL.(orderLog := [Msg(100, CREATED)]);
    Extend(Init(TOTALS), steps', RelayOrders(Publish(101)));
    steps' := steps' + [RelayOrders(Publish(101))];
    assert Next(s1, RelayOrders(Publish(101))) == AFTER_CANCEL.(orderLog := BOTH);
  }

  lemma MarkBoth(steps: seq<Step>) returns (steps': seq<Step>)
    requires Exec(Init(TOTALS), steps) == AFTER_CANCEL.(orderLog := BOTH)
    ensures Exec(Init(TOTALS), steps') == AFTER_RELAY
  {
    assert BOTH[0] in BOTH && BOTH[1] in BOTH;
    Extend(Init(TOTALS), steps, RelayOrders(MarkAsSent(100)));
    steps' := steps + [RelayOrders(MarkAsSent(100))];
    var s1 := Next(AFTER_CANCEL.(orderLog := BOTH), RelayOrders(MarkAsSent(100)));
    Extend(Init(TOTALS), steps', RelayOrders(MarkAsSent(101)));
    steps' := steps' + [RelayOrders(MarkAsSent(101))];
    assert Next(s1, RelayOrders(MarkAsSent(101))).odb.data.outbox == SENT_ROWS;
  }

  lemma HandleInWrongOrder(steps: seq<Step>) returns (steps': seq<Step>)
    requires Exec(Init(TOTALS), steps) == AFTER_RELAY
    ensures Exec(Init(TOTALS), steps') == AFTER_HANDLING
  {
    var s0, s := Init(TOTALS), AFTER_RELAY;
    assert BOTH[0] in BOTH && BOTH[1] in BOTH;
    Extend(s0, steps, CommitOrderEvent(BOTH[1], 0));
    steps' := steps + [CommitOrderEvent(BOTH[1], 0)];
    var s1 := Next(s, CommitOrderEvent(BOTH[1], 0));
    assert s1.idb == Dedup.Store(STOCK, map[101 := 0]);
    Extend(s0, steps', CommitOrderEvent(BOTH[0], 200));
    steps' := steps' + [CommitOrderEvent(BOTH[0], 200)];
    assert I.Adjust(STOCK.products, SKU, -3) == GRANTED.products;
    assert I.Handle(STOCK, CREATED, 200) == Some(GRANTED);
    assert Next(s1, CommitOrderEvent(BOTH[0], 200)).idb.processed == map[101 := 0, 100 := 1];
  }

  lemma RelayAnswer(steps: seq<Step>) returns (steps': seq<Step>)
    requires Exec(Init(TOTALS), steps) == AFTER_HANDLING
    ensures Exec(Init(TOTALS), steps') == ANSWERED
  {
    var s0, s := Init(TOTALS), AFTER_HANDLING;
    Extend(s0, steps, RelayInventory(Publish(200)));
    steps' := steps + [RelayInventory(Publish(200))];
    var s1 := Next(s, RelayInventory(Publish(200)));
    assert s1 == s.(inventoryLog := [ANSWER]);
    Extend(s0, steps', RelayInventory(MarkAsSent(200)));
    steps' := steps' + [RelayInventory(MarkAsSent(200))];
    assert [ANSWER][0] in [ANSWER];
    assert Next(s1, RelayInventory(MarkAsSent(200))).idb.data.outbox == ANSWER_SENT;
  }

  lemma HandleAnswer(steps: seq<Step>) returns (steps': seq<Step>)
    requires Exec(Init(TOTALS), steps) == ANSWERED
    ensures Exec(Init(TOTALS), steps') == AT_REST
  {
    assert [ANSWER][0] in [ANSWER];
    Extend(Init(TOTALS), steps, BeginInventoryEvent(1, ANSWER));
    steps' := steps + [BeginInventoryEvent(1, ANSWER)];
    var s1 := Next(ANSWERED, BeginInventoryEvent(1, ANSWER));
    assert s1.requests == map[0 := Update(1, PLACED), 1 := Handling(ANSWER, Some(GONE))];
    Extend(Init(TOTALS), steps', CommitInventoryEvent(1, 0));
    steps' := steps' + [CommitInventoryEvent(1, 0)];
    assert Next(s1, CommitInventoryEvent(1, 0)).odb.processed == map[200 := 0];
  }

  /** The leak is real: a run that comes to rest with stock held for a cancelled order. */
  lemma LeakingRun() returns (steps: seq<Step>)
    ensures var s := Exec(Init(TOTALS), steps);
      && Quiescent(s)
      && 1 in s.odb.data.orders && s.odb.data.orders[1].status == O.Cancelled
      && Active(s.idb.data, 1)
  {
    steps := CreateAndCancel();
    steps := PublishBoth(steps);
    steps := MarkBoth(steps);
    steps := HandleInWrongOrder(steps);
    steps := RelayAnswer(steps);
    steps := HandleAnswer(steps);
  }

  // ---------------------------------------------------------------- paid, and no stock

  const BIG_REQUEST := O.NewOrder(7, SKU, 11, "p", 100)
  const BIG := O.Order(7, SKU, 11, "p", 100, O.Pending, 0, None)
  const BIG_PAID := BIG.(status := O.Paid, version := 1)
  const BIG_CREATED := O.CreatedEvent(1, BIG)
  const REFUSAL := ReservationFailed(1, OutOfStock)

  /** 11 of 10 have been ordered and paid for. */
  const AFTER_PAY := State(
    Dedup.Store(O.Tables(map[1 := BIG_PAID], map[100 := Fresh(BIG_CREATED)]), map[]),
    Dedup.Store(STOCK, map[]), [], [], map[0 := Update(1, BIG)])

  /** The inventory has been told, and has refused. */
  const BIG_SENT: map<EventId, Row<OrderEvent>> := map[100 := Row(BIG_CREATED, RowSent, 0)]
  const AFTER_TOLD := AFTER_PAY.(
    odb := Dedup.Store(O.Tables(map[1 := BIG_PAID], BIG_SENT), map[]), orderLog := [Msg(100, BIG_CREATED)])
  const AFTER_REFUSAL := AFTER_TOLD.(idb := Dedup.Store(STOCK.(outbox := map[200 := Fresh(REFUSAL)]), map[100 := 0]))

  /** The refusal has been relayed, and handled to no effect: the system is at rest. */
  const REFUSAL_SENT: map<EventId, Row<InventoryEvent>> := map[200 := Row(REFUSAL, RowSent, 0)]
  const AFTER_REPLY := AFTER_REFUSAL.(
    idb := Dedup.Store(STOCK.(outbox := REFUSAL_SENT), map[100 := 0]), inventoryLog := [Msg(200, REFUSAL)])
  const PAID_AT_REST := AFTER_REPLY.(
    odb := Dedup.Store(O.Tables(map[1 := BIG_PAID], BIG_SENT), map[200 := 0]),
    requests := map[0 := Update(1, BIG), 1 := Handling(Msg(200, REFUSAL), Some(BIG_PAID))])

  lemma CreateAndPay() returns (steps: seq<Step>)
    ensures Exec(Init(TOTALS), steps) == AFTER_PAY
  {
    var s0 := Init(TOTALS);
    assert s0.idb.data == STOCK;
    var s1 := Next(s0, CreateOrder(1, BIG_REQUEST, 100));
    assert s1.odb.data == O.Tables(map[1 := BIG], map[100 := Fresh(BIG_CREATED)]);
    var s2 := Next(s1, ReadOrder(0, 7, 1));
    assert s2.requests == map[0 := Update(1, BIG)];
    steps := [CreateOrder(1, BIG_REQUEST, 100)];
    Extend(s0, [], CreateOrder(1, BIG_REQUEST, 100));
    assert [] + steps == steps;
    Extend(s0, steps, ReadOrder(0, 7, 1));
    steps := steps + [ReadOrder(0, 7, 1)];
    Extend(s0, steps, Pay(0));
    steps := steps + [Pay(0)];
    assert map[1 := BIG][1 := BIG_PAID] == map[1 := BIG_PAID];
  }

  lemma TellInventory(steps: seq<Step>) returns (steps': seq<Step>)
    requires Exec(Init(TOTALS), steps) == AFTER_PAY
    ensures Exec(Init(TOTALS), steps') == AFTER_TOLD
  {
    var s0, s := Init(TOTALS), AFTER_PAY;
    Extend(s0, steps, RelayOrders(Publish(100)));
    steps' := steps + [RelayOrders(Publish(100))];
    var s1 := Next(s, RelayOrders(Publish(100)));
    assert s1 == s.(orderLog := [Msg(100, BIG_CREATED)]);
    assert s1.orderLog[0] in s1.orderLog;
    Extend(s0, steps', RelayOrders(MarkAsSent(100)));
    steps' := steps' + [RelayOrders(MarkAsSent(100))];
    assert Next(s1, RelayOrders(MarkAsSent(100))).odb.data.outbox == BIG_SENT;
  }

  lemma Refuse(steps: seq<Step>) returns (steps': seq<Step>)
    requires Exec(Init(TOTALS), steps) == AFTER_TOLD
    ensures Exec(Init(TOTALS), steps') == AFTER_REFUSAL
  {
    assert [Msg(100, BIG_CREATED)][0] in [Msg(100, BIG_CREATED)];
    Extend(Init(TOTALS), steps, CommitOrderEvent(Msg(100, BIG_CREATED), 200));
    steps' := steps + [CommitOrderEvent(Msg(100, BIG_CREATED), 200)];
    assert I.Handle(STOCK, BIG_CREATED, 200) == Some(STOCK.(outbox := map[200 := Fresh(REFUSAL)]));
    assert Next(AFTER_TOLD, CommitOrderEvent(Msg(100, BIG_CREATED), 200)).idb.processed == map[100 := 0];
  }

  lemma RelayRefusal(steps: seq<Step>) returns (steps': seq<Step>)
    requires Exec(Init(TOTALS), steps) == AFTER_REFUSAL
    ensures Exec(Init(TOTALS), steps') == AFTER_REPLY
  {
    var s0, s := Init(TOTALS), AFTER_REFUSAL;
    Extend(s0, steps, RelayInventory(Publish(200)));
    steps' := steps + [RelayInventory(Publish(200))];
    var s1 := Next(s, RelayInventory(Publish(200)));
    assert s1 == s.(inventoryLog := [Msg(200, REFUSAL)]);
    assert s1.inventoryLog[0] in s1.inventoryLog;
    Extend(s0, steps', RelayInventory(MarkAsSent(200)));
    steps' := steps' + [RelayInventory(MarkAsSent(200))];
    assert Next(s1, RelayInventory(MarkAsSent(200))).idb.data.outbox == REFUSAL_SENT;
  }

  lemma HandleRefusal(steps: seq<Step>) returns (steps': seq<Step>)
    requires Exec(Init(TOTALS), steps) == AFTER_REPLY
    ensures Exec(Init(TOTALS), steps') == PAID_AT_REST
  {
    assert [Msg(200, REFUSAL)][0] in [Msg(200, REFUSAL)];
    Extend(Init(TOTALS), steps, BeginInventoryEvent(1, Msg(200, REFUSAL)));
    steps' := steps + [BeginInventoryEvent(1, Msg(200, REFUSAL))];
    var s1 := Next(AFTER_REPLY, BeginInventoryEvent(1, Msg(200, REFUSAL)));
    assert s1.requests == PAID_AT_REST.requests;
    Extend(Init(TOTALS), steps', CommitInventoryEvent(1, 0));
    steps' := steps' + [CommitInventoryEvent(1, 0)];
    assert Next(s1, CommitInventoryEvent(1, 0)).odb.processed == map[200 := 0];
  }

  /** Being paid says nothing about stock: a run that comes to rest with an order that is paid
      and that the inventory has refused, because the refusal came after the payment. */
  lemma PaidWithoutReservation() returns (steps: seq<Step>)
    ensures var s := Exec(Init(TOTALS), steps);
      && Quiescent(s)
      && 1 in s.odb.data.orders && s.odb.data.orders[1].status == O.Paid
      && 1 !in s.idb.data.reservations
  {
    steps := CreateAndPay();
    steps := TellInventory(steps);
    steps := Refuse(steps);
    steps := RelayRefusal(steps);
    steps := HandleRefusal(steps);
  }
}
