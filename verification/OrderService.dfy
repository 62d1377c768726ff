/** The order service as the code runs it: row updates and outbox inserts in sequence, with
    rollback, proved against the transactions of module Orders. */
module OrderService {
  import opened Events
  import opened Outbox
  import opened Orders
  import Dedup

  datatype Error = OrderNotFound | InvalidStatusTransition | OptimisticConflict | Database | Malformed

  /** Database calls that can fail under a transaction. */
  datatype Statement =
    | FindOrder | InsertOrder | UpdateOrder | ReadBack | InsertEvent | FindProcessed | InsertProcessed | CommitTx
    | AckLost  // the commit takes place, and the answer to it does not arrive

  predicate Owns(orders: map<OrderId, Order>, userId: UserId, id: OrderId) {
    id in orders && orders[id].userId == userId
  }

  /** The row still has the owner, status and version it was read with. */
  ghost predicate AsRead(t: Tables, id: OrderId, seen: Order) {
    && id in t.orders && t.orders[id].userId == seen.userId
    && t.orders[id].status == seen.status && t.orders[id].version == seen.version
  }

  /** The order has been settled as asked for, and nothing else has happened. */
  ghost predicate Settled(before: Tables, after: Tables, id: OrderId, seen: Order, to: OrderStatus, eid: EventId) {
    && AsRead(before, id, seen)
    && var row := before.orders[id].(status := to, version := seen.version + 1);
       if to == Paid
       then after.orders == before.orders[id := row] && after.outbox == before.outbox
       else
         && after.orders == before.orders[id := row.(cancelReason := Some(UserCancelled))]
         && eid !in before.outbox
         && after.outbox
            == before.outbox[eid := Row(OrderCancelled(id, row.sku, row.quantity, UserCancelled), RowPending, 0)]
  }

  class Database {
    var orders: map<OrderId, Order>
    var outbox: map<EventId, Row<OrderEvent>>
    var processed: map<EventId, nat>

    function Rows(): Tables
      reads this
    {
      Tables(orders, outbox)
    }

    function Value(): Db
      reads this
    {
      Dedup.Store(Rows(), processed)
    }

    constructor ()
      ensures Value() == Dedup.Store(Tables(map[], map[]), map[])
    {
      orders, outbox, processed := map[], map[], map[];
    }

    /** Another user's order is answered like one that does not exist. */
    method FindByIdAndUserId(id: OrderId, userId: UserId, faults: set<Statement>)
      returns (order: Option<Order>, err: Option<Error>)
      ensures FindOrder in faults ==> err == Some(Error.Database)
      ensures FindOrder !in faults ==> err == if Owns(orders, userId, id) then None else Some(OrderNotFound)
      ensures order.Some? <==> err.None?
      ensures order.Some? ==> id in orders && order.value == orders[id]
    {
      if FindOrder in faults {
        return None, Some(Error.Database);
      }
      if id in orders && orders[id].userId == userId {
        return Some(orders[id]), None;
      }
      return None, Some(OrderNotFound);
    }

    /** The conditional UPDATE to cancelled, then the read of the changed row. */
    method CancelRow(userId: UserId, id: OrderId, version: nat, reason: Reason, faults: set<Statement>)
      returns (affected: int, order: Option<Order>, err: Option<Error>)
      modifies `orders
      ensures err.None? ==>
        if Matches(old(orders), userId, id, Pending, version)
        then affected == 1 && id in orders && order == Some(orders[id])
          && orders == old(orders)[id := Advance(old(orders)[id], Cancelled, Some(reason))]
        else affected == 0 && order == None && orders == old(orders)
      ensures err.Some? ==> err == Some(Error.Database)
      ensures faults == {} ==> err.None?
    {
      if UpdateOrder in faults {
        return 0, None, Some(Error.Database);
      }
      if !Matches(orders, userId, id, Pending, version) {
        return 0, None, None;
      }
      orders := orders[id := Advance(orders[id], Cancelled, Some(reason))];
      if ReadBack in faults {
        return 0, None, Some(Error.Database);
      }
      return 1, Some(orders[id]), None;
    }

    method InsertOutbox(eid: EventId, event: OrderEvent, faults: set<Statement>) returns (err: Option<Error>)
      modifies `outbox
      ensures err.None? ==> eid !in old(outbox) && outbox == old(outbox)[eid := Fresh(event)]
      ensures err.Some? ==> err == Some(Error.Database)
      ensures faults == {} && eid !in old(outbox) ==> err.None?
    {
      if InsertEvent in faults || eid in outbox {
        return Some(Error.Database);
      }
      outbox := outbox[eid := Fresh(event)];
      return None;
    }

    /** Order row and OrderCreated row in one transaction; `id` is what auto-increment assigns. */
    method CreateOrder(id: OrderId, req: NewOrder, eid: EventId, faults: set<Statement>)
      returns (order: Option<Order>, err: Option<Error>)
      modifies this
      ensures err.None? ==>
        Create(old(Rows()), id, req, eid) == Some(Rows()) && id in orders && order == Some(orders[id])
      ensures err.Some? ==> order == None
      ensures err.Some? ==>
        Rows() == old(Rows()) || (AckLost in faults && Create(old(Rows()), id, req, eid) == Some(Rows()))
      ensures processed == old(processed)
      ensures err.None? ==>
        && id !in old(orders) && orders == old(orders)[id := orders[id]]
        && orders[id].userId == req.userId && orders[id].sku == req.sku && orders[id].quantity == req.quantity
        && orders[id].productName == req.productName && orders[id].amount == req.amount
        && orders[id].status == Pending && orders[id].version == 0 && orders[id].cancelReason == None
      ensures err.None? ==>
        && eid !in old(outbox)
        && outbox == old(outbox)[eid := Row(
             OrderCreated(id, req.userId, req.sku, req.quantity, req.productName, req.amount), RowPending, 0)]
      ensures faults == {} ==> (err.None? <==> id !in old(orders) && eid !in old(outbox))
    {
      var before := (orders, outbox);
      var o := Order(req.userId, req.sku, req.quantity, req.productName, req.amount, Pending, 0, None);
      if InsertOrder in faults || id in orders {
        return None, Some(Error.Database);
      }
      orders := orders[id := o];
      err := InsertOutbox(eid, CreatedEvent(id, o), faults);
      if err.None? && CommitTx in faults {
        err := Some(Error.Database);
      }
      if err.Some? {
        orders, outbox := before.0, before.1;
        return None, err;
      }
      if AckLost in faults {
        return None, Some(Error.Database);
      }
      return Some(o), None;
    }

    /** Cancel as read earlier, with the OrderCancelled row in the same transaction. */
    method CancelOrder(id: OrderId, seen: Order, reason: Reason, eid: EventId, faults: set<Statement>)
      returns (order: Option<Order>, err: Option<Error>)
      modifies this
      ensures err.None? ==>
        Cancel(old(Rows()), id, seen, reason, eid) == Done(Rows()) && id in orders && order == Some(orders[id])
      ensures err.Some? ==>
        Rows() == old(Rows()) || (AckLost in faults && Cancel(old(Rows()), id, seen, reason, eid) == Done(Rows()))
      ensures err == Some(OptimisticConflict) ==> Cancel(old(Rows()), id, seen, reason, eid) == Conflict
      ensures processed == old(processed)
      ensures faults == {} ==> match Cancel(old(Rows()), id, seen, reason, eid)
        case Done(_) => err == None
        case Conflict => err == Some(OptimisticConflict)
        case RolledBack => err == Some(Error.Database)
    {
      var before := (orders, outbox);
      var affected;
      affected, order, err := CancelRow(seen.userId, id, seen.version, reason, faults);
      if err.None? && affected == 0 {
        err := Some(OptimisticConflict);
      }
      if err.None? {
        var o := order.value;
        err := InsertOutbox(eid, OrderCancelled(id, o.sku, o.quantity, reason), faults);
      }
      if err.None? && CommitTx in faults {
        err := Some(Error.Database);
      }
      if err.Some? {
        orders, outbox := before.0, before.1;
        order := None;
      } else if AckLost in faults {
        order, err := None, Some(Error.Database);
      }
    }

    /** The single conditional UPDATE to paid. The reply is the caller's own copy with its
        status changed, so its version is one behind the row's. */
    method PaidOrder(id: OrderId, seen: Order, faults: set<Statement>)
      returns (order: Option<Order>, err: Option<Error>)
      modifies `orders
      ensures err.None? ==> Pay(old(Rows()), id, seen) == Some(Rows()) && order == Some(seen.(status := Paid))
      ensures err.None? ==> id in orders && order.value.version + 1 == orders[id].version
      ensures err.Some? ==>
        orders == old(orders) || (AckLost in faults && Pay(old(Rows()), id, seen) == Some(Rows()))
      ensures err == Some(OptimisticConflict) ==> Pay(old(Rows()), id, seen) == None
      ensures faults == {} ==>
        err == if Pay(old(Rows()), id, seen).Some? then None else Some(OptimisticConflict)
    {
      if UpdateOrder in faults {
        return None, Some(Error.Database);
      }
      if !Matches(orders, seen.userId, id, seen.status, seen.version) {
        return None, Some(OptimisticConflict);
      }
      orders := orders[id := orders[id].(status := Paid, version := orders[id].version + 1)];
      if AckLost in faults {
        return None, Some(Error.Database);
      }
      return Some(seen.(status := Paid)), None;
    }

    /** The user's status request: read the order, then pay or cancel it as it was read. Whatever
        `others` do to the tables in between, the compare-and-set decides on what they left: the
        request goes through exactly if the row is still as it was read. Then the row has its new
        status and the next version and is otherwise as it was; a cancellation has written its event
        and a payment has not; and no other order and no other event has changed. */
    method UpdateStatus(userId: UserId, id: OrderId, to: OrderStatus, others: Tables -> Tables,
                        eid: EventId, faults: set<Statement>)
      returns (order: Option<Order>, err: Option<Error>)
      modifies this
      ensures processed == old(processed)
      ensures FindOrder in faults ==> err == Some(Error.Database) && Rows() == old(Rows())
      ensures FindOrder !in faults && !(id in old(orders) && old(orders)[id].userId == userId) ==>
        err == Some(OrderNotFound) && Rows() == old(Rows())
      ensures FindOrder !in faults && id in old(orders) && old(orders)[id].userId == userId ==>
        var seen, between := old(orders)[id], others(old(Rows()));
        if seen.status != Pending || to == Pending
        then err == Some(InvalidStatusTransition) && Rows() == old(Rows())
        else
          && (err.None? ==> order.Some? && order.value.status == to && Settled(between, Rows(), id, seen, to, eid))
          && (err.Some? ==> Rows() == between || (AckLost in faults && Settled(between, Rows(), id, seen, to, eid)))
          && (err == Some(OptimisticConflict) ==> !AsRead(between, id, seen))
          && (faults == {} ==>
                err == if !AsRead(between, id, seen) then Some(OptimisticConflict)
                       else if to == Cancelled && eid in between.outbox then Some(Error.Database)
                       else None)
    {
      var seen;
      seen, err := FindByIdAndUserId(id, userId, faults);
      if err.Some? {
        return None, err;
      }
      if !IsValidTransition(seen.value.status, to) {
        return None, Some(InvalidStatusTransition);
      }
      var between := others(Rows());
      orders, outbox := between.orders, between.outbox;
      if to == Cancelled {
        order, err := CancelOrder(id, seen.value, UserCancelled, eid, faults);
      } else {
        order, err := PaidOrder(id, seen.value, faults);
      }
    }

    /** Automatic cancellation for want of stock, inside the consumer's transaction. An order
        not found, already cancelled, or changed since the read is left as it is; a pending one that
        is as it was read is cancelled, with its event. */
    method HandleReservationFailed(id: OrderId, seen: Option<Order>, eid: EventId, faults: set<Statement>)
      returns (err: Option<Error>)
      modifies `orders, `outbox
      ensures err.None? ==> Handle(old(Rows()), ReservationFailed(id, OutOfStock), seen, eid) == Some(Rows())
      ensures faults == {} && Handle(old(Rows()), ReservationFailed(id, OutOfStock), seen, eid).Some? ==> err.None?
      ensures err.None? ==>
        if seen.Some? && seen.value.status != Cancelled && id in old(orders) && old(orders)[id].status == Pending
          && old(orders)[id].userId == seen.value.userId && old(orders)[id].version == seen.value.version then
          var row := old(orders)[id].(
            status := Cancelled, version := seen.value.version + 1, cancelReason := Some(OutOfStock));
          && orders == old(orders)[id := row] && eid !in old(outbox)
          && outbox == old(outbox)[eid := Row(OrderCancelled(id, row.sku, row.quantity, OutOfStock), RowPending, 0)]
        else Rows() == old(Rows())
      ensures faults == {} && eid !in old(outbox) ==> err.None?
    {
      if FindOrder in faults {
        return Some(Error.Database);
      }
      if seen.None? || seen.value.status == Cancelled {
        return None;
      }
      var affected, order;
      affected, order, err := CancelRow(seen.value.userId, id, seen.value.version, OutOfStock, faults);
      if err.Some? || affected == 0 {
        return err;
      }
      var o := order.value;
      err := InsertOutbox(eid, OrderCancelled(id, o.sku, o.quantity, OutOfStock), faults);
    }

    /** The idempotent transaction around an inventory event: all of it, or none of it. */
    method ProcessEvent(msg: Msg<InventoryEvent>, seen: Option<Order>, eid: EventId, faults: set<Statement>)
      returns (done: bool, err: Option<Error>)
      modifies this
      ensures err.None? ==> Process(old(Value()), msg, seen, eid) == Some(Value())
      ensures err.None? ==> (done <==> msg.eid !in old(processed))
      ensures err.Some? ==>
        || Value() == old(Value())
        || (AckLost in faults && Process(old(Value()), msg, seen, eid) == Some(Value()))
      ensures faults == {} ==> (err.None? <==> Process(old(Value()), msg, seen, eid).Some?)
      ensures err.None? && msg.eid in old(processed) ==> Value() == old(Value())
      ensures err.None? && !msg.event.ReservationFailed? ==> Rows() == old(Rows()) && msg.eid in processed
    {
      var before := (orders, outbox, processed);
      done, err := false, None;
      if FindProcessed in faults {
        return done, Some(Error.Database);
      }
      if msg.eid !in processed {
        match msg.event {
          case ReservationFailed(id, _) => err := HandleReservationFailed(id, seen, eid, faults);
          case InventoryReserved(_) =>
          case OtherInventoryEvent =>
        }
        if err.None? && InsertProcessed in faults {
          err := Some(Error.Database);
        }
        if err.None? {
          processed := processed[msg.eid := |processed|];
          done := true;
        }
      }
      if err.None? && CommitTx in faults {
        err := Some(Error.Database);
      }
      if err.Some? {
        orders, outbox, processed := before.0, before.1, before.2;
      } else if AckLost in faults {
        err := Some(Error.Database);
      }
    }

    /** A message without an event id is dropped and one that cannot be decoded is an error;
        any other is handled once, without a retry. */
    method HandleInventoryEvent(d: Delivery<InventoryEvent>, seen: Option<Order>, eid: EventId, faults: set<Statement>)
      returns (err: Option<Error>)
      modifies this
      ensures d.eidHeader.None? ==> err.None? && Value() == old(Value())
      ensures d.eidHeader.Some? && d.envelope.None? ==> err == Some(Malformed) && Value() == old(Value())
      ensures d.eidHeader.Some? && d.envelope.Some? ==>
        var result := Process(old(Value()), Msg(d.eidHeader.value, d.envelope.value), seen, eid);
        && (err.None? ==> d.eidHeader.value in processed && result == Some(Value()))
        && (err.Some? ==> Value() == old(Value()) || (AckLost in faults && result == Some(Value())))
    {
      if d.eidHeader.None? {
        return None;
      }
      if d.envelope.None? {
        return Some(Malformed);
      }
      var done;
      done, err := ProcessEvent(Msg(d.eidHeader.value, d.envelope.value), seen, eid, faults);
    }
  }
}
