# Verification of the order/inventory saga and its messaging toolkit

This Dafny project models the microservice lab's distributed transaction and proves what it
guarantees and where its guarantees end. Every theorem is about all inputs or all runs: any
number of orders, products, users, requests, consumers and pollers, any interleaving, any
duplication or reordering of messages, and an abort at any point. Nothing was executed: the
claims are what the verifier proves about the model.

## The layers

The saga is a choreography between two services. Each owns a database with an outbox table and
a `processed_events` table; pollers publish outbox rows; consumers handle messages at least once.

- **Tables as values.** `Inventory` and `Orders` give each business transaction as a function
  from tables to tables, `None` meaning a rollback. `Dedup` wraps a handler in the
  check-run-mark transaction and runs it under concurrent workers; `Outbox` is the table with
  its relay and topic.
- **The code's own form.** `InventoryService`, `OrderService`, `Poller`, `Retry`, `Consumer`,
  `Gate`, `Cache` and `KnownUsers` hold classes and loops that change rows statement by
  statement, meet a database error wherever the environment says, roll back, and are proved
  equal to those functions.
- **Row locks.** `RowLocks` runs the inventory transactions one statement at a time under
  exact-key row locks and proves every interleaving serializable; `LockOrder` proves that the
  default lock order cannot deadlock and that the reversed one can; `InFlightStock` proves what
  holds of the stock between any two statements.
- **The saga.** `Saga` is the state machine over both databases and both topics.
  `SagaInvariant` is its inductive invariant, `SagaTheorems` and `SagaConvergence` the
  theorems, `SagaWitnesses` the runs showing what cannot be promised.
- **The relay.** `PollerFleet` is any number of pollers with open batch transactions over one
  table. `PollerRefinement` ties the views together: a tick of `Poller` is a run of the fleet,
  and any run of the fleet is a run of the relay that `Saga` uses.

A step that is not enabled leaves a state machine where it is, so every list of steps is a run;
an aborted transaction is a step that does not happen. Fields named `log`, `history`, `lost`,
`stray`, `done` and `failed` in proof-level states record what happened and are read by no step;
the topics' logs are real. In `processed_events` the model stores the position of the mark in
commit order, the role `processed_at` plays in the table.

## What turned out false, and the exact condition

- *Cancelled implies released.* The two order events are keyed differently, so the inventory may
  handle the cancellation first. At rest a cancelled order still holds stock exactly when its
  reservation was granted and its cancellation was handled before its creation
  (`SagaConvergence.Convergence`); `SagaWitnesses.LeakingRun` is such a run.
- *Paid implies reserved.* Paying does not look at the stock, and a refusal that comes after the
  payment is dropped. A paid order has its stock exactly when the grant has been written, and at
  rest exactly when no refusal has been (`SagaConvergence.PaidIsReservedUnlessRefused`);
  `SagaWitnesses.PaidWithoutReservation` comes to rest with a paid and refused order.
- *A committed offset has been handled.* True of a run exactly when none of its turns commits over
  an offset not handled by then (`Consumer.PrefixHandledExactly`), and a loss is never made good
  (`Consumer.LossIsForGood`).
- *The wait is base * 2^(attempt-1) capped at the maximum*, as the comment in
  common/xdb/retry.go promises. The code never caps the first wait: as long as no shift overflows
  the promise holds exactly if the attempt is not the first or the base is within the cap
  (`Retry.WaitIsNominal`). A shift overflows exactly if base * 2^k leaves the range that can be
  doubled in a round k that is reached (`Retry.OverflowsExactly`), so never below 2^62;
  `Retry.ShiftCanOverflow` is an input whose second wait is negative.
- *A nil result of the retry means the work was done.* Not when `MaxAttempts` is below 1: the
  loop is skipped and nil returned (`InventoryService.Database.WithRetry`).
- *0 <= available <= total.* A quantity keeps it on all tables exactly if it is not negative
  (`Inventory.HarmlessIffNotNegative`). The HTTP layer validates quantities to be at least 1
  (service/order/api/internal/types/types.go:9); the inventory checks nothing. The connection
  string (common/xdb/db.go:15) does not ask MySQL for matched rows, so it reports changed rows,
  and a decrement by 0 reads as out of stock.
- *One order per idempotency key.* In any state, whatever has happened before, there will be at
  most one order exactly if the orders there are, the requests that are creating one or have yet
  to delete the key after failing, and one more if the gate is open, number at most one
  (`Gate.OnceExactly`). So the first expiry is harmless exactly if there is no order and no
  request between the gate and its last call (`Gate.ExpiryHarmlessExactly`), and the first request
  that goes on without the gate exactly if, besides, the gate is shut by a request that left it so
  (`Gate.OutageHarmlessExactly`). `Gate.GateCanBePassedTwice` has a failing run for each.
- *A stale absence is answered for at most one negative TTL*, as the comment in
  common/xcache/cache.go:10-11 promises. It is written after it is read, and possibly after the
  user was created and cached. With a TTL above 0 an absence in the cache can be answered when its
  read is older than one TTL exactly if it was written more than a tick after it was read
  (`Cache.OlderThanTTLExactly`); `Cache.LateNegativeSet` is a run that exceeds the TTL by any delay
  asked for. Without a TTL above 0 there is no bound at all, even from the write
  (`Cache.AbsenceBoundedExactly`): Redis takes 0 to mean no expiry, and the service reads the value
  unchecked (service/user/rpc/internal/config/config.go:47-51).

## Model

| member | source | states |
|---|---|---|
| SagaInvariant.StepKeeps | docs/saga-distributed-transaction.md:35-46 | every step of the saga keeps the invariant that links each order to its OrderCreated row, its OrderCancelled row, the inventory's answer and its reservation |
| SagaInvariant.RunKeeps | docs/saga-distributed-transaction.md:87-99 | the invariant holds after every run from an empty system with full stock |
| SagaConvergence.Convergence | service/inventory/rpc/internal/svc/order_event_consumer.go:77-125 | at rest every pending order has an active reservation for its own product and quantity, and a cancelled order has one if and only if it was granted and its cancellation was handled before its creation |
| SagaConvergence.OrderedHandlingLeaksNothing | service/inventory/rpc/internal/svc/order_event_consumer.go:106-125 | at rest, if the cancellation was not handled first, a cancelled order holds no stock |
| SagaConvergence.PendingWithinTotal | docs/saga-distributed-transaction.md:98-99 | no overselling: at rest the quantities of a product's pending orders sum to at most its total |
| SagaConvergence.MarksAreDistinct | common/xevent/idempotent.go:44-49 | in every reachable state the marks sit at distinct positions of the commit order |
| SagaWitnesses.LeakingRun | service/order/api/internal/logic/order/createOrderLogic.go:142-151 | there is a run that comes to rest with stock held for a cancelled order: the ordering condition is needed |
| SagaConvergence.PaidIsReservedUnlessRefused | service/order/api/internal/svc/inventory_event_consumer.go:87-101 | in every reachable state a paid order holds an active reservation if and only if the grant has been written, and at rest if and only if no refusal has been |
| SagaWitnesses.PaidWithoutReservation | service/order/api/internal/logic/order/updateOrderStatusLogic.go:108-120 | there is a run that comes to rest with an order that is paid, refused and without stock |
| SagaTheorems.CrossServiceSafety | service/order/api/internal/svc/inventory_event_consumer.go:88-101 | with no ordering assumption: a released reservation's order is cancelled; a paid order's reservation, now or at any later time, is active; an order cancelled for want of stock has no reservation now or ever, so releasing it changes nothing |
| SagaTheorems.RefusalSettlesOrder | service/order/api/internal/svc/inventory_event_consumer.go:71-127 | in every reachable state, handling a refusal settles its order: a pending order is cancelled for want of stock with its OrderCancelled row, however old the handler's view; any other is left alone |
| SagaTheorems.OutboxAtomicity | service/order/api/internal/logic/order/createOrderLogic.go:120-152 | in every reachable state each order has exactly one OrderCreated row with its own data, exactly one OrderCancelled row with its reason, product and quantity if cancelled and none otherwise, and no row is about an order that does not exist |
| SagaTheorems.OneOutcome | service/inventory/rpc/internal/svc/order_event_consumer.go:83-101 | the inventory answers an order at most once, exactly when its OrderCreated is marked processed, with InventoryReserved exactly when there is a reservation, which carries the order's product and quantity |
| SagaTheorems.StatusChangesOnce | service/order/api/internal/repository/order.go:66-108 | from any state and over any run an order changes status at most once and otherwise keeps all its data |
| SagaTheorems.OrderShape | service/order/api/internal/logic/order/createOrderLogic.go:31-35 | in every reachable state the version is 0 exactly while pending and at most 1, and a reason is recorded exactly on cancelled orders |
| SagaTheorems.LosersChangeNothing | service/order/api/internal/logic/order/updateOrderStatusLogic.go:63-120 | a pay, a cancel or an automatic cancel whose read is out of date changes neither an order nor the outbox |
| SagaTheorems.StockIsConserved | docs/saga-distributed-transaction.md:52-55 | in every reachable state available plus the active reservations of a product equals its fixed total, and lies between 0 and the total when quantities are at least 1 |
| Inventory.ReserveConserves | service/inventory/rpc/internal/repository/inventory.go:54-78 | reserving keeps available + active reservations == total for every product |
| Inventory.ReleaseConserves | service/inventory/rpc/internal/repository/inventory.go:114-140 | releasing, a no-op included, keeps the same equation |
| Inventory.CommitConserves | service/inventory/rpc/internal/svc/order_event_consumer.go:39-54 | handling any order event, committed, repeated or rolled back, keeps the equation |
| Inventory.HeldWithinTotal | docs/saga-distributed-transaction.md:55 | with quantities of at least 1 what is held is not negative and available is at most the total |
| Inventory.HandleKeepsSound | service/inventory/rpc/internal/svc/order_event_consumer.go:77-125 | a handler keeps stock conserved, not negative and reservations of at least 1, with the same products and totals, unless it is given an order for less than 1 |
| Inventory.GrantStaysInBounds | service/inventory/rpc/internal/repository/inventory.go:143-151 | a granted decrement never leaves less than 0, whatever the quantity; what can go wrong is only the upper bound |
| Inventory.HarmlessIffNotNegative | service/inventory/rpc/internal/repository/inventory.go:54-78 | a quantity keeps every sound table sound if and only if it is not negative, and a quantity of 0 is refused on every table |
| InventoryService.Database.ReserveOrdered | service/inventory/rpc/internal/repository/inventory.go:54-78 | the statement sequence is the reservation transaction: taken, short, or a unique-key error, with the row counts the caller relies on |
| InventoryService.Database.ReleaseReservation | service/inventory/rpc/internal/repository/inventory.go:114-140 | the flip and the refill together are the release, done at most once; a missing reservation is reported as not found and changes nothing |
| InventoryService.Database.WriteOutbox | service/inventory/rpc/internal/svc/order_event_consumer.go:128-150 | one new pending row under an unused event id, or an error |
| InventoryService.Database.HandleOrderCreated | service/inventory/rpc/internal/svc/order_event_consumer.go:77-102 | if there is enough, the quantity leaves this product, the order has a reservation for it and a pending InventoryReserved; if not, no stock moves and there is a pending ReservationFailed for want of stock; nothing else changes, and it fails only on a taken id or a database error |
| InventoryService.Database.HandleOrderCancelled | service/inventory/rpc/internal/svc/order_event_consumer.go:106-125 | an active reservation becomes released and its quantity goes back to its product, once; without one nothing changes and that is no error |
| InventoryService.Database.RunHandler | service/inventory/rpc/internal/svc/order_event_consumer.go:45-53 | the dispatch does what the specified handler does for each event type, unknown types included |
| InventoryService.Database.ProcessEvent | common/xevent/idempotent.go:27-52 | without an error the database is that of the specified transaction, and the answer says whether the event was new; with one, wherever it struck, no row has changed, unless only the answer to the commit was lost |
| InventoryService.CommitsAtMostOnce | common/xdb/retry.go:48-54 | over all attempts, whatever others commit in between and whichever answers are lost, at most one attempt changes the database, after which the event is marked; none does if it was marked before |
| InventoryService.AloneIsOneTransaction | common/xdb/retry.go:48-54 | with nobody else about, all attempts together have done nothing or exactly one of their transactions |
| InventoryService.Database.TryOnce | service/inventory/rpc/internal/svc/order_event_consumer.go:38-57 | one attempt on what others have left: nil means the specified transaction and a marked event, an error means no change as long as the answer to the commit arrives |
| InventoryService.MarkedIsDone | common/xevent/idempotent.go:27-52 | if the event is marked after an attempt, that attempt was the specified transaction, carried out |
| InventoryService.Database.WithRetry | common/xdb/retry.go:56-86 | between 1 and MaxAttempts runs; another one follows if and only if the error is a 1213 or 1205, attempts are left and the wait was not cancelled; the waits are the documented ones less jitter; with others committing in between and answers lost, at most one run commits; a nil result means the event is marked; the returned error is the one met last, as it was met, or the context's |
| InventoryService.Database.HandleOrderEvent | service/inventory/rpc/internal/svc/order_event_consumer.go:21-73 | no event id: dropped; undecodable: an error and no change; otherwise one to three attempts among other transactions, all three before a lock error is given up on, of which at most one commits; nil means marked, and an error means none committed as long as answers arrive |
| Dedup.ExactlyOnce | common/xevent/idempotent.go:27-52 | for any handler, any deliveries, any number of workers, stale lookups and aborts: the business state is each committed message applied once in commit order, and processed_events holds exactly their ids |
| Dedup.FinishIsProcess | common/xevent/idempotent.go:29-50 | in every reachable state, finishing a transaction whose lookup may be stale does what looking up and finishing now would do |
| Dedup.DeliveredIsProcessed | common/xevent/idempotent.go:27-52 | in every reachable state, a delivery to a free worker that does not abort leaves the database the transaction leaves |
| Dedup.ProcessMarks | common/xevent/idempotent.go:30-49 | a handling without an error leaves the event marked, repeating it changes nothing, an error changes nothing, and no earlier mark is lost |
| Retry.RetryableExactly | common/xdb/retry.go:35-46 | an error is retryable if and only if what is left of it without its wrapping is MySQL 1213 or 1205 |
| Retry.DoubleIsCappedPower | common/xdb/retry.go:89-97 | as long as no shift overflows the doubling loop on int64 computes min(base * 2^n, cap) |
| Retry.WaitIsNominal | common/xdb/retry.go:88-97 | the wait before jitter is the documented one if and only if the attempt is not the first or the base is within the cap |
| Retry.OverflowsExactly | common/xdb/retry.go:91-97 | for all int64 bases and caps and any number of rounds, a shift overflows if and only if base * 2^k leaves [-2^62, 2^62) in a round k that the cap lets the loop reach |
| Retry.SmallNeverOverflows | common/xdb/retry.go:91-97 | durations below 2^62 never overflow |
| Retry.Backoff | common/xdb/retry.go:89-103 | the loop and the jitter: at most the doubled delay and more than half of it, for all int64 inputs, and every jitter below half can come |
| Retry.TotalWait | common/xdb/retry.go:79-83 | the waits of a call sum to at most the sum of the documented ones and at least half of it |
| Retry.DefaultWaits | common/xdb/retry.go:26-33 | with the default options a call waits 25 to 50 ms, then 50 to 100 ms, and at most 150 ms in all |
| OrderService.Database.CancelRow | service/order/api/internal/repository/order.go:82-108 | the compare-and-set on owner, status and version, and the row as it then is |
| OrderService.Database.InsertOutbox | common/xevent/outbox_repo.go:20-23 | one new pending row under an unused event id, or an error |
| OrderService.Database.CreateOrder | service/order/api/internal/logic/order/createOrderLogic.go:111-157 | for every request: a pending order with the request's user, product, quantity, name and amount, version 0 and no reason, together with one pending OrderCreated telling the same, and nothing else; or neither; it goes through exactly if both ids are unused and no call fails |
| OrderService.Database.CancelOrder | service/order/api/internal/logic/order/updateOrderStatusLogic.go:63-106 | cancelled row and OrderCancelled row together, or neither, and a lost race is reported as a conflict |
| OrderService.Database.PaidOrder | service/order/api/internal/logic/order/updateOrderStatusLogic.go:108-120 | paid by compare-and-set, with the outbox untouched; the returned copy's version is one behind the row's |
| OrderService.Database.UpdateStatus | service/order/api/internal/logic/order/updateOrderStatusLogic.go:39-59 | a failed read is an error; another user's order is answered like a missing one; a forbidden transition is refused; otherwise the row others have left gets the status asked for and the next version if and only if it is still as read, a cancellation with its reason and one pending OrderCancelled, a payment without an event, all else unchanged; a lost race is a conflict |
| OrderService.Database.HandleReservationFailed | service/order/api/internal/svc/inventory_event_consumer.go:71-127 | an order pending as it was read is cancelled for want of stock with one pending OrderCancelled; one that is unknown, cancelled or changed since is left alone |
| OrderService.Database.ProcessEvent | service/order/api/internal/svc/inventory_event_consumer.go:35-51 | the idempotent transaction around an inventory event, all of it or none of it; a grant or an unknown event only leaves a mark, a repeated event nothing |
| OrderService.Database.HandleInventoryEvent | service/order/api/internal/svc/inventory_event_consumer.go:22-67 | no event id: dropped; undecodable: an error and no change; otherwise nil means marked and committed, an error means no change as long as the answer to the commit arrives |
| Outbox.RelayIsFaithful | common/xevent/outbox_repo.go:78-94 | no relay step loses or rewrites an event; every message is a row's, every row marked sent is on the topic, and no row passes the retry cap |
| Outbox.RelayMoves | common/xevent/outbox_repo.go:25-54 | a row that is pending and refused less than 5 times is published with its id and event, marked sent once it is on the topic and not before, or refused once more |
| RowLocks.Serializable | service/inventory/rpc/internal/repository/inventory.go:54-140 | however the locked statements of any number of transactions interleave and wherever they abort, in either lock order, the committed database is that of the committed transactions run atomically one by one in commit order |
| RowLocks.AloneCommits | service/inventory/rpc/internal/repository/inventory.go:54-140 | the converse: whatever the atomic transaction can do to a database, a run of locked statements that meets no other does, in either lock order |
| InFlightStock.ConservedUnderInterleaving | service/inventory/rpc/internal/repository/inventory.go:54-140 | between any two statements, in either lock order and wherever transactions abort: the committed stock is conserved, and so is the stock with all open transactions' changes in place, available plus reserved plus what transactions carry, a decrement not yet reserved or a release not yet given back, being the total |
| InFlightStock.StockUnderInterleaving | service/inventory/rpc/internal/repository/inventory.go:114-151 | from sound tables, if no order for less than 1 is begun: available stays within 0..total in every committed row, every private version and every row in place, and products and totals stay |
| InFlightStock.WrittenInPlace | service/inventory/rpc/internal/repository/inventory.go:116-139 | a row a transaction has written shows in place as that transaction wrote it, whatever the others do |
| RowLocks.CommitIsAtomic | common/xevent/idempotent.go:29-50 | at its commit a transaction's private row versions are exactly what the atomic transaction would write at that moment |
| RowLocks.StableUnderLocks | service/inventory/rpc/internal/repository/inventory.go:55-61 | what a transaction has found stays true while the rows it has locked stay as they are |
| RowLocks.CommitTouchesHeldRows | service/inventory/rpc/internal/repository/inventory.go:116-139 | a commit changes no row its transaction has not locked |
| LockOrder.NoDeadlock | service/inventory/rpc/internal/repository/inventory.go:52-78 | in the default order no reachable state has a ring of waiting transactions of any length |
| LockOrder.SomeoneCanMove | service/inventory/rpc/internal/repository/inventory.go:112-140 | from any transaction the chain of waits leads to one that is not blocked |
| LockOrder.ReversedOrderDeadlocks | service/inventory/rpc/internal/repository/inventory.go:80-99 | with the reversed order a reserve and a release of one order reach a deadlock, when the order's one OrderCreated event is delivered to two workers at once |
| Poller.SelectSound | common/xevent/outbox_repo.go:81-85 | the batch is distinct rows in creation order, all pending, refused less than 5 times and unlocked, and only the limit can leave one out |
| Poller.SelectEarliest | common/xevent/outbox_repo.go:83-84 | rows are taken by age: none that is due and unlocked is passed over for a later one |
| Poller.SettledRowsStay | common/xevent/outbox_repo.go:25-34 | a row that is sent, or refused 5 times, is never changed again, whatever ticks follow and whatever fails in them |
| Poller.TickMovesRows | common/xevent/outbox_repo.go:46-54 | a tick changes only pending rows under the cap, by marking them sent or raising their count by one, and never an id or event |
| Poller.OutboxTable.RunTick | common/xstream/poller.go:73-124 | the loop goes through exactly if nothing but publishing and counting fails; then each row of its batch is sent or has one more refusal by its own publish, the topic has their messages in order, and no other row changes; a failed mark rolls back the rows, not the topic |
| Poller.SweepHandlesBatch | common/xstream/poller.go:75-119 | a committed batch handles each of its rows exactly once, by the broker's answer for that row, and no other row |
| Poller.SweepAppends | common/xstream/poller.go:78-90 | the topic only grows, and only by messages of rows of the batch |
| Poller.SweepPublishes | common/xstream/poller.go:90-107 | after a committed batch every acknowledged row's message is on the topic |
| Poller.SweepInOrder | common/xstream/poller.go:75-119 | a batch fails if and only if a published row cannot be marked; otherwise the topic gets its messages in the order of the batch |
| Poller.TickIsSound | common/xstream/poller.go:107-110 | whatever fails in a tick, rows marked sent are on the topic, messages are rows', and counts stay within the cap |
| Poller.TickProgresses | common/xevent/outbox_repo.go:78-94 | every committed tick whose increments succeed, beside whatever other pollers, leaves the table alone if it selects nothing and otherwise strictly lowers the sum of remaining retries |
| Poller.CleanTickProgresses | common/xevent/outbox_repo.go:82 | a single poller whose ticks fail in nothing but publishing makes progress until there is nothing pending under the cap |
| Poller.IdleWithinFiveTicksPerRow | common/xevent/outbox.go:9 | a single poller over n rows is done within 5n such ticks: each row is sent and on the topic, or was refused 5 times |
| PollerFleet.RunKeeps | common/xevent/outbox_repo.go:71-94 | every run of any number of pollers keeps batches disjoint and every published copy accounted for |
| PollerFleet.AtLeastOnceWithAccountedDuplicates | common/xstream/poller.go:73-124 | no row is in two open batches, a sent row is published, every message is a row's, and the copies of an event are at most 1 plus its rolled-back publishes plus the copies appended by refused publishes or repeated within an acknowledged one |
| PollerRefinement.TickIsAFleetRun | common/xstream/poller.go:73-124 | a tick beside other pollers is a run of the fleet with the same rows and topic, leaving the other batches alone |
| PollerRefinement.FleetIsARelay | common/xevent/outbox_repo.go:71-94 | whatever the pollers do, the table and the topic change as in some run of the saga's relay |
| Consumer.Reader.Consume | common/xstream/stream.go:216-288 | the loop is the specified run of turns |
| Consumer.CommittedIsAttempted | common/xstream/stream.go:244-263 | every offset below the position was given to a handler that succeeded or failed, commits never move back, and a restart resumes at the committed offset |
| Consumer.OneDelivery | common/xstream/stream.go:227-267 | a delivery passes its offset and resets the backoff; the commit moves to just behind it if and only if the handler returned nil and the commit was acknowledged |
| Consumer.AcknowledgedIsSettled | common/xstream/stream.go:256-263 | from every reachable state, a handled and acknowledged offset stays committed and is never fetched again, whatever follows |
| Consumer.BackoffDoubles | common/xstream/stream.go:269-287 | while fetches fail the backoff is min(2^n, 10) seconds and nothing else changes |
| Consumer.PrefixSafety | common/xstream/stream.go:217-288 | if no handler call fails, every offset below the committed one has been handled, across crashes, failed commits and redelivery |
| Consumer.LostExactlyByCommittingOver | common/xstream/stream.go:244-257 | a turn breaks this if and only if it commits over an offset that has not been handled |
| Consumer.PrefixHandledExactly | common/xstream/stream.go:217-288 | the committed prefix of a whole run has been handled if and only if none of its turns committed over an offset not handled by then |
| Consumer.LossIsForGood | common/xstream/stream.go:227-263 | an offset committed over and not handled is not handled in any continuation, restarts included |
| Consumer.FailureIsSkipped | common/xstream/stream.go:244-254 | from every reachable state, a failed turn followed by a committed one loses an offset not handled before, in every continuation |
| Consumer.FromHeaders | common/xstream/stream.go:43-49 | the map has exactly the keys of the headers, each with the value of the header at the greatest index with that key |
| Consumer.ToHeaders | common/xstream/stream.go:34-40 | one header per entry, and reading them back gives the same map |
| Gate.OneOrderPerKey | service/order/api/internal/logic/order/createOrderLogic.go:69-98 | for any number of concurrent requests with one key, no gate error and no expiry: at most one order, and every reply is that order, a conflict, or the caller's own failure |
| Gate.OrderIsFinal | service/order/api/internal/logic/order/createOrderLogic.go:76-79 | once an order is committed, no later request under the key creates another, as long as the gate answers and the key does not expire |
| Gate.OnceExactly | service/order/api/internal/logic/order/createOrderLogic.go:69-98 | in any state, however disturbed before, all continuations with a working gate have at most one order if and only if orders, requests creating or yet to delete the key, and an open gate number at most one |
| Gate.ExpiryHarmlessExactly | service/order/api/internal/logic/order/createOrderLogic.go:72-95 | the first expiry is harmless if and only if there is no order and no request between passing the gate and its last call; a late delete after a failed create counts |
| Gate.OutageHarmlessExactly | service/order/api/internal/logic/order/createOrderLogic.go:72-75 | the first request that goes on without the gate is harmless if and only if there is no order, no other request about one, and the gate is shut |
| Gate.StoredIsReplayed | service/order/api/internal/logic/order/createOrderLogic.go:160-169 | once an order is stored under the key it stays, and every later request that finds the gate shut and can read it is answered with that order as created, under the same two conditions |
| Gate.RetryGetsTheOrder | service/order/api/internal/logic/order/createOrderLogic.go:91-95 | a request whose order has been stored can be repeated: any later request under the key that can read it gets that order, and there is no other |
| Gate.Creator.Create | service/order/api/internal/logic/order/createOrderLogic.go:51-98 | a shut gate leaves all as it is and answers the stored order or a conflict; a failed create leaves no order and opens the gate unless that fails; a create leaves one order more and, unless that fails, that order under the key; without a key or a gate the key is not touched |
| Gate.AloneIsARun | service/order/api/internal/logic/order/createOrderLogic.go:69-98 | a whole request is a run of the concurrent gate machine |
| Cache.Store.GetOrLoad | common/xcache/cache.go:58-115 | a marker answers a miss and bytes that decode their value, changing nothing; without Redis, with a failed read or without a usable entry the loader answers, bytes that do not decode are deleted, and a value or an absence is remembered but never an error; no other key changes |
| Cache.Store.Invalidate | common/xcache/cache.go:117-129 | exactly the given keys are gone, or nothing has changed if Redis is absent or fails |
| Cache.RememberedIsAnswered | common/xcache/cache.go:75-108 | what was remembered is what the next lookup answers: always for an absence, and for a value if and only if its bytes decode to it and are not the negative marker |
| Cache.ValidateUser | service/user/rpc/internal/logic/validateuserlogic.go:40-69 | the answer is the cached one, a marker meaning unknown, and without a usable entry the table's; an entry never yields an error; an error leaves nothing behind |
| Cache.LookupIsARun | common/xcache/cache.go:74-110 | with Redis working, a call answers and leaves the cache as a run of the cache over time does: from a live entry, or by a read, a write and an answer, for all TTLs |
| Cache.StalenessBound | common/xcache/cache.go:58-129 | an answer that a user exists is true now with the right name; one that he does not was true when read, and with a negative TTL above 0 no longer ago than this TTL plus the time from read to write plus the reply's |
| Cache.EntryLives | common/xcache/cache.go:93-103 | an entry answers for its own time to live from its write, values for the positive and absences for the negative one, and for good if that is 0 or less |
| Cache.AbsenceBoundedExactly | common/xcache/cache.go:93 | there is a bound on how long after its write an absence is answered if and only if the negative TTL is above 0 |
| Cache.OlderThanTTLExactly | common/xcache/cache.go:10-11 | in every reachable state an absence in the cache can be answered when its read is more than one negative TTL old if and only if it was written more than one tick after its read |
| Cache.LateNegativeSet | common/xcache/cache.go:91-96 | for every TTL above 0 and every delay, a user created and cached in between is answered not to exist from a read delay + TTL - 1 ticks ago |
| KnownUsers.Database.CreateUser | service/user/rpc/internal/logic/createuserlogic.go:39-119 | the user as given and one pending event with his id and username, together, or no change unless only the answer to the commit was lost; without faults it is registered if and only if ids, username and email are new, and AlreadyExists if a name or id is taken; any MySQL error of the insert is AlreadyExists, too |
| KnownUsers.NobodyTwice | service/user/rpc/internal/logic/createuserlogic.go:75-83 | in every reachable state no two users share a username or an email address |
| KnownUsers.StepsShow | service/order/api/internal/svc/user_event_consumer.go:34-49 | in every reachable state, a registration nothing is in the way of adds the user and his pending event, and a delivered event puts its user, and only him, into the view |
| KnownUsers.View.ProcessEvent | service/order/api/internal/svc/user_event_consumer.go:34-49 | upsert and mark together, or no change, unless only the answer to the commit was lost |
| KnownUsers.View.HandleUserEvent | service/order/api/internal/svc/user_event_consumer.go:19-73 | no event id: dropped; undecodable: an error; a repeated event changes nothing, a new one puts the user in the view under the event's name |
| KnownUsers.ViewConverges | service/order/api/internal/svc/user_event_consumer.go:19-73 | in every reachable state the view holds only committed users under their names, and at rest it is the whole projection of the users table, whatever the order and duplication of deliveries |

## Left out

- InnoDB's gap and insert-intention locks: locks are exact keys, present or not. The repository itself says gap locks can still form rings (docs/troubleshooting/database-deadlock.md:142); deadlock freedom is proved for exact keys only.
- decrementErr (service/inventory/rpc/internal/repository/inventory.go:156-158): whether it sees the failure depends on GORM's handle; a driver error in the decrement is modelled as returned, and the transaction aborts.
- reserveReversed as a class method: it is a program of `RowLocks` and `LockOrder` only, where its order matters; the sleep that widens the race is not modelled.
- InventoryService.Database.WithRetry: stated for the one function it is called with, not for an arbitrary closure; others may do anything in between but remove a mark, which no code does; retry metrics are left out, and a context cancelled during a wait is a flag of the attempt.
- InventoryService.Database.ProcessEvent: the `processed` flag returned beside an error is not described, because callers ignore it.
- Cache.StalenessBound: singleflight is a query taking the answer of a load it joined; cancellation of the first caller's context is not modelled.
- Gate.OneOrderPerKey: assumes that a failed create did not commit (an answer to its commit that is lost is a failure that did), that keys of different requests do not collide, and neither expiry nor an error of SetNX; the last two are shown necessary.
- Cache.StalenessBound: a TTL of -1ns, which go-redis reads as "keep the current TTL" rather than as no expiry.
- Liveness: no claim that a message is ever delivered or a poller ever runs. Rows refused 5 times stay pending and are never selected again.
- Order of messages: topics keep none that a consumer can rely on, and the poller goes past a failed row, so no per-key order is claimed.
- MarkAsFailed and FindPending (common/xevent/outbox_repo.go:36-65): the first has no caller, the second is the selection without locks.
- Unmarshalling of a payload inside a transaction: an error like a statement's.
- The user check and the rest of createOrder before its transaction: a failed check is a failed create.
- Key prefixes (common/xcache/cache.go:49-51) and, over time, which keys an invalidation names: there it is a removal of an entry at any time.
- known_users.seen_at, outbox sent_at, last_error, topic and key columns, envelope versions and timestamps.
- INT column widths: quantities, stock and versions are unbounded; `int64` is written out only for durations.
- JSON, UUIDs, auto-increment, SHA-256 and bcrypt: identifiers are parameters of the steps, and an id that is taken makes the transaction fail on its unique index.
- GORM, kafka-go, Redis, gRPC and etcd internals, broker rebalancing, MySQL collation of keys, soft deletion.
- HTTP handlers, middleware, configuration, logging, metrics, migrations, pagination and the fault-injection labs.
