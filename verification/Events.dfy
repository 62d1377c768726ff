/** The vocabulary the services share: identifiers, order and stock rows, and the
    payloads that travel on the `order-events` and `inventory-events` topics. */
module Events {

  datatype Option<+T> = None | Some(value: T)

  type OrderId = nat
  type UserId = nat
  type EventId = nat
  type Sku = string

  datatype Reason = UserCancelled | OutOfStock

  /** What travels on `order-events`. `OtherOrderEvent` is any type the inventory ignores. */
  datatype OrderEvent =
    | OrderCreated(orderId: OrderId, userId: UserId, sku: Sku, quantity: int, productName: string, amount: int)
    | OrderCancelled(orderId: OrderId, sku: Sku, quantity: int, reason: Reason)
    | OtherOrderEvent

  /** What travels on `inventory-events`. */
  datatype InventoryEvent =
    | InventoryReserved(orderId: OrderId)
    | ReservationFailed(orderId: OrderId, reason: Reason)
    | OtherInventoryEvent

  /** A message as a consumer sees it: the `event_id` header and the decoded envelope. */
  datatype Msg<+E> = Msg(eid: EventId, event: E)

  /** A message as it arrives: the header may be missing and the envelope unreadable. */
  datatype Delivery<+E> = Delivery(eidHeader: Option<EventId>, envelope: Option<E>)
}
