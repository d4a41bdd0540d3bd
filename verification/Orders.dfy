/** Orders, their keys and the events that carry them (backend/app/domain.py). */
module Orders {
  import opened Numbers

  /** The durable key of an order: permanent once the broker has assigned a permanent id, provisional before. */
  datatype OrderKey =
    | Permanent(account: string, permId: int)
    | Provisional(account: string, clientId: int, orderId: int)

  datatype Order = Order(
    account: string, clientId: int, orderId: int, permId: int, status: string, createdAt: int, details: string)

  function KeyOf(o: Order): OrderKey {
    if o.permId > 0 then Permanent(o.account, o.permId) else Provisional(o.account, o.clientId, o.orderId)
  }

  predicate IsTerminal(status: string) {
    status in {"Filled", "Cancelled", "ApiCancelled", "Inactive"}
  }

  datatype Execution = Execution(id: string, commission: Option<real>, realized: Option<real>, details: string)

  datatype Position = Position(account: string, conId: int, details: string)

  datatype Event =
    | GatewayUpdated(state: string, at: int)
    | AccountUpdated(account: string, at: int)
    | OrderUpdated(eventId: string, account: string, order: Order)
    | AlertRaised(eventId: string, text: string)
    | ExecutionCreated(execution: Execution)
    | OrdersReconciled(account: string, orders: seq<Order>)
    | PositionUpdated(position: Position)
    | PositionClosed(position: Position)
    | OtherEvent(kind: string)

  /** One entry of a tenant's event stream. */
  datatype Entry = Entry(event: Event, connection: string)
}
