/** An order status change end to end: the storefront's UpdateOrderStatusAsync body as the
    UpdateOrderStatus function receives it. The body the client sends carries the order's id as
    `Id`, a name no property of OrderEntity has, so the RowKey the function tests is never set
    and no status change can succeed. The corrected body is the stored order with only its
    status changed. */
module StatusUpdate {
  import opened Http
  import opened Entities
  import opened TableStore
  import opened OrdersFunctions
  import Map

  /** The body `{ Id, Status }` after deserialisation into an OrderEntity: Status is set and
      every other property keeps the value a parameterless OrderEntity has (`defaults`); the
      id is dropped. With an empty default RowKey the function rejects it. */
  function StatusPayloadAsWritten(defaults: OrderEntity, orderId: string, newStatus: string): (body: Parsed<OrderEntity>)
    ensures body.Value? && body.value.status == newStatus && body.value.rowKey == defaults.rowKey
    ensures defaults.rowKey == "" ==> UpdateRejected(body)
  {
    Value(defaults.(status := newStatus))
  }

  /** The client's status change against the Orders function, for an order that is stored: the
      answer is never 200 and the table does not change. With the empty default RowKey the answer
      is 400; a default RowKey naming no stored row makes the replace fail. */
  method EditAsWritten(server: OrdersFunctions, defaults: OrderEntity, orderId: string, newStatus: string)
    returns (status: Status)
    requires server.Valid() && TableKey(Map.OrderPartition, orderId) in server.table.rows
    requires defaults.rowKey == "" || OrderKey(defaults) !in server.table.rows
    modifies server.table
    ensures status != Ok && server.table.rows == old(server.table.rows)
    ensures defaults.rowKey == "" ==> status == BadRequest
  {
    status := server.UpdateOrderStatus(StatusPayloadAsWritten(defaults, orderId, newStatus));
  }

  /** The body a status change needs: the stored order with its status replaced, so that the
      function finds it under its own key and nothing but the status changes. */
  function StatusPayloadCorrected(stored: OrderEntity, newStatus: string): (body: Parsed<OrderEntity>)
    ensures body.Value? && OrderKey(body.value) == OrderKey(stored)
    ensures body.value.status == newStatus && body.value.(status := stored.status) == stored
    ensures stored.rowKey != "" ==> !UpdateRejected(body)
  {
    Value(stored.(status := newStatus))
  }

  /** The corrected status change: read the stored order, send it back with the new status. A
      stored order gets exactly the new status and keeps every other field; an unknown id is a
      404 and changes nothing. */
  method EditCorrected(server: OrdersFunctions, orderId: string, newStatus: string) returns (status: Status)
    requires server.Valid() && orderId != ""
    modifies server.table
    ensures server.Valid()
    ensures var key := TableKey(Map.OrderPartition, orderId);
            if key in old(server.table.rows)
            then status == Ok && server.table.rows == old(server.table.rows)[key := old(server.table.rows)[key].(status := newStatus)]
            else status == NotFound && server.table.rows == old(server.table.rows)
  {
    var found, stored := server.GetOrderById(orderId);
    if stored.None? {
      return NotFound;
    }
    var key := TableKey(Map.OrderPartition, orderId);
    assert OrderKey(stored.value) == key;
    status := server.UpdateOrderStatus(StatusPayloadCorrected(stored.value, newStatus));
  }
}
