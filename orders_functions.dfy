/** The order endpoints of the Functions project: CreateOrder only queues the order,
    the other three read or overwrite rows of the Orders table. */
module OrdersFunctions {
  import opened Wrappers
  import opened Http
  import opened Entities
  import opened TableStore
  import opened QueueStore
  import opened OrderMessage
  import Map

  /** CreateOrder's stamping of the deserialised order: PartitionKey "Order" and a fresh RowKey,
      whatever keys the client sent; every other field is kept. */
  function Stamp(o: OrderEntity, newGuid: string): (s: OrderEntity)
    ensures OrderKey(s) == TableKey(Map.OrderPartition, newGuid)
    ensures s.(partitionKey := o.partitionKey, rowKey := o.rowKey) == o
  {
    o.(partitionKey := Map.OrderPartition, rowKey := newGuid)
  }

  /** The guard of UpdateOrderStatus: a null body or an empty RowKey is a 400. */
  predicate UpdateRejected(body: Parsed<OrderEntity>)
  {
    body.Null? || (body.Value? && body.value.rowKey == "")
  }

  class OrdersFunctions {
    const table: TableClient<OrderEntity>
    const queue: QueueClient
    const codec: JsonCodec

    ghost predicate Valid()
      reads this, table
    {
      table.Valid() && table.keyOf == OrderKey
    }

    constructor (table: TableClient<OrderEntity>, queue: QueueClient, codec: JsonCodec)
      requires table.Valid() && table.keyOf == OrderKey
      ensures Valid() && this.table == table && this.queue == queue && this.codec == codec
    {
      this.table := table;
      this.queue := queue;
      this.codec := codec;
    }

    /** POST CreateOrder: a null body is a 400 and sends nothing; otherwise exactly one message,
        the encoding of the stamped order, joins the queue. The Orders table is never written. */
    method CreateOrder(body: Parsed<OrderEntity>, newGuid: string) returns (status: Status)
      requires Valid() && newGuid != ""
      modifies queue
      ensures Valid() && table.rows == old(table.rows)
      ensures body.Null? ==> status == BadRequest && queue.messages == old(queue.messages)
      ensures body.Malformed? ==> status == InternalServerError && queue.messages == old(queue.messages)
      ensures body.Value? ==>
                status == Created &&
                queue.messages == old(queue.messages) + [Encode(codec, Stamp(body.value, newGuid))]
    {
      match body
      case Malformed =>
        return InternalServerError;
      case Null =>
        return BadRequest;
      case Value(order) =>
        var stamped := Stamp(order, newGuid);
        var message := Encode(codec, stamped);
        queue.SendMessage(message);
        return Created;
    }

    /** GET GetOrders: every stored row, each once. */
    method GetOrders() returns (status: Status, orders: seq<OrderEntity>)
      requires Valid()
      ensures status == Ok
      ensures |orders| == |table.rows|
      ensures forall k :: k in table.rows ==> table.rows[k] in orders
      ensures forall o :: o in orders ==> OrderKey(o) in table.rows && table.rows[OrderKey(o)] == o
    {
      orders := table.Query();
      status := Ok;
    }

    /** GET orders/{id}: the row ("Order", id), or 404 when there is none. */
    method GetOrderById(id: string) returns (status: Status, order: Option<OrderEntity>)
      requires Valid()
      ensures TableKey(Map.OrderPartition, id) in table.rows ==>
                status == Ok && order == Some(table.rows[TableKey(Map.OrderPartition, id)])
      ensures TableKey(Map.OrderPartition, id) !in table.rows ==> status == NotFound && order == None
    {
      order := table.GetEntity(TableKey(Map.OrderPartition, id));
      status := if order.Some? then Ok else NotFound;
    }

    /** PUT UpdateOrderStatus: rejects a null body or an empty RowKey; otherwise the whole row is
        replaced by the body, unconditionally (ETag.All). A body naming no stored row makes the
        table client throw. */
    method UpdateOrderStatus(body: Parsed<OrderEntity>) returns (status: Status)
      requires Valid()
      modifies table
      ensures Valid()
      ensures UpdateRejected(body) ==> status == BadRequest && table.rows == old(table.rows)
      ensures body.Malformed? ==> status == InternalServerError && table.rows == old(table.rows)
      ensures body.Value? && !UpdateRejected(body) ==>
                if OrderKey(body.value) in old(table.rows)
                then status == Ok && table.rows == old(table.rows)[OrderKey(body.value) := body.value]
                else status == InternalServerError && table.rows == old(table.rows)
    {
      if body.Malformed? {
        return InternalServerError;
      }
      if UpdateRejected(body) {
        return BadRequest;
      }
      var ok := table.UpdateEntityReplace(body.value);
      status := if ok then Ok else InternalServerError;
    }
  }
}
