/** The order intake pipeline end to end: CreateOrder enqueues, the host hands the front message
    to ProcessOrderQueue, and the worker writes the row. Both functions share the Orders table,
    the queue and the codec. */
module OrderPipeline {
  import opened Wrappers
  import opened Http
  import opened Entities
  import opened OrderMessage
  import opened OrdersFunctions
  import opened QueueProcessor

  /** An accepted order reaches the Orders table field for field, under the RowKey CreateOrder
      gave it, once the worker has run on its message. */
  method SubmitAndDrain(api: OrdersFunctions, worker: QueueProcessorFunctions, order: OrderEntity, newGuid: string)
    returns (status: Status, outcome: Outcome)
    requires api.Valid() && worker.Valid() && api.table == worker.table && api.codec == worker.codec
    requires Lawful(api.codec) && newGuid != ""
    requires api.queue.messages == []
    requires TableKey(Map.OrderPartition, newGuid) !in api.table.rows
    modifies api.queue, api.table
    ensures status == Created && outcome == Inserted && api.queue.messages == []
    ensures api.table.rows == old(api.table.rows)[TableKey(Map.OrderPartition, newGuid) := Stamp(order, newGuid)]
  {
    status := api.CreateOrder(Value(order), newGuid);
    var message := api.queue.ReceiveMessage();
    DecodeEncode(api.codec, Stamp(order, newGuid));
    outcome := worker.ProcessOrderQueue(message.value);
  }

  /** A message delivered twice is inserted once: the second insertion targets the RowKey the
      first one stored, and the table is left as the first delivery made it. */
  method DeliverTwice(worker: QueueProcessorFunctions, order: OrderEntity)
    returns (first: Outcome, second: Outcome)
    requires worker.Valid() && Lawful(worker.codec)
    requires OrderKey(order) !in worker.table.rows
    modifies worker.table
    ensures first == Inserted && second == Failed
    ensures worker.table.rows == old(worker.table.rows)[OrderKey(order) := order]
  {
    var message := Encode(worker.codec, order);
    DecodeEncode(worker.codec, order);
    first := worker.ProcessOrderQueue(message);
    second := worker.ProcessOrderQueue(message);
  }
}
