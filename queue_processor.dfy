/** The queue-triggered worker that turns each queued message into a row of the Orders table. */
module QueueProcessor {
  import opened Http
  import opened Entities
  import opened TableStore
  import opened OrderMessage

  /** How one run ends: a row was added, the message was dropped (it held JSON null), or the run
      threw (a message that does not decode, or a RowKey already in the table). */
  datatype Outcome = Inserted | Dropped | Failed

  class QueueProcessorFunctions {
    const table: TableClient<OrderEntity>
    const codec: JsonCodec

    ghost predicate Valid()
      reads this, table
    {
      table.Valid() && table.keyOf == OrderKey
    }

    constructor (table: TableClient<OrderEntity>, codec: JsonCodec)
      requires table.Valid() && table.keyOf == OrderKey
      ensures Valid() && this.table == table && this.codec == codec
    {
      this.table := table;
      this.codec := codec;
    }

    /** ProcessOrderQueue: decode, drop a null, and otherwise add the decoded order exactly as it
        is (no revalidation of price, quantity or name, no stock change) under its own RowKey. */
    method ProcessOrderQueue(queueMessage: string) returns (outcome: Outcome)
      requires Valid()
      modifies table
      ensures Valid()
      ensures Decode(codec, queueMessage).Malformed? ==> outcome == Failed && table.rows == old(table.rows)
      ensures Decode(codec, queueMessage).Null? ==> outcome == Dropped && table.rows == old(table.rows)
      ensures Decode(codec, queueMessage).Value? ==>
                var order := Decode(codec, queueMessage).value;
                if OrderKey(order) in old(table.rows)
                then outcome == Failed && table.rows == old(table.rows)
                else outcome == Inserted && table.rows == old(table.rows)[OrderKey(order) := order]
    {
      match Decode(codec, queueMessage)
      case Malformed =>
        return Failed;
      case Null =>
        return Dropped;
      case Value(order) =>
        var added := table.AddEntity(order);
        outcome := if added then Inserted else Failed;
    }
  }
}
