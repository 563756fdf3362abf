/** The customer endpoints of the Functions project over the Customers table. */
module CustomersFunctions {
  import opened Wrappers
  import opened Http
  import opened Entities
  import opened TableStore
  import Map

  class CustomersFunctions {
    const table: TableClient<CustomerEntity>

    ghost predicate Valid()
      reads this, table
    {
      table.Valid() && table.keyOf == CustomerKey
    }

    constructor (table: TableClient<CustomerEntity>)
      requires table.Valid() && table.keyOf == CustomerKey
      ensures Valid() && this.table == table
    {
      this.table := table;
    }

    /** POST CreateCustomer: a null body is a 400; otherwise the customer is stamped with
        PartitionKey "Customer" and the fresh RowKey and added as exactly one row (a key already
        present makes the table client throw). */
    method CreateCustomer(body: Parsed<CustomerEntity>, newGuid: string) returns (status: Status)
      requires Valid() && newGuid != ""
      modifies table
      ensures Valid()
      ensures body.Null? ==> status == BadRequest && table.rows == old(table.rows)
      ensures body.Malformed? ==> status == InternalServerError && table.rows == old(table.rows)
      ensures body.Value? ==>
                var c := body.value.(partitionKey := Map.CustomerPartition, rowKey := newGuid);
                if CustomerKey(c) !in old(table.rows)
                then status == Created && table.rows == old(table.rows)[CustomerKey(c) := c]
                else status == InternalServerError && table.rows == old(table.rows)
    {
      match body
      case Malformed =>
        return InternalServerError;
      case Null =>
        return BadRequest;
      case Value(customer) =>
        var c := customer.(partitionKey := Map.CustomerPartition, rowKey := newGuid);
        var added := table.AddEntity(c);
        status := if added then Created else InternalServerError;
    }

    /** GET GetCustomers: every stored row, each once. */
    method GetCustomers() returns (status: Status, customers: seq<CustomerEntity>)
      requires Valid()
      ensures status == Ok
      ensures |customers| == |table.rows|
      ensures forall k :: k in table.rows ==> table.rows[k] in customers
      ensures forall c :: c in customers ==> CustomerKey(c) in table.rows && table.rows[CustomerKey(c)] == c
    {
      customers := table.Query();
      status := Ok;
    }

    /** GET customers/{id}: the row ("Customer", id), or 404. */
    method GetCustomerById(id: string) returns (status: Status, customer: Option<CustomerEntity>)
      requires Valid()
      ensures TableKey(Map.CustomerPartition, id) in table.rows ==>
                status == Ok && customer == Some(table.rows[TableKey(Map.CustomerPartition, id)])
      ensures TableKey(Map.CustomerPartition, id) !in table.rows ==> status == NotFound && customer == None
    {
      customer := table.GetEntity(TableKey(Map.CustomerPartition, id));
      status := if customer.Some? then Ok else NotFound;
    }

    /** PUT UpdateCustomer: a null body or an empty RowKey is a 400; otherwise the row is replaced
        unconditionally, so the last writer wins. */
    method UpdateCustomer(body: Parsed<CustomerEntity>) returns (status: Status)
      requires Valid()
      modifies table
      ensures Valid()
      ensures (body.Null? || (body.Value? && body.value.rowKey == "")) ==>
                status == BadRequest && table.rows == old(table.rows)
      ensures body.Malformed? ==> status == InternalServerError && table.rows == old(table.rows)
      ensures body.Value? && body.value.rowKey != "" ==>
                if CustomerKey(body.value) in old(table.rows)
                then status == Ok && table.rows == old(table.rows)[CustomerKey(body.value) := body.value]
                else status == InternalServerError && table.rows == old(table.rows)
    {
      match body
      case Malformed =>
        return InternalServerError;
      case Null =>
        return BadRequest;
      case Value(customer) =>
        if customer.rowKey == "" {
          return BadRequest;
        }
        var ok := table.UpdateEntityReplace(customer);
        status := if ok then Ok else InternalServerError;
    }

    /** DELETE customers/{id}: removes ("Customer", id) and answers 200 whether or not it existed. */
    method DeleteCustomer(id: string) returns (status: Status)
      requires Valid()
      modifies table
      ensures Valid()
      ensures status == Ok && table.rows == old(table.rows) - {TableKey(Map.CustomerPartition, id)}
    {
      table.DeleteEntity(TableKey(Map.CustomerPartition, id));
      status := Ok;
    }
  }
}
