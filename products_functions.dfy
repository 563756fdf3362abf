/** The product endpoints of the Functions project over the Products table. There is no
    product-by-id endpoint among them. */
module ProductsFunctions {
  import opened Wrappers
  import opened Http
  import opened Entities
  import opened TableStore
  import Map

  class ProductsFunctions {
    const table: TableClient<ProductEntity>

    ghost predicate Valid()
      reads this, table
    {
      table.Valid() && table.keyOf == ProductKey
    }

    constructor (table: TableClient<ProductEntity>)
      requires table.Valid() && table.keyOf == ProductKey
      ensures Valid() && this.table == table
    {
      this.table := table;
    }

    /** POST CreateProduct: a null body is a 400; otherwise the product gets the fresh RowKey,
        overriding any it carried, and keeps the PartitionKey it was deserialised with. */
    method CreateProduct(body: Parsed<ProductEntity>, newGuid: string) returns (status: Status)
      requires Valid() && newGuid != ""
      modifies table
      ensures Valid()
      ensures body.Null? ==> status == BadRequest && table.rows == old(table.rows)
      ensures body.Malformed? ==> status == InternalServerError && table.rows == old(table.rows)
      ensures body.Value? ==>
                var p := body.value.(rowKey := newGuid);
                if ProductKey(p) !in old(table.rows)
                then status == Created && table.rows == old(table.rows)[ProductKey(p) := p]
                else status == InternalServerError && table.rows == old(table.rows)
    {
      match body
      case Malformed =>
        return InternalServerError;
      case Null =>
        return BadRequest;
      case Value(product) =>
        var p := product.(rowKey := newGuid);
        var added := table.AddEntity(p);
        status := if added then Created else InternalServerError;
    }

    /** GET GetProducts: Map.ToDto of every stored row, in the order the query returned them. */
    method GetProducts() returns (status: Status, dtos: seq<ProductDto>)
      requires Valid()
      ensures status == Ok
      ensures |dtos| == |table.rows|
      ensures forall k :: k in table.rows ==> Map.ProductToDto(Some(table.rows[k])) in dtos
      ensures forall d :: d in dtos ==>
                exists k :: k in table.rows && d == Map.ProductToDto(Some(table.rows[k]))
    {
      var entities := table.Query();
      dtos := seq(|entities|, i requires 0 <= i < |entities| => Map.ProductToDto(Some(entities[i])));
      forall k | k in table.rows
        ensures Map.ProductToDto(Some(table.rows[k])) in dtos
      {
        var i :| 0 <= i < |entities| && entities[i] == table.rows[k];
        assert dtos[i] == Map.ProductToDto(Some(table.rows[k]));
      }
      forall d | d in dtos
        ensures exists k :: k in table.rows && d == Map.ProductToDto(Some(table.rows[k]))
      {
        var i :| 0 <= i < |dtos| && dtos[i] == d;
        assert table.rows[ProductKey(entities[i])] == entities[i];
      }
      status := Ok;
    }

    /** PUT UpdateProduct: a null body or an empty RowKey is a 400; otherwise the row is replaced
        unconditionally. */
    method UpdateProduct(body: Parsed<ProductEntity>) returns (status: Status)
      requires Valid()
      modifies table
      ensures Valid()
      ensures (body.Null? || (body.Value? && body.value.rowKey == "")) ==>
                status == BadRequest && table.rows == old(table.rows)
      ensures body.Malformed? ==> status == InternalServerError && table.rows == old(table.rows)
      ensures body.Value? && body.value.rowKey != "" ==>
                if ProductKey(body.value) in old(table.rows)
                then status == Ok && table.rows == old(table.rows)[ProductKey(body.value) := body.value]
                else status == InternalServerError && table.rows == old(table.rows)
    {
      match body
      case Malformed =>
        return InternalServerError;
      case Null =>
        return BadRequest;
      case Value(product) =>
        if product.rowKey == "" {
          return BadRequest;
        }
        var ok := table.UpdateEntityReplace(product);
        status := if ok then Ok else InternalServerError;
    }

    /** DELETE DeleteProduct?id=...: a missing or empty id is a 400 and deletes nothing; otherwise
        ("Product", id) is removed, present or not. */
    method DeleteProduct(id: Option<string>) returns (status: Status)
      requires Valid()
      modifies table
      ensures Valid()
      ensures (id.None? || id.value == "") ==> status == BadRequest && table.rows == old(table.rows)
      ensures id.Some? && id.value != "" ==>
                status == Ok && table.rows == old(table.rows) - {TableKey(Map.ProductPartition, id.value)}
    {
      if id.None? || id.value == "" {
        return BadRequest;
      }
      table.DeleteEntity(TableKey(Map.ProductPartition, id.value));
      status := Ok;
    }
  }
}
