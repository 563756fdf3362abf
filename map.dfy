/** Field-copy conversions between table entities and transfer objects (the static class Map).
    A null argument is None; Guid.NewGuid() and DateTime.UtcNow arrive as the parameters
    freshKey and now. */
module Map {
  import opened Wrappers
  import opened Entities

  const CustomerPartition: string := "Customer"
  const ProductPartition: string := "Product"
  const OrderPartition: string := "Order"
  const SubmittedStatus: string := "Submitted"

  /** The row key ToEntity chooses: the transfer object's own id unless it is empty. */
  function KeyOrFresh(id: string, freshKey: string): (k: string)
    requires freshKey != ""
    ensures k != ""
    ensures id != "" ==> k == id
    ensures id == "" ==> k == freshKey
  {
    if id == "" then freshKey else id
  }

  function CustomerToDto(entity: Option<CustomerEntity>): (dto: CustomerDto)
    ensures entity.None? ==> dto == EmptyCustomerDto
  {
    match entity
    case None => EmptyCustomerDto
    case Some(e) => CustomerDto(e.rowKey, e.name, e.surname, e.username, e.email, e.shippingAddress)
  }

  function CustomerToEntity(dto: Option<CustomerDto>, freshKey: string): (e: CustomerEntity)
    requires freshKey != ""
    ensures dto.None? ==> e == EmptyCustomerEntity
    ensures dto.Some? ==> e.partitionKey == CustomerPartition && e.rowKey == KeyOrFresh(dto.value.customerId, freshKey)
    ensures dto.Some? ==> CustomerToDto(Some(e)) == dto.value.(customerId := e.rowKey)
    ensures dto.Some? && dto.value.customerId != "" ==> CustomerToDto(Some(e)) == dto.value
  {
    match dto
    case None => EmptyCustomerEntity
    case Some(d) =>
      CustomerEntity(CustomerPartition, KeyOrFresh(d.customerId, freshKey),
                     d.name, d.surname, d.username, d.email, d.shippingAddress)
  }

  /** A customer row read back through its transfer object is the same row. */
  lemma CustomerEntityRoundTrip(e: CustomerEntity, freshKey: string)
    requires freshKey != "" && e.partitionKey == CustomerPartition && e.rowKey != ""
    ensures CustomerToEntity(Some(CustomerToDto(Some(e))), freshKey) == e
  {
  }

  function ProductToDto(entity: Option<ProductEntity>): (dto: ProductDto)
    ensures entity.None? ==> dto == EmptyProductDto
  {
    match entity
    case None => EmptyProductDto
    case Some(e) => ProductDto(e.rowKey, e.productName, e.description, e.price, e.stockAvailable, e.imageUrl)
  }

  function ProductToEntity(dto: Option<ProductDto>, freshKey: string): (e: ProductEntity)
    requires freshKey != ""
    ensures dto.None? ==> e == EmptyProductEntity
    ensures dto.Some? ==> e.partitionKey == ProductPartition && e.rowKey == KeyOrFresh(dto.value.productId, freshKey)
    ensures dto.Some? ==> ProductToDto(Some(e)) == dto.value.(productId := e.rowKey)
    ensures dto.Some? && dto.value.productId != "" ==> ProductToDto(Some(e)) == dto.value
  {
    match dto
    case None => EmptyProductEntity
    case Some(d) =>
      ProductEntity(ProductPartition, KeyOrFresh(d.productId, freshKey),
                    d.productName, d.description, d.price, d.stockAvailable, d.imageUrl)
  }

  /** A product row read back through its transfer object is the same row. */
  lemma ProductEntityRoundTrip(e: ProductEntity, freshKey: string)
    requires freshKey != "" && e.partitionKey == ProductPartition && e.rowKey != ""
    ensures ProductToEntity(Some(ProductToDto(Some(e))), freshKey) == e
  {
  }

  function OrderToDto(entity: Option<OrderEntity>): (dto: OrderDto)
    ensures entity.None? ==> dto == EmptyOrderDto
  {
    match entity
    case None => EmptyOrderDto
    case Some(e) =>
      OrderDto(e.rowKey, e.customerId, e.username, e.productId, e.productName,
               e.orderDate, e.quantity, e.unitPrice, e.totalPrice, e.status)
  }

  /** ToEntity for orders also fills in a missing date (with now) and a missing status ("Submitted"). */
  function OrderToEntity(dto: Option<OrderDto>, freshKey: string, now: int): (e: OrderEntity)
    requires freshKey != "" && now != DefaultDate
    ensures dto.None? ==> e == EmptyOrderEntity
    ensures dto.Some? ==> e.partitionKey == OrderPartition && e.rowKey == KeyOrFresh(dto.value.orderId, freshKey)
    ensures dto.Some? ==> e.orderDate != DefaultDate && e.status != ""
    ensures dto.Some? ==> e.orderDate == (if dto.value.orderDate == DefaultDate then now else dto.value.orderDate)
    ensures dto.Some? ==> e.status == (if dto.value.status == "" then SubmittedStatus else dto.value.status)
    ensures dto.Some? ==> OrderToDto(Some(e)) == dto.value.(orderId := e.rowKey, orderDate := e.orderDate, status := e.status)
    ensures dto.Some? && dto.value.orderId != "" && dto.value.orderDate != DefaultDate && dto.value.status != ""
            ==> OrderToDto(Some(e)) == dto.value
  {
    match dto
    case None => EmptyOrderEntity
    case Some(d) =>
      OrderEntity(OrderPartition, KeyOrFresh(d.orderId, freshKey),
                  d.customerId, d.username, d.productId, d.productName,
                  if d.orderDate == DefaultDate then now else d.orderDate,
                  d.quantity, d.unitPrice, d.totalPrice,
                  if d.status == "" then SubmittedStatus else d.status)
  }

  /** An order row with a key, a date and a status survives the trip through its transfer object. */
  lemma OrderEntityRoundTrip(e: OrderEntity, freshKey: string, now: int)
    requires freshKey != "" && now != DefaultDate
    requires e.partitionKey == OrderPartition && e.rowKey != "" && e.orderDate != DefaultDate && e.status != ""
    ensures OrderToEntity(Some(OrderToDto(Some(e))), freshKey, now) == e
  {
  }
}
