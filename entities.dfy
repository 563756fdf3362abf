/** The table entities and transfer objects of the Functions project. Every Azure table row is
    addressed by its (PartitionKey, RowKey) pair; prices are reals (no floating-point rounding) and
    dates are ticks, with 0 standing for default(DateTime). A null string is represented by "". */
module Entities {

  datatype TableKey = TableKey(partitionKey: string, rowKey: string)

  datatype CustomerEntity = CustomerEntity(
    partitionKey: string, rowKey: string,
    name: string, surname: string, username: string, email: string, shippingAddress: string)

  datatype ProductEntity = ProductEntity(
    partitionKey: string, rowKey: string,
    productName: string, description: string, price: real, stockAvailable: int, imageUrl: string)

  datatype OrderEntity = OrderEntity(
    partitionKey: string, rowKey: string,
    customerId: string, username: string, productId: string, productName: string,
    orderDate: int, quantity: int, unitPrice: real, totalPrice: real, status: string)

  datatype CustomerDto = CustomerDto(
    customerId: string, name: string, surname: string, username: string, email: string, shippingAddress: string)

  datatype ProductDto = ProductDto(
    productId: string, productName: string, description: string, price: real, stockAvailable: int, imageUrl: string)

  datatype OrderDto = OrderDto(
    orderId: string, customerId: string, username: string, productId: string, productName: string,
    orderDate: int, quantity: int, unitPrice: real, totalPrice: real, status: string)

  /** default(DateTime). */
  const DefaultDate: int := 0

  /** Objects built by a parameterless constructor: every string empty, every number zero. */
  const EmptyCustomerEntity := CustomerEntity("", "", "", "", "", "", "")
  const EmptyProductEntity := ProductEntity("", "", "", "", 0.0, 0, "")
  const EmptyOrderEntity := OrderEntity("", "", "", "", "", "", DefaultDate, 0, 0.0, 0.0, "")
  const EmptyCustomerDto := CustomerDto("", "", "", "", "", "")
  const EmptyProductDto := ProductDto("", "", "", 0.0, 0, "")
  const EmptyOrderDto := OrderDto("", "", "", "", "", DefaultDate, 0, 0.0, 0.0, "")

  function CustomerKey(e: CustomerEntity): TableKey { TableKey(e.partitionKey, e.rowKey) }
  function ProductKey(e: ProductEntity): TableKey { TableKey(e.partitionKey, e.rowKey) }
  function OrderKey(e: OrderEntity): TableKey { TableKey(e.partitionKey, e.rowKey) }
}
