/** The storefront's view of the remote Functions API. Reads come from a snapshot of the remote
    stores (products by id, the customer list, orders by id); every write is one request that is
    appended to a log, and whether the remote side answers with a success status is decided by
    `accepts`, which the model leaves open. */
module FunctionsApi {
  import opened Wrappers

  datatype Product = Product(
    productId: string, productName: string, description: string,
    price: real, stockAvailable: int, imageUrl: string)

  datatype Customer = Customer(
    rowKey: string, name: string, surname: string, username: string, email: string, shippingAddress: string)

  datatype Order = Order(
    orderId: string, customerId: string, username: string, productId: string, productName: string,
    orderDate: int, quantity: int, unitPrice: real, totalPrice: real, status: string)

  /** The status every new order is created with. */
  const SubmittedStatus: string := "Submitted"

  /** The write calls of the API, one per request. */
  datatype ApiRequest =
    | CreateProduct(product: Product)
    | UpdateProduct(product: Product)
    | DeleteProduct(id: string)
    | CreateOrder(order: Order)
    | UpdateOrderStatus(orderId: string, newStatus: string)
    | DeleteOrder(id: string)

  /** An order as both controllers build it: the product id the caller asked for, name and
      unit price copied from the product fetched for it, the total computed as price times
      quantity, status "Submitted" and no id yet. */
  function NewOrder(customerId: string, username: string, productId: string, product: Product,
                    quantity: int, now: int): (o: Order)
    ensures o.status == SubmittedStatus && o.orderId == ""
    ensures o.productId == productId && o.productName == product.productName
    ensures o.unitPrice == product.price && o.totalPrice == o.unitPrice * o.quantity as real
    ensures o.customerId == customerId && o.username == username && o.quantity == quantity && o.orderDate == now
  {
    Order("", customerId, username, productId, product.productName, now, quantity,
          product.price, product.price * quantity as real, SubmittedStatus)
  }

  /** `FirstOrDefault(c => c.Username == username)` over the customer list. */
  function FindByUsername(customers: seq<Customer>, username: string): (r: Option<Customer>)
    ensures r.Some? ==> r.value in customers && r.value.username == username
    ensures r.Some? ==> exists i :: 0 <= i < |customers| && customers[i] == r.value &&
                                    forall k :: 0 <= k < i ==> customers[k].username != username
    ensures r.None? ==> forall c :: c in customers ==> c.username != username
  {
    if customers == [] then None
    else if customers[0].username == username then Some(customers[0])
    else FindByUsername(customers[1..], username)
  }

  /** The first customer whose RowKey is `id`. */
  function FindByRowKey(customers: seq<Customer>, id: string): (r: Option<Customer>)
    ensures r.Some? ==> r.value in customers && r.value.rowKey == id
    ensures r.Some? ==> exists i :: 0 <= i < |customers| && customers[i] == r.value &&
                                    forall k :: 0 <= k < i ==> customers[k].rowKey != id
    ensures r.None? ==> forall c :: c in customers ==> c.rowKey != id
  {
    if customers == [] then None
    else if customers[0].rowKey == id then Some(customers[0])
    else FindByRowKey(customers[1..], id)
  }

  class FunctionsApiClient {
    var catalog: map<string, Product>
    var customers: seq<Customer>
    var orders: map<string, Order>
    var requests: seq<ApiRequest>
    const accepts: ApiRequest -> bool

    constructor (catalog: map<string, Product>, customers: seq<Customer>, orders: map<string, Order>,
                 accepts: ApiRequest -> bool)
      ensures this.catalog == catalog && this.customers == customers && this.orders == orders
      ensures this.accepts == accepts && requests == []
    {
      this.catalog := catalog;
      this.customers := customers;
      this.orders := orders;
      this.accepts := accepts;
      requests := [];
    }

    /** GetProductByIdAsync: the product, or null (None) for any failure. */
    method GetProductById(id: string) returns (p: Option<Product>)
      ensures id in catalog ==> p == Some(catalog[id])
      ensures id !in catalog ==> p == None
    {
      p := if id in catalog then Some(catalog[id]) else None;
    }

    /** GetCustomersAsync: the whole customer list. */
    method GetCustomers() returns (cs: seq<Customer>)
      ensures cs == customers
    {
      cs := customers;
    }

    /** GetCustomerByIdAsync: the customer with that RowKey, or null. */
    method GetCustomerById(id: string) returns (c: Option<Customer>)
      ensures c == FindByRowKey(customers, id)
    {
      c := FindByRowKey(customers, id);
    }

    /** GetOrderByIdAsync: the order, or null when the call fails. */
    method GetOrderById(id: string) returns (o: Option<Order>)
      ensures id in orders ==> o == Some(orders[id])
      ensures id !in orders ==> o == None
    {
      o := if id in orders then Some(orders[id]) else None;
    }

    /** One write call: the request goes out, and the result is whether the answer had a
        success status. The snapshot the reads come from is not changed. */
    method Send(r: ApiRequest) returns (ok: bool)
      modifies this
      ensures requests == old(requests) + [r] && ok == accepts(r)
      ensures catalog == old(catalog) && customers == old(customers) && orders == old(orders)
    {
      requests := requests + [r];
      ok := accepts(r);
    }
  }
}
