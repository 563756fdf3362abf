/** The order pages of the storefront: Create validates the chosen customer, product and
    quantity and submits one order; Edit and Delete forward to the Functions API. */
module OrderController {
  import opened Wrappers
  import opened FunctionsApi

  /** The create form: the chosen customer's RowKey, the chosen product and the quantity. */
  datatype OrderForm = OrderForm(customerId: string, productId: string, quantity: int)

  datatype CreateOutcome = CreateFormInvalid | InvalidSelection | StockTooLow(available: int) | OrderCreated | CreateFailed

  datatype EditOutcome = EditFormInvalid | EditSaved | EditFailed

  datatype DeleteOutcome = DeleteSucceeded | DeleteFailed

  /** The order Create submits for a valid form, if any: none when the customer or the product
      is unknown or the stock is below the quantity; otherwise the customer's username, the
      product's name and price, price times quantity and "Submitted". */
  function SubmittedOrder(customers: seq<Customer>, catalog: map<string, Product>, form: OrderForm, now: int): (r: Option<Order>)
    ensures r.Some? <==>
              FindByRowKey(customers, form.customerId).Some? && form.productId in catalog &&
              form.quantity <= catalog[form.productId].stockAvailable
    ensures r.Some? ==>
              var c := FindByRowKey(customers, form.customerId).value;
              var p := catalog[form.productId];
              r.value.customerId == form.customerId && r.value.username == c.username &&
              r.value.productId == form.productId && r.value.productName == p.productName &&
              r.value.quantity == form.quantity && r.value.unitPrice == p.price &&
              r.value.totalPrice == p.price * form.quantity as real && r.value.status == SubmittedStatus
  {
    var customer := FindByRowKey(customers, form.customerId);
    if customer.None? || form.productId !in catalog then None
    else
      var p := catalog[form.productId];
      if p.stockAvailable < form.quantity then None
      else Some(NewOrder(form.customerId, customer.value.username, form.productId, p, form.quantity, now))
  }

  /** Stock exactly equal to the quantity is enough; one unit less is not. */
  lemma StockBoundary(customers: seq<Customer>, catalog: map<string, Product>, form: OrderForm, now: int)
    requires FindByRowKey(customers, form.customerId).Some? && form.productId in catalog
    ensures catalog[form.productId].stockAvailable == form.quantity ==> SubmittedOrder(customers, catalog, form, now).Some?
    ensures catalog[form.productId].stockAvailable == form.quantity - 1 ==> SubmittedOrder(customers, catalog, form, now).None?
  {
  }

  class OrderController {
    const api: FunctionsApiClient

    constructor (api: FunctionsApiClient)
      ensures this.api == api
    {
      this.api := api;
    }

    /** POST Create: at most one CreateOrder request, and success reported only when the API
        accepted it. */
    method Create(form: OrderForm, modelValid: bool, now: int) returns (outcome: CreateOutcome)
      modifies api
      ensures api.catalog == old(api.catalog) && api.customers == old(api.customers) && api.orders == old(api.orders)
      ensures !modelValid ==> outcome == CreateFormInvalid && api.requests == old(api.requests)
      ensures modelValid && (FindByRowKey(api.customers, form.customerId).None? || form.productId !in api.catalog) ==>
                outcome == InvalidSelection && api.requests == old(api.requests)
      ensures modelValid && FindByRowKey(api.customers, form.customerId).Some? && form.productId in api.catalog &&
              api.catalog[form.productId].stockAvailable < form.quantity ==>
                outcome == StockTooLow(api.catalog[form.productId].stockAvailable) && api.requests == old(api.requests)
      ensures modelValid && SubmittedOrder(api.customers, api.catalog, form, now).Some? ==>
                var request := CreateOrder(SubmittedOrder(api.customers, api.catalog, form, now).value);
                api.requests == old(api.requests) + [request] &&
                outcome == if api.accepts(request) then OrderCreated else CreateFailed
    {
      if !modelValid {
        return CreateFormInvalid;
      }
      var customer := api.GetCustomerById(form.customerId);
      var product := api.GetProductById(form.productId);
      if customer.None? || product.None? {
        return InvalidSelection;
      }
      if product.value.stockAvailable < form.quantity {
        return StockTooLow(product.value.stockAvailable);
      }
      var order := NewOrder(form.customerId, customer.value.username, form.productId, product.value, form.quantity, now);
      var success := api.Send(CreateOrder(order));
      outcome := if success then OrderCreated else CreateFailed;
    }

    /** GET Details or Edit: the order, or NotFound (None). */
    method Details(id: string) returns (order: Option<Order>)
      ensures id in api.orders ==> order == Some(api.orders[id])
      ensures id !in api.orders ==> order == None
    {
      order := api.GetOrderById(id);
    }

    /** POST Edit: only the order's id and status are forwarded. */
    method Edit(order: Order, modelValid: bool) returns (outcome: EditOutcome)
      modifies api
      ensures api.catalog == old(api.catalog) && api.customers == old(api.customers) && api.orders == old(api.orders)
      ensures !modelValid ==> outcome == EditFormInvalid && api.requests == old(api.requests)
      ensures modelValid ==>
                var request := UpdateOrderStatus(order.orderId, order.status);
                api.requests == old(api.requests) + [request] &&
                outcome == if api.accepts(request) then EditSaved else EditFailed
    {
      if !modelValid {
        return EditFormInvalid;
      }
      var success := api.Send(UpdateOrderStatus(order.orderId, order.status));
      outcome := if success then EditSaved else EditFailed;
    }

    /** POST Delete: one DeleteOrder request; the message follows the API's answer. */
    method Delete(id: string) returns (outcome: DeleteOutcome)
      modifies api
      ensures api.catalog == old(api.catalog) && api.customers == old(api.customers) && api.orders == old(api.orders)
      ensures api.requests == old(api.requests) + [DeleteOrder(id)]
      ensures outcome == if api.accepts(DeleteOrder(id)) then DeleteSucceeded else DeleteFailed
    {
      var success := api.Send(DeleteOrder(id));
      outcome := if success then DeleteSucceeded else DeleteFailed;
    }
  }
}
