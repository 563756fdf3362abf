/** The Cart record of the storefront database: four persisted columns and the display fields
    that are filled from the product API and never stored. */
module CartModel {
  /** Column limit of CustomerUsername and ProductId. */
  const MaxKeyLength: nat := 100

  /** The persisted part of a cart line: Id, CustomerUsername, ProductId, Quantity. */
  datatype CartRow = CartRow(id: int, customerUsername: string, productId: string, quantity: int)

  /** A Cart object: the persisted row plus the NotMapped display fields. */
  datatype Cart = Cart(
    id: int, customerUsername: string, productId: string, quantity: int,
    productName: string, unitPrice: real, productImageUrl: string, stockAvailable: int)

  /** A row satisfies the declared constraints: both keys present and within 100 characters,
      and a quantity of at least 1. */
  predicate ValidRow(r: CartRow)
  {
    0 < |r.customerUsername| <= MaxKeyLength && 0 < |r.productId| <= MaxKeyLength && r.quantity >= 1
  }

  /** What saving a Cart writes: only the mapped columns. */
  function ToRow(c: Cart): (r: CartRow)
    ensures r.id == c.id && r.customerUsername == c.customerUsername
    ensures r.productId == c.productId && r.quantity == c.quantity
  {
    CartRow(c.id, c.customerUsername, c.productId, c.quantity)
  }

  /** What loading a row yields: the display fields keep their initial values. */
  function FromRow(r: CartRow): (c: Cart)
    ensures ToRow(c) == r
    ensures c.productName == "" && c.unitPrice == 0.0 && c.productImageUrl == "" && c.stockAvailable == 0
  {
    Cart(r.id, r.customerUsername, r.productId, r.quantity, "", 0.0, "", 0)
  }

  /** The display fields are not persisted: changing them does not change the stored row. */
  lemma DisplayFieldsNotPersisted(c: Cart, name: string, price: real, image: string, stock: int)
    ensures ToRow(c.(productName := name, unitPrice := price, productImageUrl := image, stockAvailable := stock)) == ToRow(c)
  {
  }

  /** TotalPrice = UnitPrice * Quantity; with a quantity of at least 1 and a non-negative price
      it is never below the unit price. */
  function TotalPrice(c: Cart): (t: real)
    ensures c.quantity >= 1 && c.unitPrice >= 0.0 ==> t >= c.unitPrice
    ensures c.unitPrice >= 0.0 && c.quantity >= 0 ==> t >= 0.0
  {
    c.unitPrice * c.quantity as real
  }
}
