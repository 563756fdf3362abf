/** The cart page's view models and their computed totals. */
module CartViewModels {
  datatype CartItemViewModel = CartItemViewModel(
    id: int, productId: string, productName: string, productImageUrl: string,
    quantity: int, unitPrice: real, stockAvailable: int)

  datatype CartViewModel = CartViewModel(customerUsername: string, cartItems: seq<CartItemViewModel>)

  /** The add-to-cart form: the product and the requested quantity. */
  datatype AddToCartViewModel = AddToCartViewModel(productId: string, quantity: int)

  /** An item's TotalPrice = UnitPrice * Quantity: never negative for a priced item, and never
      below the unit price once the quantity is at least 1. */
  function ItemTotalPrice(item: CartItemViewModel): (r: real)
    ensures item.unitPrice >= 0.0 && item.quantity >= 0 ==> r >= 0.0
    ensures item.unitPrice >= 0.0 && item.quantity >= 1 ==> r >= item.unitPrice
  {
    item.unitPrice * item.quantity as real
  }

  /** Sum of the items' quantities; with every quantity at least 1 it is at least the number
      of items. */
  function TotalItems(items: seq<CartItemViewModel>): (r: int)
    ensures QuantitiesPositive(items) ==> r >= |items|
  {
    if items == [] then 0
    else
      assert QuantitiesPositive(items) ==> QuantitiesPositive(items[1..]);
      items[0].quantity + TotalItems(items[1..])
  }

  /** Sum of the items' total prices; never negative when no price or quantity is. */
  function TotalPrice(items: seq<CartItemViewModel>): (r: real)
    ensures (forall i :: 0 <= i < |items| ==> items[i].unitPrice >= 0.0 && items[i].quantity >= 0) ==> r >= 0.0
  {
    if items == [] then 0.0
    else ItemTotalPrice(items[0]) + TotalPrice(items[1..])
  }

  /** HasItems: the list is not empty; with valid quantities, exactly when TotalItems is
      positive. */
  predicate HasItems(v: CartViewModel)
    ensures QuantitiesPositive(v.cartItems) ==> (HasItems(v) <==> TotalItems(v.cartItems) > 0)
  {
    |v.cartItems| > 0
  }

  predicate QuantitiesPositive(items: seq<CartItemViewModel>)
  {
    forall i :: 0 <= i < |items| ==> items[i].quantity >= 1
  }

  /** Both sums distribute over concatenation, so the totals do not depend on how the list was
      assembled. */
  lemma {:induction false} TotalsConcat(a: seq<CartItemViewModel>, b: seq<CartItemViewModel>)
    ensures TotalItems(a + b) == TotalItems(a) + TotalItems(b)
    ensures TotalPrice(a + b) == TotalPrice(a) + TotalPrice(b)
  {
    if a == [] {
      assert a + b == b;
    } else {
      assert (a + b)[1..] == a[1..] + b;
      TotalsConcat(a[1..], b);
    }
  }

  /** A new add-to-cart form: no product yet, quantity 1. */
  const DefaultAddToCart: AddToCartViewModel := AddToCartViewModel("", 1)

  /** The form's declared constraints: a product id and a quantity of at least 1. */
  predicate ValidAddToCart(m: AddToCartViewModel)
  {
    m.productId != "" && m.quantity >= 1
  }

  /** The default quantity meets the range constraint, so only the product id has to be filled. */
  lemma DefaultQuantityValid(productId: string)
    ensures DefaultAddToCart.quantity == 1
    ensures ValidAddToCart(DefaultAddToCart.(productId := productId)) <==> productId != ""
  {
  }
}
