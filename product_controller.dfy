/** The product pages of the storefront: the catalogue listing with its search filter and
    name ordering, and the administrative Create, Edit and Delete forms. */
module ProductController {
  import opened Wrappers
  import opened Text
  import opened FunctionsApi

  /** A product is kept by the search when its name or its description is non-empty and
      contains the term, ignoring case. */
  predicate Matches(p: Product, term: string)
  {
    (p.productName != "" && ContainsIgnoreCase(p.productName, term)) ||
    (p.description != "" && ContainsIgnoreCase(p.description, term))
  }

  /** The Where clause: every copy of a matching product is kept, in order, and nothing else. */
  function FilterProducts(products: seq<Product>, term: string): (r: seq<Product>)
    ensures forall p :: multiset(r)[p] == if Matches(p, term) then multiset(products)[p] else 0
    ensures forall p :: p in r <==> p in products && Matches(p, term)
    ensures |r| <= |products|
  {
    if products == [] then []
    else
      assert products == [products[0]] + products[1..];
      (if Matches(products[0], term) then [products[0]] else []) + FilterProducts(products[1..], term)
  }

  predicate NameLe(a: Product, b: Product)
  {
    OrdinalLe(a.productName, b.productName)
  }

  predicate SortedByName(s: seq<Product>)
  {
    forall i, j :: 0 <= i < j < |s| ==> NameLe(s[i], s[j])
  }

  /** A head no greater than any later element extends a sorted sequence. */
  lemma SortedCons(h: Product, rest: seq<Product>)
    requires SortedByName(rest)
    requires forall p :: p in rest ==> NameLe(h, p)
    ensures SortedByName([h] + rest)
  {
    forall i, j | 0 <= i < j < |[h] + rest|
      ensures NameLe(([h] + rest)[i], ([h] + rest)[j])
    {
      assert ([h] + rest)[j] == rest[j - 1];
      if i > 0 {
        assert ([h] + rest)[i] == rest[i - 1];
      }
    }
  }

  /** The head of a sorted sequence, no greater than x, is no greater than anything in a
      rearrangement of x and the rest. */
  lemma HeadBelowAll(s: seq<Product>, x: Product, rest: seq<Product>)
    requires SortedByName(s) && s != [] && NameLe(s[0], x)
    requires multiset(rest) == multiset(s[1..]) + multiset{x}
    ensures forall p :: p in rest ==> NameLe(s[0], p)
  {
    forall p | p in rest
      ensures NameLe(s[0], p)
    {
      assert p in multiset(rest);
      if p != x {
        assert p in multiset(s[1..]);
        var k :| 0 <= k < |s[1..]| && s[1..][k] == p;
        assert s[k + 1] == p;
      }
    }
  }

  /** Inserts x before the first element whose name is not smaller than its own. */
  function Insert(x: Product, s: seq<Product>): (r: seq<Product>)
    requires SortedByName(s)
    ensures SortedByName(r)
    ensures multiset(r) == multiset(s) + multiset{x}
  {
    if s == [] then [x]
    else if !NameLe(x, s[0]) then
      assert s == [s[0]] + s[1..];
      var rest := Insert(x, s[1..]);
      OrdinalLeTotal(x.productName, s[0].productName);
      HeadBelowAll(s, x, rest);
      SortedCons(s[0], rest);
      [s[0]] + rest
    else
      forall p | p in s
        ensures NameLe(x, p)
      {
        var k :| 0 <= k < |s| && s[k] == p;
        if k > 0 {
          OrdinalLeTrans(x.productName, s[0].productName, p.productName);
        }
      }
      SortedCons(x, s);
      [x] + s
  }

  /** OrderBy(p => p.ProductName): a sorted rearrangement of the input. */
  function SortByName(s: seq<Product>): (r: seq<Product>)
    ensures SortedByName(r)
    ensures multiset(r) == multiset(s)
  {
    if s == [] then []
    else
      assert s == [s[0]] + s[1..];
      Insert(s[0], SortByName(s[1..]))
  }

  /** GET Index: the products (as the API listed them) filtered by a non-blank search term and
      ordered by name. */
  function Index(products: seq<Product>, searchTerm: string): (r: seq<Product>)
    ensures SortedByName(r)
    ensures IsNullOrWhiteSpace(searchTerm) ==> multiset(r) == multiset(products)
    ensures !IsNullOrWhiteSpace(searchTerm) ==>
              forall p :: multiset(r)[p] == if Matches(p, searchTerm) then multiset(products)[p] else 0
  {
    if IsNullOrWhiteSpace(searchTerm) then SortByName(products)
    else SortByName(FilterProducts(products, searchTerm))
  }

  /** The listing never shows a product that was not listed, and with a non-blank term shows
      exactly the matching ones. */
  lemma IndexMembership(products: seq<Product>, searchTerm: string, p: Product)
    ensures p in Index(products, searchTerm) ==> p in products
    ensures !IsNullOrWhiteSpace(searchTerm) ==>
              (p in Index(products, searchTerm) <==> p in products && Matches(p, searchTerm))
    ensures IsNullOrWhiteSpace(searchTerm) ==> (p in Index(products, searchTerm) <==> p in products)
  {
    var r := Index(products, searchTerm);
    assert p in r <==> p in multiset(r);
    assert p in products <==> p in multiset(products);
  }

  /** A product is found by a search for its own non-empty name, in any letter case. */
  lemma SearchFindsOwnName(products: seq<Product>, p: Product)
    requires p in products && p.productName != "" && !IsNullOrWhiteSpace(p.productName)
    ensures p in Index(products, p.productName)
  {
    IndexMembership(products, p.productName, p);
  }

  datatype FormOutcome = RedirectToIndex | RedisplayForm

  class ProductController {
    const api: FunctionsApiClient

    constructor (api: FunctionsApiClient)
      ensures this.api == api
    {
      this.api := api;
    }

    /** POST Create: the product is sent only when the form is valid; the API's answer is not
        consulted. */
    method Create(product: Product, modelValid: bool) returns (outcome: FormOutcome)
      modifies api
      ensures api.catalog == old(api.catalog) && api.customers == old(api.customers) && api.orders == old(api.orders)
      ensures modelValid ==> outcome == RedirectToIndex && api.requests == old(api.requests) + [CreateProduct(product)]
      ensures !modelValid ==> outcome == RedisplayForm && api.requests == old(api.requests)
    {
      if modelValid {
        var _ := api.Send(CreateProduct(product));
        return RedirectToIndex;
      }
      return RedisplayForm;
    }

    /** GET Edit and GET Delete: the product, or NotFound (None). */
    method Find(id: string) returns (product: Option<Product>)
      ensures id in api.catalog ==> product == Some(api.catalog[id])
      ensures id !in api.catalog ==> product == None
    {
      product := api.GetProductById(id);
    }

    /** POST Edit: the update is sent only when the form is valid. */
    method Edit(product: Product, modelValid: bool) returns (outcome: FormOutcome)
      modifies api
      ensures api.catalog == old(api.catalog) && api.customers == old(api.customers) && api.orders == old(api.orders)
      ensures modelValid ==> outcome == RedirectToIndex && api.requests == old(api.requests) + [UpdateProduct(product)]
      ensures !modelValid ==> outcome == RedisplayForm && api.requests == old(api.requests)
    {
      if modelValid {
        var _ := api.Send(UpdateProduct(product));
        return RedirectToIndex;
      }
      return RedisplayForm;
    }

    /** POST Delete: one delete request, then back to the listing whatever the answer. */
    method DeleteConfirmed(id: string) returns (outcome: FormOutcome)
      modifies api
      ensures api.catalog == old(api.catalog) && api.customers == old(api.customers) && api.orders == old(api.orders)
      ensures outcome == RedirectToIndex && api.requests == old(api.requests) + [DeleteProduct(id)]
    {
      var _ := api.Send(DeleteProduct(id));
      outcome := RedirectToIndex;
    }
  }
}
