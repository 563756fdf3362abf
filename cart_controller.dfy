/** The cart controller: owner-scoped changes to the Cart table and checkout into orders sent
    to the Functions API. The signed-in user's name is a parameter ("" when nobody is signed
    in); product details come from the API's product lookup. */
module CartController {
  import opened Wrappers
  import opened CartModel
  import opened CartLines
  import opened CartViewModels
  import opened FunctionsApi
  import opened AuthDb

  datatype AddOutcome =
    | InvalidProductOrQuantity
    | AddLoginRequired
    | ProductNotFound
    | InsufficientStock(available: int)
    | ExceedsStock(available: int)
    | AddFailed
    | Added(productName: string)

  datatype UpdateOutcome = QuantityTooSmall | UpdateLineNotFound | UpdateInsufficientStock(available: int) | Updated

  datatype RemoveOutcome = RemoveLineNotFound | Removed

  datatype ClearOutcome = NothingToClear | Cleared

  datatype CheckoutOutcome =
    | CheckoutLoginRequired | ProfileNotFound | CartEmpty
    | OrdersPlaced(count: nat, summary: seq<string>)
    | CheckoutFailed

  // ----- AddToCart -----

  /** The quantity of a line already in the cart after adding `quantity` more, or None when
      the total would exceed the stock. */
  function MergedQuantity(existing: int, quantity: int, stock: int): (r: Option<int>)
    ensures r.Some? <==> existing + quantity <= stock
    ensures r.Some? && existing >= 1 && quantity >= 1 ==> quantity < r.value <= stock
  {
    if existing + quantity > stock then None else Some(existing + quantity)
  }

  const MinInt32: int := -0x8000_0000
  const MaxInt32: int := 0x7FFF_FFFF

  /** C#'s unchecked `int` addition: the sum wrapped into the 32-bit range. */
  function AddInt32(a: int, b: int): (r: int)
    requires MinInt32 <= a <= MaxInt32 && MinInt32 <= b <= MaxInt32
    ensures MinInt32 <= r <= MaxInt32
    ensures (a + b - r) % 0x1_0000_0000 == 0
    ensures MinInt32 <= a + b <= MaxInt32 ==> r == a + b
  {
    var s := a + b;
    if s > MaxInt32 then s - 0x1_0000_0000 else if s < MinInt32 then s + 0x1_0000_0000 else s
  }

  /** The merge as the controller writes it: the line's 32-bit Quantity is increased first and
      the sum, wrapped, is compared with the stock. It agrees with MergedQuantity whenever the
      sum fits in 32 bits. */
  function MergedQuantityAsWritten(existing: int, quantity: int, stock: int): (r: Option<int>)
    requires MinInt32 <= existing <= MaxInt32 && MinInt32 <= quantity <= MaxInt32
    ensures existing + quantity <= MaxInt32 && MinInt32 <= existing + quantity ==>
              r == MergedQuantity(existing, quantity, stock)
    ensures r.Some? ==> MinInt32 <= r.value <= stock
  {
    var total := AddInt32(existing, quantity);
    if total > stock then None else Some(total)
  }

  /** Two accepted requests for 2,000,000,000 units of a product with int.MaxValue in stock: the
      second merge wraps to a negative quantity, which passes the stock check and is saved;
      the intended merge refuses it. */
  lemma MergedQuantityAsWrittenWraps()
    ensures MergedQuantityAsWritten(2_000_000_000, 2_000_000_000, MaxInt32) == Some(-294_967_296)
    ensures MergedQuantity(2_000_000_000, 2_000_000_000, MaxInt32) == None
  {
  }

  /** What AddToCart answers, in the order of its checks. */
  function AddOutcomeOf(cart: seq<CartRow>, catalog: map<string, Product>, username: string,
                        productId: string, quantity: int): (r: AddOutcome)
    ensures r == InvalidProductOrQuantity <==> productId == "" || quantity < 1
    ensures r == AddLoginRequired <==> productId != "" && quantity >= 1 && username == ""
    ensures r == ProductNotFound ==> productId !in catalog
    ensures r.InsufficientStock? ==> productId in catalog && r.available == catalog[productId].stockAvailable < quantity
    ensures r.ExceedsStock? ==> FindLine(cart, username, productId).Some?
    ensures r == AddFailed ==> FindLine(cart, username, productId).None? &&
                                 (|username| > MaxKeyLength || |productId| > MaxKeyLength)
    ensures r.Added? ==> username != "" && productId in catalog && 1 <= quantity <= catalog[productId].stockAvailable &&
                         r.productName == catalog[productId].productName
  {
    if productId == "" || quantity < 1 then InvalidProductOrQuantity
    else if username == "" then AddLoginRequired
    else if productId !in catalog then ProductNotFound
    else
      var p := catalog[productId];
      if p.stockAvailable < quantity then InsufficientStock(p.stockAvailable)
      else match FindLine(cart, username, productId)
        case Some(i) =>
          if MergedQuantity(cart[i].quantity, quantity, p.stockAvailable).None? then ExceedsStock(p.stockAvailable)
          else Added(p.productName)
        case None =>
          if |username| <= MaxKeyLength && |productId| <= MaxKeyLength then Added(p.productName)
          else AddFailed
  }

  /** The table after an accepted AddToCart: the existing line's quantity grows, or one new line
      with the next Id is appended. */
  function CartAfterAdd(cart: seq<CartRow>, nextId: int, username: string, productId: string, quantity: int): (r: seq<CartRow>)
    ensures |cart| <= |r| <= |cart| + 1
    ensures exists k :: 0 <= k < |r| && r[k].customerUsername == username && r[k].productId == productId
    ensures forall k :: 0 <= k < |cart| && !(cart[k].customerUsername == username && cart[k].productId == productId) ==>
              r[k] == cart[k]
  {
    match FindLine(cart, username, productId)
    case Some(i) =>
      var r := cart[i := cart[i].(quantity := cart[i].quantity + quantity)];
      assert r[i].customerUsername == username && r[i].productId == productId;
      r
    case None =>
      var r := cart + [CartRow(nextId, username, productId, quantity)];
      assert r[|cart|].customerUsername == username && r[|cart|].productId == productId;
      r
  }

  /** An empty product id or a quantity below 1 is answered before the sign-in check and before
      any lookup. */
  lemma AddRejectsInvalidInputFirst(cart: seq<CartRow>, catalog: map<string, Product>, username: string,
                                    productId: string, quantity: int)
    requires productId == "" || quantity < 1
    ensures AddOutcomeOf(cart, catalog, username, productId, quantity) == InvalidProductOrQuantity
  {
  }

  /** An accepted add names a listed product whose stock covers both the requested quantity and
      the line's new total, and the cart then holds a line for it with at least that quantity. */
  lemma AddedWithinStock(cart: seq<CartRow>, nextId: int, catalog: map<string, Product>, username: string,
                         productId: string, quantity: int)
    requires ValidRows(cart)
    requires AddOutcomeOf(cart, catalog, username, productId, quantity).Added?
    ensures productId in catalog && quantity <= catalog[productId].stockAvailable
    ensures var after := CartAfterAdd(cart, nextId, username, productId, quantity);
            var j := FindLine(after, username, productId);
            j.Some? && quantity <= after[j.value].quantity <= catalog[productId].stockAvailable
  {
    var after := CartAfterAdd(cart, nextId, username, productId, quantity);
    match FindLine(cart, username, productId)
    case Some(i) =>
      assert cart[i] in cart;
      assert after[i].customerUsername == username && after[i].productId == productId;
      FindLineIsFirst(after, username, productId, i);
    case None =>
      var k := |cart|;
      assert after[k] == CartRow(nextId, username, productId, quantity);
      FindLineIsFirst(after, username, productId, k);
  }

  /** FindLine meets the only matching line when the earlier lines do not match. */
  lemma FindLineIsFirst(cart: seq<CartRow>, owner: string, productId: string, k: nat)
    requires k < |cart| && cart[k].customerUsername == owner && cart[k].productId == productId
    requires forall j :: 0 <= j < k ==> !(cart[j].customerUsername == owner && cart[j].productId == productId)
    ensures FindLine(cart, owner, productId) == Some(k)
  {
  }

  /** The cumulative check: with the line already in the cart, the add is accepted exactly when
      the new total is at most the stock; a total equal to the stock is accepted. */
  lemma AddCumulativeBoundary(cart: seq<CartRow>, catalog: map<string, Product>, username: string,
                              productId: string, quantity: int)
    requires productId != "" && quantity >= 1 && username != ""
    requires productId in catalog && quantity <= catalog[productId].stockAvailable
    requires FindLine(cart, username, productId).Some?
    ensures var i := FindLine(cart, username, productId).value;
            AddOutcomeOf(cart, catalog, username, productId, quantity).Added? <==>
            cart[i].quantity + quantity <= catalog[productId].stockAvailable
    ensures var i := FindLine(cart, username, productId).value;
            cart[i].quantity + quantity > catalog[productId].stockAvailable ==>
            AddOutcomeOf(cart, catalog, username, productId, quantity) == ExceedsStock(catalog[productId].stockAvailable)
  {
  }

  /** An accepted add raises the user's badge count by exactly the quantity added and leaves
      every other user's lines as they were. */
  lemma AddCountsExactly(cart: seq<CartRow>, nextId: int, catalog: map<string, Product>, username: string,
                         productId: string, quantity: int)
    requires AddOutcomeOf(cart, catalog, username, productId, quantity).Added?
    ensures CartCount(CartAfterAdd(cart, nextId, username, productId, quantity), username) == CartCount(cart, username) + quantity
    ensures forall o :: o != username ==>
              OwnerLines(CartAfterAdd(cart, nextId, username, productId, quantity), o) == OwnerLines(cart, o)
  {
    assert username != "";
    var after := CartAfterAdd(cart, nextId, username, productId, quantity);
    match FindLine(cart, username, productId)
    case Some(i) =>
      var row := cart[i].(quantity := cart[i].quantity + quantity);
      assert after == cart[i := row];
      MergeCounts(cart, i, row, username);
    case None =>
      var row := CartRow(nextId, username, productId, quantity);
      assert after == cart + [row];
      AppendCounts(cart, row);
  }

  lemma MergeCounts(cart: seq<CartRow>, i: nat, row: CartRow, username: string)
    requires i < |cart| && row.customerUsername == cart[i].customerUsername == username
    ensures SumQuantities(OwnerLines(cart[i := row], username)) ==
            SumQuantities(OwnerLines(cart, username)) - cart[i].quantity + row.quantity
    ensures forall o :: o != username ==> OwnerLines(cart[i := row], o) == OwnerLines(cart, o)
  {
    ReplaceLine(cart, i, row, username);
    forall o | o != username
      ensures OwnerLines(cart[i := row], o) == OwnerLines(cart, o)
    {
      ReplaceLine(cart, i, row, o);
    }
  }

  lemma AppendCounts(cart: seq<CartRow>, row: CartRow)
    ensures SumQuantities(OwnerLines(cart + [row], row.customerUsername)) ==
            SumQuantities(OwnerLines(cart, row.customerUsername)) + row.quantity
    ensures forall o :: o != row.customerUsername ==> OwnerLines(cart + [row], o) == OwnerLines(cart, o)
  {
    AppendLine(cart, row, row.customerUsername);
    SumQuantitiesConcat(OwnerLines(cart, row.customerUsername), [row]);
    assert SumQuantities([row]) == row.quantity;
    forall o | o != row.customerUsername
      ensures OwnerLines(cart + [row], o) == OwnerLines(cart, o)
    {
      AppendLine(cart, row, o);
    }
  }

  /** Changing a line's quantity to a valid one keeps the table invariant. */
  lemma SetQuantityKeepsInvariant(cart: seq<CartRow>, nextId: int, i: nat, q: int)
    requires CartInvariant(cart, nextId) && i < |cart| && q >= 1
    ensures CartInvariant(cart[i := cart[i].(quantity := q)], nextId)
  {
    var after := cart[i := cart[i].(quantity := q)];
    forall l | l in after ensures ValidRow(l) && 1 <= l.id < nextId {
      var k :| 0 <= k < |after| && after[k] == l;
      assert cart[k] in cart;
    }
  }

  /** Appending a line for a (user, product) pair that has none, with the next Id, keeps the
      table invariant with the Id counter advanced. */
  lemma AppendKeepsInvariant(cart: seq<CartRow>, nextId: int, row: CartRow)
    requires CartInvariant(cart, nextId) && ValidRow(row) && row.id == nextId
    requires FindLine(cart, row.customerUsername, row.productId).None?
    ensures CartInvariant(cart + [row], nextId + 1)
  {
    var after := cart + [row];
    forall i, j | 0 <= i < j < |after|
      ensures after[i].id != after[j].id
      ensures !(after[i].customerUsername == after[j].customerUsername && after[i].productId == after[j].productId)
    {
      if j == |cart| {
        assert after[i] == cart[i] && cart[i] in cart;
      } else {
        assert after[i] == cart[i] && after[j] == cart[j];
      }
    }
  }

  // ----- UpdateQuantity -----

  /** What UpdateQuantity answers: the quantity check first, then the user's line, then the stock
      check, which is made only when the product is still listed. */
  function UpdateOutcomeOf(cart: seq<CartRow>, catalog: map<string, Product>, username: string,
                           id: int, quantity: int): (r: UpdateOutcome)
    ensures r == QuantityTooSmall <==> quantity < 1
    ensures r == UpdateLineNotFound <==>
              quantity >= 1 && forall j :: 0 <= j < |cart| ==> !(cart[j].id == id && cart[j].customerUsername == username)
    ensures r.UpdateInsufficientStock? ==> r.available < quantity
    ensures r == Updated ==> quantity >= 1 && exists j :: 0 <= j < |cart| && cart[j].id == id && cart[j].customerUsername == username
  {
    if quantity < 1 then QuantityTooSmall
    else match FindOwnedLine(cart, id, username)
      case None => UpdateLineNotFound
      case Some(i) =>
        var productId := cart[i].productId;
        if productId in catalog && catalog[productId].stockAvailable < quantity
        then UpdateInsufficientStock(catalog[productId].stockAvailable)
        else Updated
  }

  /** An accepted update sets the user's own line to exactly the requested quantity, and no
      other user's lines change. */
  lemma UpdateSetsQuantity(cart: seq<CartRow>, catalog: map<string, Product>, username: string, id: int, quantity: int)
    requires UpdateOutcomeOf(cart, catalog, username, id, quantity) == Updated
    ensures var i := FindOwnedLine(cart, id, username).value;
            var after := cart[i := cart[i].(quantity := quantity)];
            after[i].id == id && after[i].customerUsername == username && after[i].quantity == quantity &&
            (cart[i].productId in catalog ==> quantity <= catalog[cart[i].productId].stockAvailable) &&
            forall o :: o != username ==> OwnerLines(after, o) == OwnerLines(cart, o)
  {
    var i := FindOwnedLine(cart, id, username).value;
    forall o | o != username
      ensures OwnerLines(cart[i := cart[i].(quantity := quantity)], o) == OwnerLines(cart, o)
    {
      ReplaceLine(cart, i, cart[i].(quantity := quantity), o);
    }
  }

  /** When the line's product is no longer listed, any quantity of at least 1 is accepted. */
  lemma UpdateUncheckedWhenProductMissing(cart: seq<CartRow>, catalog: map<string, Product>, username: string,
                                          id: int, quantity: int)
    requires quantity >= 1
    requires FindOwnedLine(cart, id, username).Some?
    requires cart[FindOwnedLine(cart, id, username).value].productId !in catalog
    ensures UpdateOutcomeOf(cart, catalog, username, id, quantity) == Updated
  {
  }

  // ----- RemoveItem and ClearCart -----

  /** Removing one of the user's lines drops exactly that line: the table shrinks by one, the
      user loses only that line, and nobody else's lines change. */
  lemma RemoveDropsOneLine(cart: seq<CartRow>, username: string, id: int)
    requires UniqueIds(cart) && FindOwnedLine(cart, id, username).Some?
    ensures |WithoutId(cart, id)| == |cart| - 1
    ensures OwnerLines(WithoutId(cart, id), username) == WithoutId(OwnerLines(cart, username), id)
    ensures forall o :: o != username ==> OwnerLines(WithoutId(cart, id), o) == OwnerLines(cart, o)
  {
    var i := FindOwnedLine(cart, id, username).value;
    WithoutPresentId(cart, i);
    WithoutIdLines(cart, id, username);
    forall o | o != username
      ensures OwnerLines(WithoutId(cart, id), o) == OwnerLines(cart, o)
    {
      WithoutIdLines(cart, id, o);
      forall l | l in OwnerLines(cart, o) ensures l.id != id {
        var k :| 0 <= k < |cart| && cart[k] == l;
        assert k != i;
      }
      WithoutAbsentId(OwnerLines(cart, o), id);
    }
  }

  /** Clearing a user's cart leaves that user no lines and every other user all of theirs. */
  lemma ClearTouchesOnlyOwner(cart: seq<CartRow>, username: string)
    ensures OwnerLines(WithoutOwner(cart, username), username) == []
    ensures forall o :: o != username ==> OwnerLines(WithoutOwner(cart, username), o) == OwnerLines(cart, o)
  {
    WithoutOwnerLines(cart, username, username);
    forall o | o != username
      ensures OwnerLines(WithoutOwner(cart, username), o) == OwnerLines(cart, o)
    {
      WithoutOwnerLines(cart, username, o);
    }
  }

  /** Removing rows keeps the table invariant. */
  lemma RemovalKeepsInvariant(cart: seq<CartRow>, nextId: int, id: int, owner: string)
    requires CartInvariant(cart, nextId)
    ensures CartInvariant(WithoutId(cart, id), nextId)
    ensures CartInvariant(WithoutOwner(cart, owner), nextId)
  {
    WithoutIdKeepsKeys(cart, id);
    WithoutOwnerKeepsKeys(cart, owner);
  }

  // ----- Confirmation -----

  /** The orders checkout builds from the user's lines, in line order: one per line whose
      product is still listed, priced from the product as it is now. */
  function CheckoutOrders(lines: seq<CartRow>, catalog: map<string, Product>, customer: Customer,
                          username: string, now: int): (r: seq<Order>)
    ensures |r| <= |lines|
  {
    if lines == [] then []
    else
      var prev := CheckoutOrders(lines[..|lines| - 1], catalog, customer, username, now);
      var l := lines[|lines| - 1];
      if l.productId in catalog
      then prev + [NewOrder(customer.rowKey, username, l.productId, catalog[l.productId], l.quantity, now)]
      else prev
  }

  /** The lines whose product is no longer listed, in line order. */
  function MissingLines(lines: seq<CartRow>, catalog: map<string, Product>): seq<CartRow>
  {
    if lines == [] then []
    else if lines[0].productId in catalog then MissingLines(lines[1..], catalog)
    else [lines[0]] + MissingLines(lines[1..], catalog)
  }

  lemma {:induction false} MissingLinesConcat(a: seq<CartRow>, b: seq<CartRow>, catalog: map<string, Product>)
    ensures MissingLines(a + b, catalog) == MissingLines(a, catalog) + MissingLines(b, catalog)
  {
    if a == [] {
      assert a + b == b;
    } else {
      var ab, tail := a + b, a[1..];
      assert ab[0] == a[0] && ab[1..] == tail + b;
      MissingLinesConcat(tail, b, catalog);
      var mt, mb := MissingLines(tail, catalog), MissingLines(b, catalog);
      if a[0].productId !in catalog {
        assert [a[0]] + (mt + mb) == ([a[0]] + mt) + mb;
      }
    }
  }

  /** One CreateOrder request per order, in order. */
  function OrderRequests(orders: seq<Order>): seq<ApiRequest>
  {
    if orders == [] then []
    else OrderRequests(orders[..|orders| - 1]) + [CreateOrder(orders[|orders| - 1])]
  }

  /** The orders whose CreateOrder request the API accepted, in order. */
  function Accepted(orders: seq<Order>, accepts: ApiRequest -> bool): seq<Order>
  {
    if orders == [] then []
    else
      var prev := Accepted(orders[..|orders| - 1], accepts);
      if accepts(CreateOrder(orders[|orders| - 1])) then prev + [orders[|orders| - 1]] else prev
  }

  /** Checkout of one more line extends the orders by that line's order, if its product is listed. */
  lemma CheckoutOrdersStep(lines: seq<CartRow>, k: nat, catalog: map<string, Product>, customer: Customer,
                           username: string, now: int)
    requires k < |lines|
    ensures CheckoutOrders(lines[..k + 1], catalog, customer, username, now) ==
              var prev := CheckoutOrders(lines[..k], catalog, customer, username, now);
              if lines[k].productId in catalog
              then prev + [NewOrder(customer.rowKey, username, lines[k].productId, catalog[lines[k].productId], lines[k].quantity, now)]
              else prev
  {
    assert lines[..k + 1][..k] == lines[..k];
  }

  /** One more order adds one request at the end, and is reported when the API accepts it. */
  lemma RequestsStep(orders: seq<Order>, o: Order, accepts: ApiRequest -> bool)
    ensures OrderRequests(orders + [o]) == OrderRequests(orders) + [CreateOrder(o)]
    ensures Accepted(orders + [o], accepts) ==
              if accepts(CreateOrder(o)) then Accepted(orders, accepts) + [o] else Accepted(orders, accepts)
  {
    assert (orders + [o])[..|orders|] == orders;
  }

  /** Every line either becomes an order or is skipped because its product is gone: with N lines
      of which one is missing, N - 1 orders are built. */
  lemma {:induction false} CheckoutCountsLines(lines: seq<CartRow>, catalog: map<string, Product>, customer: Customer,
                                               username: string, now: int)
    ensures |CheckoutOrders(lines, catalog, customer, username, now)| + |MissingLines(lines, catalog)| == |lines|
    ensures forall l :: l in MissingLines(lines, catalog) <==> l in lines && l.productId !in catalog
  {
    if lines != [] {
      var init := lines[..|lines| - 1];
      var last := lines[|lines| - 1];
      CheckoutCountsLines(init, catalog, customer, username, now);
      assert lines == init + [last];
      MissingLinesConcat(init, [last], catalog);
      assert [last][1..] == [];
    }
  }

  /** Every order checkout builds is a "Submitted" order of this user and customer for one of
      the lines, with the line's quantity, the product's current name and price, and a total of
      price times quantity. */
  lemma {:induction false} CheckoutOrderFields(lines: seq<CartRow>, catalog: map<string, Product>, customer: Customer,
                                               username: string, now: int)
    ensures forall o :: o in CheckoutOrders(lines, catalog, customer, username, now) ==>
              o.orderId == "" && o.status == SubmittedStatus && o.username == username && o.customerId == customer.rowKey &&
              o.orderDate == now && o.totalPrice == o.unitPrice * o.quantity as real &&
              exists l :: l in lines && OrderOfLine(o, l, catalog)
  {
    if lines != [] {
      var init, last := lines[..|lines| - 1], lines[|lines| - 1];
      CheckoutOrderFields(init, catalog, customer, username, now);
      var prev := CheckoutOrders(init, catalog, customer, username, now);
      assert lines == init + [last];
      assert CheckoutOrders(lines, catalog, customer, username, now) ==
             if last.productId in catalog
             then prev + [NewOrder(customer.rowKey, username, last.productId, catalog[last.productId], last.quantity, now)]
             else prev;
      forall o | o in CheckoutOrders(lines, catalog, customer, username, now)
        ensures exists l :: l in lines && OrderOfLine(o, l, catalog)
      {
        if o in prev {
          var l :| l in init && OrderOfLine(o, l, catalog);
          assert l in lines;
        } else {
          assert OrderOfLine(o, last, catalog);
          assert last in lines;
        }
      }
    }
  }

  /** Order o was built from line l: same product and quantity, and the product's current name
      and price. */
  predicate OrderOfLine(o: Order, l: CartRow, catalog: map<string, Product>)
  {
    l.productId in catalog && o.productId == l.productId && o.quantity == l.quantity &&
    o.unitPrice == catalog[l.productId].price && o.productName == catalog[l.productId].productName
  }

  /** The reported count never exceeds the orders built, and the accepted orders are among
      them. */
  lemma {:induction false} AcceptedBounded(orders: seq<Order>, accepts: ApiRequest -> bool)
    ensures |Accepted(orders, accepts)| <= |orders|
    ensures forall o :: o in Accepted(orders, accepts) ==> o in orders && accepts(CreateOrder(o))
  {
    if orders != [] {
      var init := orders[..|orders| - 1];
      AcceptedBounded(init, accepts);
      assert orders == init + [orders[|orders| - 1]];
    }
  }

  /** The ids of the orders, in order. */
  function OrderIds(orders: seq<Order>): (r: seq<string>)
    ensures |r| == |orders| && forall i :: 0 <= i < |orders| ==> r[i] == orders[i].orderId
  {
    seq(|orders|, i requires 0 <= i < |orders| => orders[i].orderId)
  }

  /** The TempData summary as written: every id cut to its first eight characters. `Substring`
      throws on a shorter id, and then there is no summary at all. */
  function SummaryAsWritten(ids: seq<string>): (r: Option<seq<string>>)
    ensures r.Some? <==> forall i :: 0 <= i < |ids| ==> |ids[i]| >= 8
    ensures r.Some? ==> |r.value| == |ids| && forall i :: 0 <= i < |ids| ==> |r.value[i]| == 8 && r.value[i] <= ids[i]
  {
    if ids == [] then Some([])
    else if |ids[0]| < 8 then None
    else match SummaryAsWritten(ids[1..]) {
      case None => None
      case Some(rest) => Some([ids[0][..8]] + rest)
    }
  }

  /** The evidently intended summary: at most the first eight characters of every id, a shorter
      id whole. It always exists. */
  function SummaryCorrected(ids: seq<string>): (r: seq<string>)
    ensures |r| == |ids|
    ensures forall i :: 0 <= i < |ids| ==> r[i] <= ids[i] && |r[i]| == if |ids[i]| < 8 then |ids[i]| else 8
  {
    if ids == [] then []
    else [if |ids[0]| < 8 then ids[0] else ids[0][..8]] + SummaryCorrected(ids[1..])
  }

  /** Wherever the written summary exists, the intended one is the same. */
  lemma {:induction false} SummaryCorrectedAgrees(ids: seq<string>)
    ensures SummaryAsWritten(ids).Some? ==> SummaryAsWritten(ids).value == SummaryCorrected(ids)
  {
    if ids != [] {
      SummaryCorrectedAgrees(ids[1..]);
    }
  }

  /** Confirmation's answer once the orders are sent and the cart is cleared, as written: the
      success view with the count and the summary, or, when the summary throws, the catch's
      "Failed to process checkout" answer. */
  function CheckoutAnswerAsWritten(placed: seq<Order>): (r: CheckoutOutcome)
    ensures r.CheckoutFailed? || r.OrdersPlaced?
    ensures r.CheckoutFailed? <==> exists i :: 0 <= i < |placed| && |placed[i].orderId| < 8
    ensures r.OrdersPlaced? ==> r.count == |placed| && |r.summary| == |placed|
  {
    var ids := OrderIds(placed);
    match SummaryAsWritten(ids) {
      case None =>
        assert exists i :: 0 <= i < |ids| && |ids[i]| < 8;
        CheckoutFailed
      case Some(summary) => OrdersPlaced(|placed|, summary)
    }
  }

  /** The evidently intended answer: the success view, counting every accepted order and
      summarising each one's id. */
  function CheckoutAnswerCorrected(placed: seq<Order>): (r: CheckoutOutcome)
    ensures r.OrdersPlaced? && r.count == |placed| && |r.summary| == |placed|
    ensures forall i :: 0 <= i < |placed| ==> r.summary[i] <= placed[i].orderId && (placed[i].orderId != "" ==> r.summary[i] != "")
  {
    OrdersPlaced(|placed|, SummaryCorrected(OrderIds(placed)))
  }

  /** The orders checkout builds carry no id, so as written Confirmation answers with the
      error exactly when the API accepted at least one of them, after the requests were sent and
      with the cart already cleared. */
  lemma CheckoutFailsOnceAccepted(lines: seq<CartRow>, catalog: map<string, Product>, customer: Customer,
                                  username: string, now: int, accepts: ApiRequest -> bool)
    ensures var placed := Accepted(CheckoutOrders(lines, catalog, customer, username, now), accepts);
            CheckoutAnswerAsWritten(placed) == CheckoutFailed <==> placed != []
  {
    var orders := CheckoutOrders(lines, catalog, customer, username, now);
    var placed := Accepted(orders, accepts);
    CheckoutOrderFields(lines, catalog, customer, username, now);
    AcceptedBounded(orders, accepts);
    if placed != [] {
      assert placed[0] in placed;
      assert |placed[0].orderId| < 8;
    }
  }

  /** Checking out one line of product P1 (price 10.00) with quantity 2 builds one "Submitted"
      order with a total of 20.00. */
  lemma SingleLineCheckout(customer: Customer, now: int)
    ensures var p1 := Product("P1", "Widget", "", 10.0, 5, "");
            var line := CartRow(1, "alice", "P1", 2);
            var orders := CheckoutOrders([line], map["P1" := p1], customer, "alice", now);
            |orders| == 1 && orders[0].totalPrice == 20.0 && orders[0].status == SubmittedStatus &&
            orders[0].quantity == 2 && orders[0].unitPrice == 10.0
  {
    var line := CartRow(1, "alice", "P1", 2);
    assert [line][..0] == [];
  }

  // ----- The cart page -----

  /** The page's items: one per line whose product is still listed, in line order. Every item
      comes from a line, and every line whose product is listed yields an item showing that
      product's name, image, price and stock. */
  function CartItems(lines: seq<CartRow>, catalog: map<string, Product>): (r: seq<CartItemViewModel>)
    ensures forall it :: it in r ==>
              it.productId in catalog && ShowsProduct(it, catalog[it.productId]) &&
              exists l :: l in lines && l.id == it.id && l.productId == it.productId && l.quantity == it.quantity
    ensures forall l :: l in lines && l.productId in catalog ==>
              exists it :: it in r && it.id == l.id && it.productId == l.productId && it.quantity == l.quantity &&
                           ShowsProduct(it, catalog[l.productId])
  {
    if lines == [] then []
    else
      var l := lines[0];
      var rest := CartItems(lines[1..], catalog);
      if l.productId in catalog then
        var p := catalog[l.productId];
        [CartItemViewModel(l.id, l.productId, p.productName, p.imageUrl, l.quantity, p.price, p.stockAvailable)] + rest
      else rest
  }

  /** Item it displays product p as it is now: its name, image, price and stock. */
  predicate ShowsProduct(it: CartItemViewModel, p: Product)
  {
    it.productName == p.productName && it.productImageUrl == p.imageUrl &&
    it.unitPrice == p.price && it.stockAvailable == p.stockAvailable
  }

  /** GetCartViewModelAsync for a user: the page shows exactly the user's lines whose product is
      still listed. */
  function CartView(cart: seq<CartRow>, catalog: map<string, Product>, username: string): (r: CartViewModel)
    ensures r.customerUsername == username
    ensures forall it :: it in r.cartItems ==>
              it.productId in catalog && ShowsProduct(it, catalog[it.productId]) &&
              exists l :: l in cart && l.customerUsername == username && l.id == it.id &&
                          l.productId == it.productId && l.quantity == it.quantity
    ensures forall l :: l in cart && l.customerUsername == username && l.productId in catalog ==>
              exists it :: it in r.cartItems && it.id == l.id && it.productId == l.productId &&
                           it.quantity == l.quantity && ShowsProduct(it, catalog[l.productId])
  {
    CartViewModel(username, CartItems(OwnerLines(cart, username), catalog))
  }

  /** The page's item count agrees with the badge: it is the badge count less the quantities of
      lines whose product is gone, and equal to it when every product is still listed. */
  lemma {:induction false} CartItemsTotals(lines: seq<CartRow>, catalog: map<string, Product>)
    ensures |CartItems(lines, catalog)| <= |lines|
    ensures TotalItems(CartItems(lines, catalog)) == SumQuantities(lines) - SumQuantities(MissingLines(lines, catalog))
    ensures (forall l :: l in lines ==> l.productId in catalog) ==>
              TotalItems(CartItems(lines, catalog)) == SumQuantities(lines)
  {
    if lines != [] {
      assert forall l :: l in lines[1..] ==> l in lines;
      CartItemsTotals(lines[1..], catalog);
      if lines[0].productId in catalog {
        var p := catalog[lines[0].productId];
        var item := CartItemViewModel(lines[0].id, lines[0].productId, p.productName, p.imageUrl,
                                      lines[0].quantity, p.price, p.stockAvailable);
        assert ([item] + CartItems(lines[1..], catalog))[1..] == CartItems(lines[1..], catalog);
      } else {
        assert lines[0] in lines;
      }
    }
  }

  /** The page shows the user's badge count when every product in the cart is still listed. */
  lemma CartViewMatchesBadge(cart: seq<CartRow>, catalog: map<string, Product>, username: string)
    requires username != ""
    requires forall l :: l in cart && l.customerUsername == username ==> l.productId in catalog
    ensures TotalItems(CartView(cart, catalog, username).cartItems) == CartCount(cart, username)
  {
    CartItemsTotals(OwnerLines(cart, username), catalog);
  }

  // ----- The controller -----

  class CartController {
    const db: AuthDbContext
    const api: FunctionsApiClient

    constructor (db: AuthDbContext, api: FunctionsApiClient)
      ensures this.db == db && this.api == api
    {
      this.db := db;
      this.api := api;
    }

    /** POST AddToCart. */
    method AddToCart(username: string, productId: string, quantity: int) returns (outcome: AddOutcome)
      requires db.Valid() && CartInvariant(db.cart, db.nextCartId)
      modifies db
      ensures db.Valid() && CartInvariant(db.cart, db.nextCartId) && db.users == old(db.users)
      ensures outcome == AddOutcomeOf(old(db.cart), api.catalog, username, productId, quantity)
      ensures outcome.Added? ==> db.cart == CartAfterAdd(old(db.cart), old(db.nextCartId), username, productId, quantity)
      ensures !outcome.Added? ==> db.cart == old(db.cart)
    {
      if productId == "" || quantity < 1 {
        return InvalidProductOrQuantity;
      }
      if username == "" {
        return AddLoginRequired;
      }
      var product := api.GetProductById(productId);
      if product.None? {
        return ProductNotFound;
      }
      var p := product.value;
      if p.stockAvailable < quantity {
        return InsufficientStock(p.stockAvailable);
      }
      var existing := FindLine(db.cart, username, productId);
      match existing {
        case Some(i) =>
          var merged := MergedQuantity(db.cart[i].quantity, quantity, p.stockAvailable);
          if merged.None? {
            return ExceedsStock(p.stockAvailable);
          }
          assert db.cart[i] in db.cart;
          SetQuantityKeepsInvariant(db.cart, db.nextCartId, i, merged.value);
          db.SetCartQuantity(i, merged.value);
        case None =>
          ghost var before := db.cart;
          var row := db.AddCartLine(username, productId, quantity);
          if row.None? {
            return AddFailed;
          }
          AppendKeepsInvariant(before, row.value.id, row.value);
      }
      outcome := Added(p.productName);
    }

    /** POST UpdateQuantity. */
    method UpdateQuantity(username: string, id: int, quantity: int) returns (outcome: UpdateOutcome)
      requires db.Valid() && CartInvariant(db.cart, db.nextCartId)
      modifies db
      ensures db.Valid() && CartInvariant(db.cart, db.nextCartId) && db.users == old(db.users)
      ensures outcome == UpdateOutcomeOf(old(db.cart), api.catalog, username, id, quantity)
      ensures outcome == Updated ==>
                var i := FindOwnedLine(old(db.cart), id, username).value;
                db.cart == old(db.cart)[i := old(db.cart)[i].(quantity := quantity)]
      ensures outcome != Updated ==> db.cart == old(db.cart)
    {
      if quantity < 1 {
        return QuantityTooSmall;
      }
      var found := FindOwnedLine(db.cart, id, username);
      if found.None? {
        return UpdateLineNotFound;
      }
      var i := found.value;
      var product := api.GetProductById(db.cart[i].productId);
      if product.Some? && product.value.stockAvailable < quantity {
        return UpdateInsufficientStock(product.value.stockAvailable);
      }
      SetQuantityKeepsInvariant(db.cart, db.nextCartId, i, quantity);
      db.SetCartQuantity(i, quantity);
      outcome := Updated;
    }

    /** POST RemoveItem. */
    method RemoveItem(username: string, id: int) returns (outcome: RemoveOutcome)
      requires db.Valid() && CartInvariant(db.cart, db.nextCartId)
      modifies db
      ensures db.Valid() && CartInvariant(db.cart, db.nextCartId) && db.users == old(db.users)
      ensures FindOwnedLine(old(db.cart), id, username).None? ==> outcome == RemoveLineNotFound && db.cart == old(db.cart)
      ensures FindOwnedLine(old(db.cart), id, username).Some? ==> outcome == Removed && db.cart == WithoutId(old(db.cart), id)
    {
      var found := FindOwnedLine(db.cart, id, username);
      if found.None? {
        return RemoveLineNotFound;
      }
      RemovalKeepsInvariant(db.cart, db.nextCartId, id, username);
      db.RemoveCartLine(id);
      outcome := Removed;
    }

    /** POST ClearCart: removes the user's lines when there are any. */
    method ClearCart(username: string) returns (outcome: ClearOutcome)
      requires db.Valid() && CartInvariant(db.cart, db.nextCartId)
      modifies db
      ensures db.Valid() && CartInvariant(db.cart, db.nextCartId) && db.users == old(db.users)
      ensures OwnerLines(old(db.cart), username) == [] ==> outcome == NothingToClear && db.cart == old(db.cart)
      ensures OwnerLines(old(db.cart), username) != [] ==> outcome == Cleared && db.cart == WithoutOwner(old(db.cart), username)
    {
      var lines := OwnerLines(db.cart, username);
      if lines == [] {
        return NothingToClear;
      }
      RemovalKeepsInvariant(db.cart, db.nextCartId, 0, username);
      db.RemoveOwnerLines(username);
      outcome := Cleared;
    }

    /** One turn of the checkout loop: line k becomes an order and a CreateOrder request when
        its product is listed, and the order is reported when the API accepts it. */
    method PlaceLine(lines: seq<CartRow>, k: nat, customer: Customer, username: string, now: int,
                     ghost start: seq<ApiRequest>, ghost built: seq<Order>, placed: seq<Order>)
      returns (ghost built': seq<Order>, placed': seq<Order>)
      requires k < |lines|
      requires built == CheckoutOrders(lines[..k], api.catalog, customer, username, now)
      requires api.requests == start + OrderRequests(built)
      requires placed == Accepted(built, api.accepts)
      modifies api
      ensures api.catalog == old(api.catalog) && api.customers == old(api.customers) && api.orders == old(api.orders)
      ensures built' == CheckoutOrders(lines[..k + 1], api.catalog, customer, username, now)
      ensures api.requests == start + OrderRequests(built')
      ensures placed' == Accepted(built', api.accepts)
    {
      var item := lines[k];
      CheckoutOrdersStep(lines, k, api.catalog, customer, username, now);
      built', placed' := built, placed;
      var product := api.GetProductById(item.productId);
      if product.Some? {
        var order := NewOrder(customer.rowKey, username, item.productId, product.value, item.quantity, now);
        RequestsStep(built, order, api.accepts);
        var ok := api.Send(CreateOrder(order));
        if ok {
          placed' := placed + [order];
        }
        built' := built + [order];
      }
    }

    /** The checkout loop: one CreateOrder per line whose product is listed, in line order; the
        orders the API accepted are reported. */
    method PlaceOrders(lines: seq<CartRow>, customer: Customer, username: string, now: int) returns (placed: seq<Order>)
      modifies api
      ensures api.catalog == old(api.catalog) && api.customers == old(api.customers) && api.orders == old(api.orders)
      ensures api.requests == old(api.requests) + OrderRequests(CheckoutOrders(lines, api.catalog, customer, username, now))
      ensures placed == Accepted(CheckoutOrders(lines, api.catalog, customer, username, now), api.accepts)
    {
      placed := [];
      var k := 0;
      ghost var start := api.requests;
      ghost var built: seq<Order> := [];
      while k < |lines|
        invariant 0 <= k <= |lines|
        invariant api.catalog == old(api.catalog) && api.customers == old(api.customers) && api.orders == old(api.orders)
        invariant built == CheckoutOrders(lines[..k], api.catalog, customer, username, now)
        invariant api.requests == start + OrderRequests(built)
        invariant placed == Accepted(built, api.accepts)
      {
        built, placed := PlaceLine(lines, k, customer, username, now, start, built, placed);
        k := k + 1;
      }
      assert lines[..k] == lines;
    }

    /** POST Confirmation: checkout of the user's whole cart. */
    method Confirmation(username: string, now: int) returns (outcome: CheckoutOutcome, placed: seq<Order>)
      requires db.Valid() && CartInvariant(db.cart, db.nextCartId)
      modifies db, api
      ensures db.Valid() && CartInvariant(db.cart, db.nextCartId) && db.users == old(db.users)
      ensures api.catalog == old(api.catalog) && api.customers == old(api.customers) && api.orders == old(api.orders)
      ensures username == "" ==>
                outcome == CheckoutLoginRequired && db.cart == old(db.cart) && api.requests == old(api.requests)
      ensures username != "" && FindByUsername(api.customers, username).None? ==>
                outcome == ProfileNotFound && db.cart == old(db.cart) && api.requests == old(api.requests)
      ensures username != "" && FindByUsername(api.customers, username).Some? && OwnerLines(old(db.cart), username) == [] ==>
                outcome == CartEmpty && db.cart == old(db.cart) && api.requests == old(api.requests)
      ensures username != "" && FindByUsername(api.customers, username).Some? && OwnerLines(old(db.cart), username) != [] ==>
                var orders := CheckoutOrders(OwnerLines(old(db.cart), username), api.catalog,
                                             FindByUsername(api.customers, username).value, username, now);
                api.requests == old(api.requests) + OrderRequests(orders) &&
                placed == Accepted(orders, api.accepts) && db.cart == WithoutOwner(old(db.cart), username) &&
                outcome == CheckoutAnswerAsWritten(placed) && (outcome == CheckoutFailed <==> placed != [])
    {
      placed := [];
      if username == "" {
        return CheckoutLoginRequired, placed;
      }
      var customers := api.GetCustomers();
      var customer := FindByUsername(customers, username);
      if customer.None? {
        return ProfileNotFound, placed;
      }
      var lines := OwnerLines(db.cart, username);
      if lines == [] {
        return CartEmpty, placed;
      }
      placed := PlaceOrders(lines, customer.value, username, now);
      CheckoutFailsOnceAccepted(lines, api.catalog, customer.value, username, now, api.accepts);
      RemovalKeepsInvariant(db.cart, db.nextCartId, 0, username);
      db.RemoveOwnerLines(username);
      outcome := CheckoutAnswerAsWritten(placed);
    }
  }
}
