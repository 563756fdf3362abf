/** The queries the cart controller runs over the Cart table, as functions over the rows in
    table order, and the facts about them that the cart operations rely on. */
module CartLines {
  import opened Wrappers
  import opened CartModel

  /** `Cart.Where(c => c.CustomerUsername == owner)`. */
  function OwnerLines(cart: seq<CartRow>, owner: string): (r: seq<CartRow>)
    ensures |r| <= |cart|
    ensures forall l :: l in r <==> l in cart && l.customerUsername == owner
  {
    if cart == [] then []
    else
      assert cart == [cart[0]] + cart[1..];
      if cart[0].customerUsername == owner then [cart[0]] + OwnerLines(cart[1..], owner)
      else OwnerLines(cart[1..], owner)
  }

  /** The table after `RemoveRange` of every line of `owner`. */
  function WithoutOwner(cart: seq<CartRow>, owner: string): (r: seq<CartRow>)
    ensures |r| + |OwnerLines(cart, owner)| == |cart|
    ensures forall l :: l in r <==> l in cart && l.customerUsername != owner
  {
    if cart == [] then []
    else
      assert cart == [cart[0]] + cart[1..];
      if cart[0].customerUsername == owner then WithoutOwner(cart[1..], owner)
      else [cart[0]] + WithoutOwner(cart[1..], owner)
  }

  /** The table after `Remove` of the line whose Id is `id`. */
  function WithoutId(cart: seq<CartRow>, id: int): (r: seq<CartRow>)
    ensures |r| <= |cart|
    ensures forall l :: l in r <==> l in cart && l.id != id
  {
    if cart == [] then []
    else
      assert cart == [cart[0]] + cart[1..];
      if cart[0].id == id then WithoutId(cart[1..], id)
      else [cart[0]] + WithoutId(cart[1..], id)
  }

  /** `FirstOrDefault(c => c.CustomerUsername == owner && c.ProductId == productId)`: the index of
      the first such line. */
  function FindLine(cart: seq<CartRow>, owner: string, productId: string): (r: Option<nat>)
    ensures r.Some? ==> r.value < |cart| && cart[r.value].customerUsername == owner && cart[r.value].productId == productId
    ensures r.Some? ==> forall j :: 0 <= j < r.value ==> !(cart[j].customerUsername == owner && cart[j].productId == productId)
    ensures r.None? ==> forall j :: 0 <= j < |cart| ==> !(cart[j].customerUsername == owner && cart[j].productId == productId)
  {
    if cart == [] then None
    else if cart[0].customerUsername == owner && cart[0].productId == productId then Some(0)
    else match FindLine(cart[1..], owner, productId)
      case None => None
      case Some(j) => Some(j + 1)
  }

  /** `FirstOrDefault(c => c.Id == id && c.CustomerUsername == owner)`: the index of the first
      such line. */
  function FindOwnedLine(cart: seq<CartRow>, id: int, owner: string): (r: Option<nat>)
    ensures r.Some? ==> r.value < |cart| && cart[r.value].id == id && cart[r.value].customerUsername == owner
    ensures r.None? ==> forall j :: 0 <= j < |cart| ==> !(cart[j].id == id && cart[j].customerUsername == owner)
  {
    if cart == [] then None
    else if cart[0].id == id && cart[0].customerUsername == owner then Some(0)
    else match FindOwnedLine(cart[1..], id, owner)
      case None => None
      case Some(j) => Some(j + 1)
  }

  /** `SumAsync(c => c.Quantity)` over some lines. */
  function SumQuantities(lines: seq<CartRow>): int
  {
    if lines == [] then 0 else lines[0].quantity + SumQuantities(lines[1..])
  }

  /** GetCartCount: 0 without a signed-in user, otherwise the sum of the user's quantities.
      With valid rows it is at least the number of the user's lines, and so is positive exactly
      when the user has a line. */
  function CartCount(cart: seq<CartRow>, username: string): (r: int)
    ensures username == "" ==> r == 0
    ensures ValidRows(cart) && username != "" ==>
              r >= |OwnerLines(cart, username)| && (r > 0 <==> OwnerLines(cart, username) != [])
  {
    if username == "" then 0
    else
      var lines := OwnerLines(cart, username);
      SumAtLeastCount(lines);
      SumQuantities(lines)
  }

  /** Every row meets the declared constraints. */
  predicate ValidRows(cart: seq<CartRow>)
  {
    forall l :: l in cart ==> ValidRow(l)
  }

  /** Id is a primary key. */
  predicate UniqueIds(cart: seq<CartRow>)
  {
    forall i, j :: 0 <= i < j < |cart| ==> cart[i].id != cart[j].id
  }

  /** At most one line per (owner, product): the table shape AddToCart maintains. */
  predicate OneLinePerProduct(cart: seq<CartRow>)
  {
    forall i, j :: 0 <= i < j < |cart| ==>
      !(cart[i].customerUsername == cart[j].customerUsername && cart[i].productId == cart[j].productId)
  }

  // ----- Sums -----

  lemma {:induction false} SumQuantitiesConcat(a: seq<CartRow>, b: seq<CartRow>)
    ensures SumQuantities(a + b) == SumQuantities(a) + SumQuantities(b)
  {
    if a == [] {
      assert a + b == b;
    } else {
      assert (a + b)[1..] == a[1..] + b;
      SumQuantitiesConcat(a[1..], b);
    }
  }

  /** With every quantity at least 1 the sum is at least the number of lines. */
  lemma {:induction false} SumAtLeastCount(lines: seq<CartRow>)
    ensures (forall l :: l in lines ==> l.quantity >= 1) ==> SumQuantities(lines) >= |lines|
  {
    if lines != [] && forall l :: l in lines ==> l.quantity >= 1 {
      assert lines[0] in lines;
      assert forall l :: l in lines[1..] ==> l in lines;
      SumAtLeastCount(lines[1..]);
    }
  }

  // ----- How the owner filter meets the table changes -----

  lemma {:induction false} OwnerLinesConcat(a: seq<CartRow>, b: seq<CartRow>, owner: string)
    ensures OwnerLines(a + b, owner) == OwnerLines(a, owner) + OwnerLines(b, owner)
  {
    if a == [] {
      assert a + b == b;
    } else {
      assert (a + b)[1..] == a[1..] + b;
      OwnerLinesConcat(a[1..], b, owner);
    }
  }

  /** Replacing line i leaves every other owner's lines as they were, and changes the sum of
      the owner's quantities by the difference of the two quantities. */
  lemma ReplaceLine(cart: seq<CartRow>, i: nat, row: CartRow, owner: string)
    requires i < |cart| && row.customerUsername == cart[i].customerUsername
    ensures owner != row.customerUsername ==> OwnerLines(cart[i := row], owner) == OwnerLines(cart, owner)
    ensures owner == row.customerUsername ==>
              SumQuantities(OwnerLines(cart[i := row], owner)) ==
              SumQuantities(OwnerLines(cart, owner)) - cart[i].quantity + row.quantity
  {
    var pre, post := cart[..i], cart[i + 1..];
    assert cart == pre + [cart[i]] + post;
    assert cart[i := row] == pre + [row] + post;
    OwnerLinesConcat(pre + [cart[i]], post, owner);
    OwnerLinesConcat(pre, [cart[i]], owner);
    OwnerLinesConcat(pre + [row], post, owner);
    OwnerLinesConcat(pre, [row], owner);
    if owner == row.customerUsername {
      assert OwnerLines([row], owner) == [row];
      assert OwnerLines([cart[i]], owner) == [cart[i]];
      var a, b := OwnerLines(pre, owner), OwnerLines(post, owner);
      SumQuantitiesConcat(a + [row], b);
      SumQuantitiesConcat(a, [row]);
      SumQuantitiesConcat(a + [cart[i]], b);
      SumQuantitiesConcat(a, [cart[i]]);
    } else {
      assert OwnerLines([row], owner) == [];
      assert OwnerLines([cart[i]], owner) == [];
    }
  }

  /** Appending a line adds it to its owner's lines only. */
  lemma AppendLine(cart: seq<CartRow>, row: CartRow, owner: string)
    ensures OwnerLines(cart + [row], owner) ==
            OwnerLines(cart, owner) + (if row.customerUsername == owner then [row] else [])
  {
    OwnerLinesConcat(cart, [row], owner);
    assert OwnerLines([row], owner) == if row.customerUsername == owner then [row] else [];
  }

  /** Removing one owner's lines leaves that owner nothing and every other owner everything. */
  lemma {:induction false} WithoutOwnerLines(cart: seq<CartRow>, removed: string, owner: string)
    ensures OwnerLines(WithoutOwner(cart, removed), owner) == if owner == removed then [] else OwnerLines(cart, owner)
  {
    if cart != [] {
      WithoutOwnerLines(cart[1..], removed, owner);
    }
  }

  /** Removing by Id commutes with the owner filter. */
  lemma {:induction false} WithoutIdLines(cart: seq<CartRow>, id: int, owner: string)
    ensures OwnerLines(WithoutId(cart, id), owner) == WithoutId(OwnerLines(cart, owner), id)
  {
    if cart != [] {
      WithoutIdLines(cart[1..], id, owner);
    }
  }

  /** Removing an Id that no line carries changes nothing. */
  lemma {:induction false} WithoutAbsentId(cart: seq<CartRow>, id: int)
    requires forall l :: l in cart ==> l.id != id
    ensures WithoutId(cart, id) == cart
  {
    if cart != [] {
      assert cart[0] in cart;
      assert forall l :: l in cart[1..] ==> l in cart;
      WithoutAbsentId(cart[1..], id);
      assert cart == [cart[0]] + cart[1..];
    }
  }

  /** With Id a key, removing the Id of line i removes exactly that line. */
  lemma WithoutPresentId(cart: seq<CartRow>, i: nat)
    requires UniqueIds(cart) && i < |cart|
    ensures WithoutId(cart, cart[i].id) == cart[..i] + cart[i + 1..]
  {
    var pre, x, post := cart[..i], cart[i], cart[i + 1..];
    OtherIds(cart, i);
    assert cart == pre + [x] + post;
    WithoutSingleId(pre, x, post);
  }

  /** A line whose Id no line before or after it carries is the only one removed by that Id. */
  lemma WithoutSingleId(pre: seq<CartRow>, x: CartRow, post: seq<CartRow>)
    requires forall l :: l in pre ==> l.id != x.id
    requires forall l :: l in post ==> l.id != x.id
    ensures WithoutId(pre + [x] + post, x.id) == pre + post
  {
    var id := x.id;
    assert [x][1..] == [];
    assert WithoutId([x], id) == [];
    WithoutIdConcat(pre, [x], id);
    WithoutAbsentId(pre, id);
    assert WithoutId(pre + [x], id) == pre;
    WithoutIdConcat(pre + [x], post, id);
    WithoutAbsentId(post, id);
  }

  /** The lines before and after line i carry other Ids. */
  lemma OtherIds(cart: seq<CartRow>, i: nat)
    requires UniqueIds(cart) && i < |cart|
    ensures forall l :: l in cart[..i] ==> l.id != cart[i].id
    ensures forall l :: l in cart[i + 1..] ==> l.id != cart[i].id
  {
    forall l | l in cart[..i] ensures l.id != cart[i].id {
      var k :| 0 <= k < i && cart[..i][k] == l;
      assert cart[k] == l;
    }
    forall l | l in cart[i + 1..] ensures l.id != cart[i].id {
      var k :| 0 <= k < |cart| - i - 1 && cart[i + 1..][k] == l;
      assert cart[i + 1 + k] == l;
    }
  }

  lemma {:induction false} WithoutIdConcat(a: seq<CartRow>, b: seq<CartRow>, id: int)
    ensures WithoutId(a + b, id) == WithoutId(a, id) + WithoutId(b, id)
  {
    if a == [] {
      assert a + b == b;
    } else {
      assert (a + b)[1..] == a[1..] + b;
      WithoutIdConcat(a[1..], b, id);
    }
  }

  // ----- The table invariants under the changes -----

  /** Dropping the first row keeps both key properties. */
  lemma TailKeepsKeys(cart: seq<CartRow>)
    requires cart != []
    ensures UniqueIds(cart) ==> UniqueIds(cart[1..])
    ensures OneLinePerProduct(cart) ==> OneLinePerProduct(cart[1..])
  {
    forall i, j | 0 <= i < j < |cart[1..]|
      ensures cart[1..][i] == cart[i + 1] && cart[1..][j] == cart[j + 1]
    {
    }
  }

  /** A sub-sequence of the rows keeps each key property on its own: removing rows cannot
      create a duplicate Id, nor a second line for a product. */
  lemma {:induction false} WithoutOwnerKeepsKeys(cart: seq<CartRow>, owner: string)
    ensures UniqueIds(cart) ==> UniqueIds(WithoutOwner(cart, owner))
    ensures OneLinePerProduct(cart) ==> OneLinePerProduct(WithoutOwner(cart, owner))
  {
    if cart != [] {
      TailKeepsKeys(cart);
      WithoutOwnerKeepsKeys(cart[1..], owner);
      if cart[0].customerUsername != owner {
        var rest := WithoutOwner(cart[1..], owner);
        if UniqueIds(cart) {
          HeadDistinctIds(cart[0], rest, cart);
        }
        if OneLinePerProduct(cart) {
          HeadDistinctProducts(cart[0], rest, cart);
        }
      }
    }
  }

  lemma {:induction false} WithoutIdKeepsKeys(cart: seq<CartRow>, id: int)
    ensures UniqueIds(cart) ==> UniqueIds(WithoutId(cart, id))
    ensures OneLinePerProduct(cart) ==> OneLinePerProduct(WithoutId(cart, id))
  {
    if cart != [] {
      TailKeepsKeys(cart);
      WithoutIdKeepsKeys(cart[1..], id);
      if cart[0].id != id {
        var rest := WithoutId(cart[1..], id);
        if UniqueIds(cart) {
          HeadDistinctIds(cart[0], rest, cart);
        }
        if OneLinePerProduct(cart) {
          HeadDistinctProducts(cart[0], rest, cart);
        }
      }
    }
  }

  /** Putting the head of a table with distinct Ids back in front of rows taken from its tail
      keeps the Ids distinct. */
  lemma HeadDistinctIds(head: CartRow, rest: seq<CartRow>, cart: seq<CartRow>)
    requires cart != [] && cart[0] == head
    requires UniqueIds(cart) && UniqueIds(rest)
    requires forall l :: l in rest ==> l in cart[1..]
    ensures UniqueIds([head] + rest)
  {
    var s := [head] + rest;
    forall j | 0 < j < |s|
      ensures s[0].id != s[j].id
    {
      assert s[j] == rest[j - 1] && s[j] in cart[1..];
      var k :| 0 <= k < |cart[1..]| && cart[1..][k] == s[j];
      assert cart[k + 1] == s[j];
    }
    forall i, j | 0 < i < j < |s|
      ensures s[i].id != s[j].id
    {
      assert s[i] == rest[i - 1] && s[j] == rest[j - 1];
    }
  }

  /** The same for one line per (owner, product). */
  lemma HeadDistinctProducts(head: CartRow, rest: seq<CartRow>, cart: seq<CartRow>)
    requires cart != [] && cart[0] == head
    requires OneLinePerProduct(cart) && OneLinePerProduct(rest)
    requires forall l :: l in rest ==> l in cart[1..]
    ensures OneLinePerProduct([head] + rest)
  {
    var s := [head] + rest;
    forall j | 0 < j < |s|
      ensures !(s[0].customerUsername == s[j].customerUsername && s[0].productId == s[j].productId)
    {
      assert s[j] == rest[j - 1] && s[j] in cart[1..];
      var k :| 0 <= k < |cart[1..]| && cart[1..][k] == s[j];
      assert cart[k + 1] == s[j];
    }
    forall i, j | 0 < i < j < |s|
      ensures !(s[i].customerUsername == s[j].customerUsername && s[i].productId == s[j].productId)
    {
      assert s[i] == rest[i - 1] && s[j] == rest[j - 1];
    }
  }
}
