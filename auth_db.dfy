/** The storefront's relational database: the Users and Cart tables. Each method is one change
    followed by SaveChanges; a save the database refuses (a value longer than its column, a
    duplicate username under the unique index) changes nothing and reports failure. */
module AuthDb {
  import opened Wrappers
  import opened UserModel
  import opened CartModel
  import opened CartLines

  /** The unique index on Username. */
  predicate UniqueUsernames(users: seq<User>)
  {
    forall i, j :: 0 <= i < j < |users| ==> users[i].username != users[j].username
  }

  predicate UniqueUserIds(users: seq<User>)
  {
    forall i, j :: 0 <= i < j < |users| ==> users[i].id != users[j].id
  }

  /** Users table: keys unique, identity values below the next one, every row within its
      columns and holding one of the two roles. */
  predicate UsersInvariant(users: seq<User>, nextUserId: int)
  {
    UniqueUsernames(users) && UniqueUserIds(users) && 1 <= nextUserId &&
    forall u :: u in users ==> u.FitsColumns() && (u.IsAdmin() || u.IsCustomer()) && 1 <= u.id < nextUserId
  }

  /** Cart table as the database keeps it: Id a key below the next identity value, and both
      keys within their columns. */
  predicate StoredCart(cart: seq<CartRow>, nextCartId: int)
  {
    UniqueIds(cart) && 1 <= nextCartId &&
    forall l :: l in cart ==>
      1 <= l.id < nextCartId && |l.customerUsername| <= MaxKeyLength && |l.productId| <= MaxKeyLength
  }

  /** Cart table as the cart controller keeps it: besides what the database enforces, every
      row meets the declared constraints and there is one line per (owner, product). The only
      index on the table, on CustomerUsername, is not unique, so only the controller keeps the
      latter. */
  predicate CartInvariant(cart: seq<CartRow>, nextCartId: int)
  {
    StoredCart(cart, nextCartId) && ValidRows(cart) && OneLinePerProduct(cart)
  }

  /** The two ways the controllers look a user up: by primary key (`Users.FindAsync(id)`) and
      by name (`Users.FirstOrDefault(u => u.Username == username)`). */
  datatype UserKey = ById(id: int) | ByUsername(username: string)

  predicate HasKey(u: User, key: UserKey)
  {
    match key
    case ById(id) => u.id == id
    case ByUsername(username) => u.username == username
  }

  /** The index of the first user with that key, or none when no user has it. */
  function FindUser(users: seq<User>, key: UserKey): (r: Option<nat>)
    ensures r.Some? ==> r.value < |users| && HasKey(users[r.value], key)
    ensures r.Some? ==> forall k :: 0 <= k < r.value ==> !HasKey(users[k], key)
    ensures r.None? ==> forall u :: u in users ==> !HasKey(u, key)
  {
    if users == [] then None
    else if HasKey(users[0], key) then Some(0)
    else match FindUser(users[1..], key)
      case None => None
      case Some(j) => Some(j + 1)
  }

  class AuthDbContext {
    var users: seq<User>
    var cart: seq<CartRow>
    var nextUserId: int
    var nextCartId: int

    ghost predicate Valid()
      reads this
    {
      UsersInvariant(users, nextUserId) && StoredCart(cart, nextCartId)
    }

    constructor ()
      ensures Valid() && users == [] && cart == []
    {
      users := [];
      cart := [];
      nextUserId := 1;
      nextCartId := 1;
    }

    /** `Cart.Add` of a new line and SaveChanges: the database assigns the next Id; a key
        longer than its column is refused. */
    method AddCartLine(owner: string, productId: string, quantity: int) returns (row: Option<CartRow>)
      requires Valid()
      modifies this
      ensures Valid()
      ensures users == old(users) && nextUserId == old(nextUserId)
      ensures |owner| <= MaxKeyLength && |productId| <= MaxKeyLength ==>
                row == Some(CartRow(old(nextCartId), owner, productId, quantity)) &&
                cart == old(cart) + [row.value] && nextCartId == old(nextCartId) + 1
      ensures !(|owner| <= MaxKeyLength && |productId| <= MaxKeyLength) ==>
                row == None && cart == old(cart) && nextCartId == old(nextCartId)
    {
      if |owner| <= MaxKeyLength && |productId| <= MaxKeyLength {
        row := Some(CartRow(nextCartId, owner, productId, quantity));
        cart := cart + [row.value];
        nextCartId := nextCartId + 1;
      } else {
        row := None;
      }
    }

    /** `Cart.Update` of line i with a new quantity and SaveChanges. */
    method SetCartQuantity(i: nat, quantity: int)
      requires Valid() && i < |cart|
      modifies this
      ensures Valid()
      ensures cart == old(cart)[i := old(cart)[i].(quantity := quantity)]
      ensures users == old(users) && nextUserId == old(nextUserId) && nextCartId == old(nextCartId)
    {
      cart := cart[i := cart[i].(quantity := quantity)];
    }

    /** `Cart.Remove` of the line with that Id and SaveChanges. */
    method RemoveCartLine(id: int)
      requires Valid()
      modifies this
      ensures Valid()
      ensures cart == WithoutId(old(cart), id)
      ensures users == old(users) && nextUserId == old(nextUserId) && nextCartId == old(nextCartId)
    {
      WithoutIdKeepsKeys(cart, id);
      cart := WithoutId(cart, id);
    }

    /** `Cart.RemoveRange` of all of one owner's lines and SaveChanges. */
    method RemoveOwnerLines(owner: string)
      requires Valid()
      modifies this
      ensures Valid()
      ensures cart == WithoutOwner(old(cart), owner)
      ensures users == old(users) && nextUserId == old(nextUserId) && nextCartId == old(nextCartId)
    {
      WithoutOwnerKeepsKeys(cart, owner);
      cart := WithoutOwner(cart, owner);
    }

    /** `Users.Add` and SaveChanges: the database assigns the next Id, and refuses a row that
        does not fit its columns or repeats a username. */
    method AddUser(username: string, passwordHash: string, role: string) returns (added: Option<User>)
      requires Valid() && (role == AdminRole || role == CustomerRole)
      modifies this
      ensures Valid()
      ensures cart == old(cart) && nextCartId == old(nextCartId)
      ensures var u := User(old(nextUserId), username, passwordHash, role);
              if u.FitsColumns() && FindUser(old(users), ByUsername(username)).None?
              then added == Some(u) && users == old(users) + [u] && nextUserId == old(nextUserId) + 1
              else added == None && users == old(users) && nextUserId == old(nextUserId)
    {
      var u := User(nextUserId, username, passwordHash, role);
      if u.FitsColumns() && FindUser(users, ByUsername(username)).None? {
        forall v | v in users
          ensures v.username != username
        {
          assert !HasKey(v, ByUsername(username));
        }
        users := users + [u];
        nextUserId := nextUserId + 1;
        added := Some(u);
      } else {
        added := None;
      }
    }

    /** Overwriting user i's PasswordHash and SaveChanges; a hash longer than its column is
        refused. */
    method SetPasswordHash(i: nat, passwordHash: string) returns (saved: bool)
      requires Valid() && i < |users|
      modifies this
      ensures Valid()
      ensures cart == old(cart) && nextCartId == old(nextCartId) && nextUserId == old(nextUserId)
      ensures saved == (|passwordHash| <= MaxPasswordHash)
      ensures saved ==> users == old(users)[i := old(users)[i].(passwordHash := passwordHash)]
      ensures !saved ==> users == old(users)
    {
      saved := |passwordHash| <= MaxPasswordHash;
      if saved {
        users := users[i := users[i].(passwordHash := passwordHash)];
        assert forall u :: u in users ==> u == users[i] || u in old(users);
      }
    }
  }
}
