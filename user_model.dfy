/** A row of the Users table and its derived role flags. */
module UserModel {
  const CustomerRole: string := "Customer"
  const AdminRole: string := "Admin"

  /** Column limits of the Users table. */
  const MaxUsername: nat := 100
  const MaxPasswordHash: nat := 256
  const MaxRole: nat := 20

  datatype User = User(id: int, username: string, passwordHash: string, role: string)
  {
    /** Ordinal, case-sensitive comparison with "Admin"; no admin is also a customer. */
    predicate IsAdmin()
      ensures IsAdmin() ==> role != CustomerRole
    {
      role == AdminRole
    }

    /** Ordinal, case-sensitive comparison with "Customer"; no customer is also an admin. */
    predicate IsCustomer()
      ensures IsCustomer() ==> role != AdminRole
    {
      role == CustomerRole
    }

    /** The row fits the column lengths of the Users table; either role name fits the Role
        column, so only the name and the hash can overflow. */
    predicate FitsColumns()
      ensures (IsAdmin() || IsCustomer()) ==>
                (FitsColumns() <==> |username| <= MaxUsername && |passwordHash| <= MaxPasswordHash)
    {
      |username| <= MaxUsername && |passwordHash| <= MaxPasswordHash && |role| <= MaxRole
    }
  }

  /** A User created without setting Role gets the default role "Customer". */
  function NewUser(username: string, passwordHash: string): (u: User)
    ensures u.IsCustomer() && !u.IsAdmin()
    ensures u.username == username && u.passwordHash == passwordHash
  {
    User(0, username, passwordHash, CustomerRole)
  }
}
