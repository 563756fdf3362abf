/** Sign-in, registration, the profile page and password change over the Users table.
    Password hashing (BCrypt) is a pair of functions passed in; the random salt of each new
    hash is a parameter. */
module LoginController {
  import opened Wrappers
  import opened UserModel
  import opened AuthDb

  /** The registration code that unlocks the Admin role. */
  const AdminSecretCode: string := "ABC@Admin2025"

  const MinPasswordLength: nat := 6

  /** Cookie lifetimes: 30 days with "remember me", 2 hours otherwise. */
  const RememberedLifetimeHours: nat := 720
  const SessionLifetimeHours: nat := 2

  /** HashPassword(password, salt) and Verify(password, hash). */
  datatype PasswordHasher = PasswordHasher(hash: (string, string) -> string, verify: (string, string) -> bool)

  /** A hash verifies against the password it was made from, and fits the PasswordHash column
      (a BCrypt hash has 60 characters). */
  ghost predicate Sound(h: PasswordHasher)
  {
    forall password, salt :: h.verify(password, h.hash(password, salt)) && |h.hash(password, salt)| <= MaxPasswordHash
  }

  datatype LoginForm = LoginForm(username: string, password: string, rememberMe: bool, returnUrl: string)

  /** The claims of the authentication cookie: NameIdentifier, Name and Role. */
  datatype Claims = Claims(userId: int, name: string, role: string)

  datatype LoginOutcome =
    | LoginFormInvalid
    | InvalidCredentials
    | SignedIn(claims: Claims, persistent: bool, lifetimeHours: nat, redirect: Option<string>)

  /** POST Login. Unknown username and wrong password give the same answer; a successful
      sign-in goes to a local, non-empty return URL, or else to the home page (None). */
  function LoginOutcomeOf(users: seq<User>, hasher: PasswordHasher, form: LoginForm, modelValid: bool,
                          isLocalUrl: string -> bool): (r: LoginOutcome)
    ensures !modelValid ==> r == LoginFormInvalid
    ensures r.SignedIn? ==>
              exists i :: 0 <= i < |users| && users[i].username == form.username &&
                          hasher.verify(form.password, users[i].passwordHash) &&
                          r.claims == Claims(users[i].id, users[i].username, users[i].role)
    ensures r.SignedIn? ==>
              r.persistent == form.rememberMe &&
              r.lifetimeHours == if form.rememberMe then RememberedLifetimeHours else SessionLifetimeHours
    ensures r.SignedIn? && r.redirect.Some? ==> r.redirect.value == form.returnUrl && isLocalUrl(form.returnUrl)
  {
    if !modelValid then LoginFormInvalid
    else match FindUser(users, ByUsername(form.username))
      case None => InvalidCredentials
      case Some(i) =>
        var u := users[i];
        if !hasher.verify(form.password, u.passwordHash) then InvalidCredentials
        else
          SignedIn(Claims(u.id, u.username, u.role), form.rememberMe,
                   if form.rememberMe then RememberedLifetimeHours else SessionLifetimeHours,
                   if form.returnUrl != "" && isLocalUrl(form.returnUrl) then Some(form.returnUrl) else None)
  }

  /** Under the unique index, the username search finds the one user with that name. */
  lemma FindUsernameUnique(users: seq<User>, u: User)
    requires UniqueUsernames(users) && u in users
    ensures FindUser(users, ByUsername(u.username)).Some? && users[FindUser(users, ByUsername(u.username)).value] == u
  {
    var k :| 0 <= k < |users| && users[k] == u;
    var j := FindUser(users, ByUsername(u.username)).value;
    assert users[j].username == users[k].username;
    assert j == k;
  }

  /** A valid sign-in succeeds exactly when some user has that username and the password
      verifies against that user's hash; the claims are that user's Id, Username and Role.
      Every other valid attempt gets the one InvalidCredentials answer. */
  lemma LoginSucceedsIff(users: seq<User>, hasher: PasswordHasher, form: LoginForm, isLocalUrl: string -> bool)
    requires UniqueUsernames(users)
    ensures var r := LoginOutcomeOf(users, hasher, form, true, isLocalUrl);
            (r.SignedIn? <==>
               exists u :: u in users && u.username == form.username && hasher.verify(form.password, u.passwordHash)) &&
            (!r.SignedIn? ==> r == InvalidCredentials) &&
            (r.SignedIn? ==> forall u :: u in users && u.username == form.username ==>
                               r.claims == Claims(u.id, u.username, u.role))
  {
    var r := LoginOutcomeOf(users, hasher, form, true, isLocalUrl);
    forall u | u in users && u.username == form.username
      ensures r.SignedIn? <==> hasher.verify(form.password, u.passwordHash)
      ensures r.SignedIn? ==> r.claims == Claims(u.id, u.username, u.role)
    {
      FindUsernameUnique(users, u);
    }
  }

  /** An invalid form is answered before the Users table is consulted. */
  lemma InvalidLoginFormIgnoresUsers(users: seq<User>, other: seq<User>, hasher: PasswordHasher, form: LoginForm,
                                     isLocalUrl: string -> bool)
    ensures LoginOutcomeOf(users, hasher, form, false, isLocalUrl) == LoginOutcomeOf(other, hasher, form, false, isLocalUrl)
    ensures LoginOutcomeOf(users, hasher, form, false, isLocalUrl) == LoginFormInvalid
  {
  }

  /** The username search over a table with one more row at the end. */
  lemma {:induction false} FindUsernameAppend(users: seq<User>, u: User, username: string)
    requires FindUser(users, ByUsername(username)).None?
    ensures FindUser(users + [u], ByUsername(username)) == if u.username == username then Some(|users|) else None
  {
    if users != [] {
      assert (users + [u])[1..] == users[1..] + [u];
      FindUsernameAppend(users[1..], u, username);
    }
  }

  datatype RegisterForm = RegisterForm(username: string, password: string, isAdmin: bool, adminCode: string)

  datatype RegisterOutcome = RegisterFormInvalid | UsernameTaken | InvalidAdminCode | Registered(role: string) | RegisterError

  /** The role a registration asks for: "Customer" without the admin flag, "Admin" with the
      flag and the secret code, and no role (rejection) with the flag and any other code,
      the empty one included. */
  function RoleFor(isAdmin: bool, adminCode: string): (r: Option<string>)
    ensures r == Some(AdminRole) <==> isAdmin && adminCode == AdminSecretCode
    ensures r == Some(CustomerRole) <==> !isAdmin
    ensures r.None? <==> isAdmin && adminCode != AdminSecretCode
    ensures isAdmin && adminCode == "" ==> r.None?
  {
    if !isAdmin then Some(CustomerRole)
    else if adminCode == "" || adminCode != AdminSecretCode then None
    else Some(AdminRole)
  }

  /** A user just registered with a sound hasher can sign in with the password chosen, and gets
      the Id, name and role the registration stored. */
  lemma RegisteredUserCanLogIn(users: seq<User>, hasher: PasswordHasher, form: RegisterForm, salt: string,
                               id: int, role: string, isLocalUrl: string -> bool)
    requires Sound(hasher) && FindUser(users, ByUsername(form.username)).None?
    ensures var u := User(id, form.username, hasher.hash(form.password, salt), role);
            LoginOutcomeOf(users + [u], hasher, LoginForm(form.username, form.password, false, ""), true, isLocalUrl) ==
              SignedIn(Claims(id, form.username, role), false, SessionLifetimeHours, None)
  {
    var u := User(id, form.username, hasher.hash(form.password, salt), role);
    FindUsernameAppend(users, u, form.username);
    assert hasher.verify(form.password, hasher.hash(form.password, salt));
  }

  datatype ChangeOutcome =
    | FieldsRequired
    | ConfirmationMismatch
    | PasswordTooShort
    | ChangeError
    | UserNotFound
    | WrongCurrentPassword
    | PasswordChanged

  /** The checks ChangePassword makes before it looks the user up, first failing one first:
      a missing field, then a confirmation that differs, then a new password under six
      characters. None means all pass. */
  function ChangeValidation(current: string, newPassword: string, confirm: string): (r: Option<ChangeOutcome>)
    ensures r.None? <==> current != "" && newPassword != "" && newPassword == confirm && |newPassword| >= MinPasswordLength
    ensures r.Some? ==> r.value in {FieldsRequired, ConfirmationMismatch, PasswordTooShort}
  {
    if current == "" || newPassword == "" then Some(FieldsRequired)
    else if newPassword != confirm then Some(ConfirmationMismatch)
    else if |newPassword| < MinPasswordLength then Some(PasswordTooShort)
    else None
  }

  /** The order of the checks: a missing field hides a mismatch, and a mismatch hides a short
      password. */
  lemma ValidationOrder(current: string, newPassword: string, confirm: string)
    ensures current == "" ==> ChangeValidation(current, newPassword, confirm) == Some(FieldsRequired)
    ensures current != "" && newPassword != "" && newPassword != confirm ==> ChangeValidation(current, newPassword, confirm) == Some(ConfirmationMismatch)
    ensures current != "" && newPassword != "" && newPassword == confirm && |newPassword| < MinPasswordLength ==>
              ChangeValidation(current, newPassword, confirm) == Some(PasswordTooShort)
  {
  }

  /** After a password change the user signs in with the new password. */
  lemma ChangedPasswordLogsIn(users: seq<User>, i: nat, hasher: PasswordHasher, newPassword: string, salt: string,
                              isLocalUrl: string -> bool)
    requires Sound(hasher) && UniqueUsernames(users) && i < |users|
    ensures var after := users[i := users[i].(passwordHash := hasher.hash(newPassword, salt))];
            LoginOutcomeOf(after, hasher, LoginForm(users[i].username, newPassword, false, ""), true, isLocalUrl).SignedIn?
  {
    var after := users[i := users[i].(passwordHash := hasher.hash(newPassword, salt))];
    assert forall k :: 0 <= k < |after| ==> after[k].username == users[k].username;
    assert UniqueUsernames(after);
    assert hasher.verify(newPassword, after[i].passwordHash);
    LoginSucceedsIff(after, hasher, LoginForm(users[i].username, newPassword, false, ""), isLocalUrl);
    assert after[i] in after;
  }

  datatype ProfileOutcome = ProfileLoginRedirect | ProfileNotFound | ProfileShown(user: User)

  class LoginController {
    const db: AuthDbContext
    const hasher: PasswordHasher

    constructor (db: AuthDbContext, hasher: PasswordHasher)
      ensures this.db == db && this.hasher == hasher
    {
      this.db := db;
      this.hasher := hasher;
    }

    /** POST Register: a valid form with a free username and an acceptable role adds exactly one
        user, holding the hash of the password and never the password itself. */
    method Register(form: RegisterForm, modelValid: bool, salt: string) returns (outcome: RegisterOutcome)
      requires db.Valid()
      modifies db
      ensures db.Valid() && db.cart == old(db.cart) && db.nextCartId == old(db.nextCartId)
      ensures !modelValid ==>
                outcome == RegisterFormInvalid && db.users == old(db.users) && db.nextUserId == old(db.nextUserId)
      ensures modelValid && FindUser(old(db.users), ByUsername(form.username)).Some? ==>
                outcome == UsernameTaken && db.users == old(db.users) && db.nextUserId == old(db.nextUserId)
      ensures modelValid && FindUser(old(db.users), ByUsername(form.username)).None? && RoleFor(form.isAdmin, form.adminCode).None? ==>
                outcome == InvalidAdminCode && db.users == old(db.users) && db.nextUserId == old(db.nextUserId)
      ensures modelValid && FindUser(old(db.users), ByUsername(form.username)).None? && RoleFor(form.isAdmin, form.adminCode).Some? ==>
                var role := RoleFor(form.isAdmin, form.adminCode).value;
                var u := User(old(db.nextUserId), form.username, hasher.hash(form.password, salt), role);
                if u.FitsColumns()
                then outcome == Registered(role) && db.users == old(db.users) + [u] && db.nextUserId == old(db.nextUserId) + 1
                else outcome == RegisterError && db.users == old(db.users) && db.nextUserId == old(db.nextUserId)
    {
      if !modelValid {
        return RegisterFormInvalid;
      }
      if FindUser(db.users, ByUsername(form.username)).Some? {
        return UsernameTaken;
      }
      var role := RoleFor(form.isAdmin, form.adminCode);
      if role.None? {
        return InvalidAdminCode;
      }
      var added := db.AddUser(form.username, hasher.hash(form.password, salt), role.value);
      outcome := if added.Some? then Registered(role.value) else RegisterError;
    }

    /** GET Profile: the signed-in user's row; no NameIdentifier claim sends the visitor to the
        login page. */
    method Profile(userId: Option<int>) returns (outcome: ProfileOutcome)
      ensures userId.None? ==> outcome == ProfileLoginRedirect
      ensures userId.Some? && FindUser(db.users, ById(userId.value)).None? ==> outcome == ProfileNotFound
      ensures userId.Some? && FindUser(db.users, ById(userId.value)).Some? ==>
                outcome.ProfileShown? && outcome.user in db.users && outcome.user.id == userId.value
    {
      if userId.None? {
        return ProfileLoginRedirect;
      }
      var i := FindUser(db.users, ById(userId.value));
      if i.None? {
        return ProfileNotFound;
      }
      outcome := ProfileShown(db.users[i.value]);
    }

    /** POST ChangePassword: the form checks in order, then the user lookup, then the current
        password; only when all pass is the stored hash replaced, and then by the hash of the
        new password. A missing NameIdentifier claim ends in the generic error. */
    method ChangePassword(userId: Option<int>, current: string, newPassword: string, confirm: string, salt: string)
      returns (outcome: ChangeOutcome)
      requires db.Valid()
      modifies db
      ensures db.Valid() && db.cart == old(db.cart) && db.nextCartId == old(db.nextCartId) && db.nextUserId == old(db.nextUserId)
      ensures ChangeValidation(current, newPassword, confirm).Some? ==>
                outcome == ChangeValidation(current, newPassword, confirm).value && db.users == old(db.users)
      ensures ChangeValidation(current, newPassword, confirm).None? && userId.None? ==>
                outcome == ChangeError && db.users == old(db.users)
      ensures ChangeValidation(current, newPassword, confirm).None? && userId.Some? && FindUser(old(db.users), ById(userId.value)).None? ==>
                outcome == UserNotFound && db.users == old(db.users)
      ensures ChangeValidation(current, newPassword, confirm).None? && userId.Some? && FindUser(old(db.users), ById(userId.value)).Some? ==>
                var i := FindUser(old(db.users), ById(userId.value)).value;
                var h := hasher.hash(newPassword, salt);
                if !hasher.verify(current, old(db.users)[i].passwordHash)
                then outcome == WrongCurrentPassword && db.users == old(db.users)
                else if |h| <= MaxPasswordHash
                then outcome == PasswordChanged && db.users == old(db.users)[i := old(db.users)[i].(passwordHash := h)]
                else outcome == ChangeError && db.users == old(db.users)
      ensures outcome == PasswordChanged ==> ChangeValidation(current, newPassword, confirm).None?
    {
      var invalid := ChangeValidation(current, newPassword, confirm);
      if invalid.Some? {
        return invalid.value;
      }
      if userId.None? {
        return ChangeError;
      }
      var i := FindUser(db.users, ById(userId.value));
      if i.None? {
        return UserNotFound;
      }
      if !hasher.verify(current, db.users[i.value].passwordHash) {
        return WrongCurrentPassword;
      }
      var saved := db.SetPasswordHash(i.value, hasher.hash(newPassword, salt));
      outcome := if saved then PasswordChanged else ChangeError;
    }
  }
}
