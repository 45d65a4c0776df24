/** The administration application: its own users table with a role column,
    the administrator gate that reads the role from the store on every
    request, the default administrator seeded at start-up, and its
    registration and login, which use the email exactly as typed. */
module Admin {
  import opened Common
  import opened Password
  import opened Web

  /** A users row of this application. */
  datatype Account = Account(id: nat, email: string, password: string, role: string)

  /** The users table and the last id handed out for it. */
  datatype Accounts = Accounts(users: seq<Account>, userSeq: nat)

  /** The address and password of the seeded administrator. */
  const AdminEmail: string := "admin@shop.com"
  const AdminPassword: string := "Admin123!"

  /** The role that opens the administrator gate. */
  const AdminRole: string := "admin"

  /** The column default given to every account created by registration. */
  const DefaultRole: string := "user"

  /** The UNIQUE constraint on the email column. */
  predicate UniqueEmails(users: seq<Account>) {
    forall i, j :: 0 <= i < j < |users| ==> users[i].email != users[j].email
  }

  /** Some row has exactly this email. */
  predicate HasAccount(users: seq<Account>, email: string) {
    exists i :: 0 <= i < |users| && users[i].email == email
  }

  /** `SELECT … FROM users WHERE email = ?` with `fetchone()`. */
  function FindAccount(users: seq<Account>, email: string): (r: Option<nat>)
    ensures r.None? <==> !HasAccount(users, email)
    ensures r.Some? ==> r.value < |users| && users[r.value].email == email
  {
    FindFirst(users, (a: Account) => a.email == email)
  }

  /** The UNIQUE constraint admits a row whose email no row has yet. */
  lemma AppendFreshKeepsUnique(users: seq<Account>, row: Account)
    requires !HasAccount(users, row.email)
    ensures UniqueEmails(users) ==> UniqueEmails(users + [row])
  {
    if UniqueEmails(users) {
      var all := users + [row];
      forall i, j | 0 <= i < j < |all|
        ensures all[i].email != all[j].email
      {
        assert all[i] == users[i];
        if j < |users| {
          assert all[j] == users[j];
        }
      }
    }
  }

  /** A row appended under a new email is the one the lookup then finds. */
  lemma AppendedRowIsFound(users: seq<Account>, row: Account)
    requires !HasAccount(users, row.email)
    ensures FindAccount(users + [row], row.email) == Some(|users|)
  {
    var all := users + [row];
    assert all[|users|] == row;
    forall i | 0 <= i < |users|
      ensures all[i].email != row.email
    {
      assert all[i] == users[i];
    }
  }

  /** The role stored for `email`, if it has an account. */
  function RoleOf(db: Accounts, email: string): (r: Option<string>)
    ensures r.None? <==> !HasAccount(db.users, email)
    ensures r.Some? ==> exists i :: 0 <= i < |db.users| && db.users[i].email == email && db.users[i].role == r.value
  {
    match FindAccount(db.users, email)
    case Some(k) => Some(db.users[k].role)
    case None => None
  }

  /** The administrator gate: a session without a user is sent to the login
      page; otherwise the handler runs only if the role currently stored for
      the session's email is exactly the administrator role, and anyone
      else (no account, any other role) is sent home. */
  function AdminRequired(db: Accounts, s: Session): (g: Gate)
    ensures s.user.None? ==> g == Deny(RedirectLogin)
    ensures g.Proceed? <==> s.user.Some? && RoleOf(db, s.user.value) == Some(AdminRole)
    ensures s.user.Some? && !g.Proceed? ==> g == Deny(RedirectMain)
  {
    if s.user.None? then Deny(RedirectLogin)
    else
      match RoleOf(db, s.user.value)
      case Some(role) => if role == AdminRole then Proceed else Deny(RedirectMain)
      case None => Deny(RedirectMain)
  }

  /** With emails unique, the gate opens exactly when the account of the
      session's email has the administrator role. */
  lemma AdminGateIffStoredRole(db: Accounts, s: Session)
    requires UniqueEmails(db.users) && s.user.Some?
    ensures AdminRequired(db, s).Proceed?
      <==> exists i :: 0 <= i < |db.users| && db.users[i].email == s.user.value && db.users[i].role == AdminRole
  {
    var found := FindAccount(db.users, s.user.value);
    if found.Some? {
      forall i | 0 <= i < |db.users| && db.users[i].email == s.user.value
        ensures i == found.value
      {
      }
    }
  }

  /** A direct edit of the store giving the account of `email` the role
      `role`, as an administrator or a database tool would make it. */
  function SetRole(db: Accounts, email: string, role: string): (d: Accounts)
    ensures |d.users| == |db.users| && d.userSeq == db.userSeq
    ensures forall i :: 0 <= i < |db.users| ==>
      d.users[i] == (if db.users[i].email == email then db.users[i].(role := role) else db.users[i])
  {
    Accounts(seq(|db.users|, i requires 0 <= i < |db.users| =>
      if db.users[i].email == email then db.users[i].(role := role) else db.users[i]), db.userSeq)
  }

  /** The gate decides from the store, not from anything kept in the
      session: for the very same session, a role change made in the store
      changes the very next decision, granting the administrator role opens
      the gate and any other role closes it. */
  lemma RoleChangeTakesEffect(db: Accounts, s: Session, role: string)
    requires s.user.Some? && HasAccount(db.users, s.user.value)
    ensures AdminRequired(SetRole(db, s.user.value, role), s) == (if role == AdminRole then Proceed else Deny(RedirectMain))
  {
    var e := s.user.value;
    var d := SetRole(db, e, role);
    var i :| 0 <= i < |db.users| && db.users[i].email == e;
    assert d.users[i].email == e;
    var k := FindAccount(d.users, e).value;
    assert d.users[k].role == role;
  }

  /** The start-up seed: unless a row with the administrator address exists,
      one is inserted with the digest of the default password and the
      administrator role. */
  function Seed(db: Accounts, hash: string -> string): (d: Accounts)
    ensures HasAccount(db.users, AdminEmail) ==> d == db
    ensures !HasAccount(db.users, AdminEmail) ==>
      d == Accounts(db.users + [Account(db.userSeq + 1, AdminEmail, hash(AdminPassword), AdminRole)], db.userSeq + 1)
    ensures HasAccount(d.users, AdminEmail)
    ensures UniqueEmails(db.users) ==> UniqueEmails(d.users)
  {
    if FindAccount(db.users, AdminEmail).Some? then db
    else
      var row := Account(db.userSeq + 1, AdminEmail, hash(AdminPassword), AdminRole);
      AppendedRowIsFound(db.users, row);
      AppendFreshKeepsUnique(db.users, row);
      Accounts(db.users + [row], db.userSeq + 1)
  }

  /** Seeding twice gives the store seeding once gives, even though each
      start-up would salt the default password differently. */
  lemma SeedIsIdempotent(db: Accounts, hash: string -> string, rehash: string -> string)
    ensures Seed(Seed(db, hash), rehash) == Seed(db, hash)
  {
  }

  /** On a store without the administrator address, the seeded account
      opens the administrator gate. */
  lemma SeededAdminPassesGate(db: Accounts, hash: string -> string, s: Session)
    requires !HasAccount(db.users, AdminEmail)
    requires s.user == Some(AdminEmail)
    ensures AdminRequired(Seed(db, hash), s) == Proceed
  {
    AppendedRowIsFound(db.users, Account(db.userSeq + 1, AdminEmail, hash(AdminPassword), AdminRole));
  }

  /** The seed only looks for the address: an existing account with that
      address and another role keeps its role, and the gate stays shut. */
  lemma SeedDoesNotPromote(db: Accounts, hash: string -> string, s: Session)
    requires RoleOf(db, AdminEmail).Some? && RoleOf(db, AdminEmail) != Some(AdminRole)
    requires s.user == Some(AdminEmail)
    ensures AdminRequired(Seed(db, hash), s) == Deny(RedirectMain)
  {
  }

  /** Registration in this application: the password must pass the strength
      rule, then the email is inserted exactly as typed, with the digest and
      the default role, unless that exact email is already present. A
      rejected attempt leaves the store as it was. */
  function Register(db: Accounts, email: string, password: string, hash: string -> string): (r: (Accounts, Registration))
    ensures r.1 == WeakPassword <==> !PasswordIsStrong(password)
    ensures r.1 == Duplicate <==> PasswordIsStrong(password) && HasAccount(db.users, email)
    ensures r.1 != Created ==> r.0 == db
    ensures r.1 == Created ==>
      r.0 == Accounts(db.users + [Account(db.userSeq + 1, email, hash(password), DefaultRole)], db.userSeq + 1)
    ensures UniqueEmails(db.users) ==> UniqueEmails(r.0.users)
  {
    if !PasswordIsStrong(password) then (db, WeakPassword)
    else if FindAccount(db.users, email).Some? then (db, Duplicate)
    else
      var row := Account(db.userSeq + 1, email, hash(password), DefaultRole);
      AppendFreshKeepsUnique(db.users, row);
      (Accounts(db.users + [row], db.userSeq + 1), Created)
  }

  /** Unlike the storefront, this application does not fold case: with the
      administrator seeded, a strong password registers a second account
      under the same address in capitals, and that account does not pass
      the administrator gate. */
  lemma RegistrationIsCaseSensitive(db: Accounts, hash: string -> string, password: string, s: Session)
    requires UniqueEmails(db.users) && HasAccount(db.users, AdminEmail)
    requires !HasAccount(db.users, "ADMIN@shop.com")
    requires PasswordIsStrong(password)
    requires s.user == Some("ADMIN@shop.com")
    ensures Register(db, "ADMIN@shop.com", password, hash).1 == Created
    ensures AdminRequired(Register(db, "ADMIN@shop.com", password, hash).0, s) == Deny(RedirectMain)
  {
    var row := Account(db.userSeq + 1, "ADMIN@shop.com", hash(password), DefaultRole);
    var r := Register(db, "ADMIN@shop.com", password, hash);
    assert r.1 == Created;
    assert r.0.users == db.users + [row];
    AppendedRowIsFound(db.users, row);
    assert RoleOf(r.0, "ADMIN@shop.com") == Some(DefaultRole);
  }

  /** Login in this application: a signed-in session is sent home
      untouched; otherwise the row with exactly the typed email is looked up
      and only a digest that checks against the password signs the session
      in, under the typed email. */
  function Login(db: Accounts, s: Session, email: string, password: string, check: (string, string) -> bool): (r: (Session, Response))
    ensures s.user.Some? ==> r == (s, RedirectMain)
    ensures r.0.cart == s.cart
    ensures s.user.None? ==>
      var found := FindAccount(db.users, email);
      if found.Some? && check(db.users[found.value].password, password)
      then r == (s.(user := Some(email)), RedirectMain)
      else r == (s, RedirectLogin)
  {
    if s.user.Some? then (s, RedirectMain)
    else
      match FindAccount(db.users, email)
      case Some(k) =>
        if check(db.users[k].password, password) then (s.(user := Some(email)), RedirectMain)
        else (s, RedirectLogin)
      case None => (s, RedirectLogin)
  }

  /** With emails unique, a signed-out session gets signed in exactly when
      an account with exactly that email exists and its stored digest
      checks against the password; only then does the session change. */
  lemma LoginSucceedsIffDigestChecks(db: Accounts, s: Session, email: string, password: string, check: (string, string) -> bool)
    requires UniqueEmails(db.users) && s.user.None?
    ensures Login(db, s, email, password, check).0.user == Some(email)
      <==> exists i :: 0 <= i < |db.users| && db.users[i].email == email && check(db.users[i].password, password)
    ensures Login(db, s, email, password, check).0.user.None? ==> Login(db, s, email, password, check).0 == s
  {
    var found := FindAccount(db.users, email);
    if found.Some? {
      forall i | 0 <= i < |db.users| && db.users[i].email == email
        ensures i == found.value
      {
      }
    }
  }

  /** After the seed, signing in as the administrator with the default
      password succeeds and the resulting session passes the gate, given a
      digest check that accepts the digest of its own password. */
  lemma SeededAdminCanSignIn(db: Accounts, hash: string -> string, check: (string, string) -> bool, s: Session)
    requires !HasAccount(db.users, AdminEmail)
    requires check(hash(AdminPassword), AdminPassword)
    requires s.user.None?
    ensures
      var d := Seed(db, hash);
      var s1 := Login(d, s, AdminEmail, AdminPassword, check).0;
      s1.user == Some(AdminEmail) && AdminRequired(d, s1) == Proceed
  {
    AppendedRowIsFound(db.users, Account(db.userSeq + 1, AdminEmail, hash(AdminPassword), AdminRole));
  }
}
