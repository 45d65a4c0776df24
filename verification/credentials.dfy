/** Registration and login of the storefront application, whose users table
    has no role column and whose handlers key every account on the
    normalised email. Password hashing is salted and outside the model: the
    hash function and the digest check are parameters. */
module Credentials {
  import opened Common
  import opened Password
  import opened Email
  import opened Store
  import opened Web

  /** Registration: the password must pass the strength rule, then the
      normalised email is inserted with the digest of the password unless
      the UNIQUE constraint rejects it. A rejected attempt leaves the store
      as it was; a successful one appends exactly one row with the next id. */
  function Register(db: Db, email: string, password: string, hash: string -> string): (r: (Db, Registration))
    ensures r.1 == WeakPassword <==> !PasswordIsStrong(password)
    ensures r.1 == Duplicate <==> PasswordIsStrong(password) && EmailTaken(db.users, Normalise(email))
    ensures r.1 != Created ==> r.0 == db
    ensures r.1 == Created ==>
      r.0 == db.(users := db.users + [User(db.userSeq + 1, Normalise(email), hash(password))],
                 userSeq := db.userSeq + 1)
    ensures UniqueEmails(db.users) ==> UniqueEmails(r.0.users)
  {
    var key := Normalise(email);
    if !PasswordIsStrong(password) then (db, WeakPassword)
    else if FindUser(db.users, key).Some? then (db, Duplicate)
    else
      var row := User(db.userSeq + 1, key, hash(password));
      AppendFreshKeepsUnique(db.users, row);
      (db.(users := db.users + [row], userSeq := db.userSeq + 1), Created)
  }

  /** The response of a registration attempt. */
  function RegisterResponse(outcome: Registration): (resp: Response)
    ensures resp == RedirectLogin <==> outcome == Created
    ensures resp != RedirectLogin ==> resp == RedirectRegister
  {
    if outcome == Created then RedirectLogin else RedirectRegister
  }

  /** Login: a session that is already signed in is sent home untouched.
      Otherwise the first users row with the normalised email is looked up,
      and only if its digest checks against the password does the session
      become signed in, under the normalised email. The cart is never
      touched. */
  function Login(db: Db, s: Session, email: string, password: string, check: (string, string) -> bool): (r: (Session, Response))
    ensures s.user.Some? ==> r == (s, RedirectMain)
    ensures r.0.cart == s.cart
    ensures s.user.None? ==>
      var found := FindUser(db.users, Normalise(email));
      if found.Some? && check(db.users[found.value].password, password)
      then r == (s.(user := Some(Normalise(email))), RedirectMain)
      else r == (s, RedirectLogin)
  {
    if s.user.Some? then (s, RedirectMain)
    else
      var key := Normalise(email);
      match FindUser(db.users, key)
      case Some(k) =>
        if check(db.users[k].password, password) then (s.(user := Some(key)), RedirectMain)
        else (s, RedirectLogin)
      case None => (s, RedirectLogin)
  }

  /** With emails unique, a signed-out session gets signed in exactly when
      some account has the normalised email and its stored digest checks
      against the password. */
  lemma LoginSucceedsIffDigestChecks(db: Db, s: Session, email: string, password: string, check: (string, string) -> bool)
    requires UniqueEmails(db.users) && s.user.None?
    ensures Login(db, s, email, password, check).0.user.Some?
      <==> exists i :: 0 <= i < |db.users| && db.users[i].email == Normalise(email) && check(db.users[i].password, password)
  {
    var key := Normalise(email);
    var found := FindUser(db.users, key);
    if found.Some? {
      forall i | 0 <= i < |db.users| && db.users[i].email == key
        ensures i == found.value
      {
      }
    }
  }

  /** A strong password under an address not yet taken registers, and the
      new account can be signed into with the same password and any
      spelling of the email that normalises to the same key. */
  lemma RegisterThenLogin(db: Db, email: string, password: string,
                          hash: string -> string, check: (string, string) -> bool, s: Session)
    requires PasswordIsStrong(password)
    requires forall i :: 0 <= i < |db.users| ==> db.users[i].email != Normalise(email)
    requires check(hash(password), password)
    requires s.user.None?
    ensures Register(db, email, password, hash).1 == Created
    ensures forall typed :: Normalise(typed) == Normalise(email) ==>
      Login(Register(db, email, password, hash).0, s, typed, password, check).0.user == Some(Normalise(email))
  {
    FreshRegistrationAppends(db, email, password, hash);
    var row := User(db.userSeq + 1, Normalise(email), hash(password));
    var d := Register(db, email, password, hash).0;
    forall typed | Normalise(typed) == Normalise(email)
      ensures Login(d, s, typed, password, check).0.user == Some(Normalise(email))
    {
      LoginFindsAppended(db.users, row, d, s, typed, password, check);
    }
  }

  /** A strong password under a free key creates exactly the expected row. */
  lemma FreshRegistrationAppends(db: Db, email: string, password: string, hash: string -> string)
    requires PasswordIsStrong(password)
    requires forall i :: 0 <= i < |db.users| ==> db.users[i].email != Normalise(email)
    ensures Register(db, email, password, hash).1 == Created
    ensures Register(db, email, password, hash).0.users == db.users + [User(db.userSeq + 1, Normalise(email), hash(password))]
  {
  }

  /** Login under any spelling of a freshly appended row's key finds that
      row, and a password its digest checks against signs the session in. */
  lemma LoginFindsAppended(users: seq<User>, row: User, d: Db, s: Session, typed: string, password: string,
                           check: (string, string) -> bool)
    requires !EmailTaken(users, row.email) && d.users == users + [row]
    requires Normalise(typed) == row.email && check(row.password, password) && s.user.None?
    ensures Login(d, s, typed, password, check).0.user == Some(row.email)
  {
    AppendedUserIsFound(users, row);
    assert d.users[|users|] == row;
  }

  /** A second registration under an email that differs from the first only
      in case or surrounding white space is rejected and changes nothing. */
  lemma SecondRegistrationRejected(db: Db, first: string, second: string, p1: string, p2: string,
                                   hash: string -> string)
    requires Register(db, first, p1, hash).1 == Created
    requires Normalise(second) == Normalise(first)
    requires PasswordIsStrong(p2)
    ensures
      var d := Register(db, first, p1, hash).0;
      Register(d, second, p2, hash) == (d, Duplicate)
  {
    var d := Register(db, first, p1, hash).0;
    assert d.users[|db.users|].email == Normalise(second);
  }
}
