/** Accounts: `register`, `login`, `getUserProfile` and the admin's user
    list. Password digests and their comparison are oracles: `hashOf` is the
    digest `register` stores, `matches(password, digest)` the comparison
    `login` makes. */
module Accounts {
  import opened Model
  import opened Seqs

  /** The first user registered with `email`. */
  function EmailIndex(users: seq<User>, email: string): int
  {
    FirstIndex(users, (u: User) => u.email == email)
  }

  /** The first user with id `id`. */
  function UserIdIndex(users: seq<User>, id: int): int
  {
    FirstIndex(users, (u: User) => u.id == id)
  }

  /** Users are numbered 1, 2, ... in registration order. */
  predicate Numbered(users: seq<User>)
  {
    forall i :: 0 <= i < |users| ==> users[i].id == i + 1
  }

  /** No email is registered twice. */
  predicate DistinctEmails(users: seq<User>)
  {
    forall i, j :: 0 <= i < j < |users| ==> users[i].email != users[j].email
  }

  /** Every stored account is an ordinary customer: only the hard-coded pair is an administrator. */
  predicate Customers(users: seq<User>)
  {
    forall i :: 0 <= i < |users| ==> users[i].role == "user"
  }

  predicate AccountsValid(users: seq<User>)
  {
    Numbered(users) && DistinctEmails(users) && Customers(users)
  }

  /** `user.role || 'user'`. */
  function RoleOf(u: User): (r: string)
    ensures r != []
    ensures u.role != [] ==> r == u.role
    ensures u.role == [] ==> r == "user"
  {
    if u.role == [] then "user" else u.role
  }

  /** The token and the password-free projection answered on a successful sign-in. */
  function SessionOf(u: User): (b: Body)
    ensures b.Session? && b.token.id == u.id && b.token.email == u.email
    ensures b.token.role == RoleOf(u)
    ensures b.user == PublicUser(u.id, u.email, u.name, b.token.role)
  {
    Session(Claims(u.id, u.email, RoleOf(u)), PublicUser(u.id, u.email, u.name, RoleOf(u)))
  }

  /** The administrator's session: id 0, role `admin`. */
  const AdminSession: Body := Session(Claims(0, AdminEmail, "admin"), PublicUser(0, AdminEmail, "Admin", "admin"))

  /** The account `register` creates: the next number, the digest of the password, role `user`. */
  function NewUser(users: seq<User>, email: string, name: string, digest: string, now: nat): (u: User)
    ensures u.role == "user" && u.email == email && u.name == name && u.password == digest
    ensures u.createdAt == now
    ensures Numbered(users) ==> Numbered(users + [u]) && forall i :: 0 <= i < |users| ==> users[i].id != u.id
  {
    User(|users| + 1, email, name, digest, "user", now)
  }

  /** Registering a new email keeps the accounts numbered, their emails
      distinct and every account a customer. */
  lemma RegisterKeepsValid(users: seq<User>, email: string, name: string, digest: string, now: nat)
    requires AccountsValid(users) && EmailIndex(users, email) < 0
    ensures AccountsValid(users + [NewUser(users, email, name, digest, now)])
  {
  }

  /** `login`: the hard-coded administrator pair is checked first, then the
      first account with the email and its stored digest. An unknown email
      and a wrong password are refused alike. */
  function Login(users: seq<User>, email: string, password: string, matches: (string, string) -> bool): (r: Response)
    ensures email == AdminEmail && password == AdminPassword ==> r == Ok(AdminSession)
    ensures r.Err? ==> r == Err(400, "Invalid credentials")
    ensures !(email == AdminEmail && password == AdminPassword) ==>
      var k := EmailIndex(users, email);
      (r.Ok? <==> 0 <= k && matches(password, users[k].password))
      && (r.Ok? ==> r.body == SessionOf(users[k]))
  {
    if email == AdminEmail && password == AdminPassword then Ok(AdminSession)
    else
      var k := EmailIndex(users, email);
      if k < 0 then Err(400, "Invalid credentials")
      else if !matches(password, users[k].password) then Err(400, "Invalid credentials")
      else Ok(SessionOf(users[k]))
  }

  /** Registering and then signing in with the same password opens a session
      for the new account, provided the digest comparison accepts the
      password it was made from. */
  lemma RegisterThenLogin(users: seq<User>, email: string, name: string, password: string, hashOf: string -> string, matches: (string, string) -> bool, now: nat)
    requires EmailIndex(users, email) < 0
    requires matches(password, hashOf(password))
    requires !(email == AdminEmail && password == AdminPassword)
    ensures var u := NewUser(users, email, name, hashOf(password), now);
      Login(users + [u], email, password, matches) == Ok(SessionOf(u))
      && SessionOf(u).token == Claims(|users| + 1, email, "user")
  {
    var u := NewUser(users, email, name, hashOf(password), now);
    FirstIndexAppend(users, u, (v: User) => v.email == email);
  }

  /** An account that shares the administrator's email and password signs in
      as the administrator, never as itself. */
  lemma AdminPairShadowsAccount(users: seq<User>, matches: (string, string) -> bool)
    ensures Login(users, AdminEmail, AdminPassword, matches).body.token.id == 0
  {
  }

  /** Signing in never yields the administrator role except through the hard-coded pair. */
  lemma OnlyPairIsAdmin(users: seq<User>, email: string, password: string, matches: (string, string) -> bool)
    requires Customers(users)
    requires !(email == AdminEmail && password == AdminPassword)
    ensures Login(users, email, password, matches).Ok? ==> Login(users, email, password, matches).body.token.role == "user"
  {
  }

  /** The password-free projection of an account. */
  function View(u: User): UserView
  {
    UserView(u.id, u.name, u.email, u.role, u.createdAt)
  }

  /** `getAllUsers`: every account, in order, without its password. */
  function Views(users: seq<User>): (r: seq<UserView>)
    ensures |r| == |users|
    ensures forall i :: 0 <= i < |r| ==>
      (r[i].id == users[i].id && r[i].email == users[i].email && r[i].name == users[i].name
       && r[i].role == users[i].role && r[i].createdAt == users[i].createdAt)
  {
    seq(|users|, i requires 0 <= i < |users| => View(users[i]))
  }

  /** `getUserProfile` for a verified caller: the administrator gets a fixed
      profile stamped with the current time; anyone else the account with the
      token's id, or 404 when there is none. */
  function ProfileOf(users: seq<User>, claims: Claims, now: nat): (r: Response)
    ensures claims.role == "admin" ==> r == Ok(Profile(UserView(0, "Admin", AdminEmail, "admin", now)))
    ensures claims.role != "admin" ==>
      (r.Err? <==> forall i :: 0 <= i < |users| ==> users[i].id != claims.id)
    ensures claims.role != "admin" && r.Err? ==> r == Err(404, "User not found")
    ensures claims.role != "admin" && r.Ok? ==>
      (r.body.Profile? && r.body.profile.id == claims.id
       && exists i :: 0 <= i < |users| && r.body.profile == View(users[i]))
  {
    if claims.role == "admin" then Ok(Profile(UserView(0, "Admin", AdminEmail, "admin", now)))
    else
      var k := UserIdIndex(users, claims.id);
      if k < 0 then Err(404, "User not found") else Ok(Profile(View(users[k])))
  }

  /** In a numbered store a customer's token finds the account it was issued for. */
  lemma ProfileOfRegistered(users: seq<User>, k: nat, now: nat)
    requires Numbered(users) && k < |users|
    requires users[k].role != "admin"
    ensures ProfileOf(users, SessionOf(users[k]).token, now) == Ok(Profile(View(users[k])))
  {
    assert UserIdIndex(users, users[k].id) == k;
  }
}
