/**
 * The authentication store (`AuthProvider` in src/context/AuthContext.tsx).
 *
 * It owns three slots: the in-memory session (`user`), the durable session
 * marker (the `currentUser` key of local storage) and the durable account list
 * (the `users` key). The pure functions `RegisterStep`, `LoginStep`,
 * `LogoutStep`, `UpdateStep` and `RestoreStep` are the specification of the
 * store's operations on a snapshot of the three slots; the class
 * `AuthProvider` performs them field by field, and each of its methods is
 * proved to agree with its step. The lemmas below state what the steps promise.
 */
module AuthContext {
  import opened Wrappers

  /** The session record: an account without its password. */
  datatype User = User(
    id: string,
    email: string,
    firstName: string,
    lastName: string,
    phone: Option<string>)

  /** A record of the durable account list; the password is kept in plain text. */
  datatype StoredUser = StoredUser(
    id: string,
    email: string,
    password: string,
    firstName: string,
    lastName: string,
    phone: Option<string>)

  /** `Partial<User>`: a field is either supplied (`Some`) or absent (`None`). */
  datatype UserPatch = UserPatch(
    id: Option<string>,
    email: Option<string>,
    firstName: Option<string>,
    lastName: Option<string>,
    phone: Option<string>)

  /** The three searches the store runs over the account list. */
  datatype Criterion =
    | EmailIs(email: string)
    | CredentialsAre(email: string, password: string)
    | IdIs(id: string)

  /** The callback passed to `find` / `findIndex`, with `===` on strings. */
  predicate Matches(u: StoredUser, c: Criterion) {
    match c
    case EmailIs(e) => u.email == e
    case CredentialsAre(e, p) => u.email == e && u.password == p
    case IdIs(i) => u.id == i
  }

  /** `Array.prototype.findIndex`: the position of the first record meeting `c`, if there is one. */
  function FirstMatch(users: seq<StoredUser>, c: Criterion): (r: Option<nat>)
    ensures r.None? <==> forall k :: 0 <= k < |users| ==> !Matches(users[k], c)
    ensures r.Some? ==>
      && r.value < |users| && Matches(users[r.value], c)
      && forall k :: 0 <= k < r.value ==> !Matches(users[k], c)
  {
    if users == [] then None
    else if Matches(users[0], c) then Some(0)
    else match FirstMatch(users[1..], c)
      case None => None
      case Some(k) => Some(k + 1)
  }

  /** Some stored account has exactly this email (case-sensitive). */
  ghost predicate EmailTaken(users: seq<StoredUser>, email: string) {
    exists k :: 0 <= k < |users| && users[k].email == email
  }

  /** No two stored accounts share an email. */
  ghost predicate UniqueEmails(users: seq<StoredUser>) {
    forall i, j :: 0 <= i < j < |users| ==> users[i].email != users[j].email
  }

  /** No two stored accounts share an id. */
  ghost predicate UniqueIds(users: seq<StoredUser>) {
    forall i, j :: 0 <= i < j < |users| ==> users[i].id != users[j].id
  }

  /** The record `register` appends; it has no `phone` key. */
  function NewAccount(id: string, email: string, password: string, firstName: string, lastName: string): StoredUser {
    StoredUser(id, email, password, firstName, lastName, None)
  }

  /** `const { password: _, ...rest } = record`: the record without its password. */
  function WithoutPassword(u: StoredUser): User {
    User(u.id, u.email, u.firstName, u.lastName, u.phone)
  }

  /** `{ ...u, ...p }` on a session record: every supplied field of `p` overrides. */
  function MergeUser(u: User, p: UserPatch): User {
    User(
      p.id.GetOr(u.id),
      p.email.GetOr(u.email),
      p.firstName.GetOr(u.firstName),
      p.lastName.GetOr(u.lastName),
      if p.phone.Some? then p.phone else u.phone)
  }

  /** `{ ...u, ...p }` on a stored record; `p` has no password field, so the password stays. */
  function MergeStored(u: StoredUser, p: UserPatch): StoredUser {
    StoredUser(
      p.id.GetOr(u.id),
      p.email.GetOr(u.email),
      u.password,
      p.firstName.GetOr(u.firstName),
      p.lastName.GetOr(u.lastName),
      if p.phone.Some? then p.phone else u.phone)
  }

  /** A snapshot of the store: in-memory session, durable session marker, durable account list. */
  datatype AuthState = AuthState(user: Option<User>, currentUser: Option<User>, users: seq<StoredUser>)

  /** The in-memory session and the durable marker agree. */
  predicate Synced(s: AuthState) {
    s.user == s.currentUser
  }

  /** `isAuthenticated: !!user`. */
  predicate Authenticated(s: AuthState) {
    s.user.Some?
  }

  /** A page load: a new provider over the same storage starts with no in-memory session. */
  function Reload(s: AuthState): AuthState {
    AuthState(None, s.currentUser, s.users)
  }

  /** The mount effect: a stored marker, when there is one, becomes the session. */
  function RestoreStep(s: AuthState): AuthState {
    if s.currentUser.Some? then s.(user := s.currentUser) else s
  }

  /** `register`: refuse a taken email, otherwise append a new account. */
  function RegisterStep(s: AuthState, email: string, password: string, firstName: string, lastName: string, id: string): (AuthState, bool) {
    if FirstMatch(s.users, EmailIs(email)).Some? then (s, false)
    else (s.(users := s.users + [NewAccount(id, email, password, firstName, lastName)]), true)
  }

  /** `login`: the first account with both fields equal becomes the session, without its password. */
  function LoginStep(s: AuthState, email: string, password: string): (AuthState, bool) {
    match FirstMatch(s.users, CredentialsAre(email, password))
    case None => (s, false)
    case Some(k) =>
      var session := Some(WithoutPassword(s.users[k]));
      (s.(user := session, currentUser := session), true)
  }

  /** `logout`: both session slots are cleared. */
  function LogoutStep(s: AuthState): AuthState {
    s.(user := None, currentUser := None)
  }

  /**
   * `updateUser`: without a session nothing happens; otherwise the merged
   * session is written to both session slots, and the first account whose id
   * is the OLD session id, if any, is merged too.
   */
  function UpdateStep(s: AuthState, p: UserPatch): (AuthState, bool) {
    match s.user
    case None => (s, false)
    case Some(u) =>
      var session := Some(MergeUser(u, p));
      var users := match FirstMatch(s.users, IdIs(u.id))
        case None => s.users
        case Some(k) => s.users[k := MergeStored(s.users[k], p)];
      (AuthState(session, session, users), true)
  }

  class AuthProvider {
    /** React state `user`. */
    var user: Option<User>
    /** Local-storage key `currentUser`. */
    var currentUser: Option<User>
    /** Local-storage key `users`. */
    var users: seq<StoredUser>

    function State(): AuthState
      reads this
    {
      AuthState(user, currentUser, users)
    }

    /** `isAuthenticated`; once the slots are synced it is the presence of the durable marker. */
    function IsAuthenticated(): (b: bool)
      reads this
      ensures b == Authenticated(State())
      ensures Synced(State()) ==> (b <==> currentUser.Some?)
    {
      user.Some?
    }

    /** The provider of a fresh page: storage as found, no session in memory yet. */
    constructor (storedUsers: seq<StoredUser>, storedSession: Option<User>)
      ensures State() == Reload(AuthState(None, storedSession, storedUsers))
    {
      user := None;
      currentUser := storedSession;
      users := storedUsers;
    }

    method RestoreSession()
      modifies this
      ensures State() == RestoreStep(old(State()))
    {
      if currentUser.Some? {
        user := currentUser;
      }
    }

    method Register(email: string, password: string, firstName: string, lastName: string, id: string) returns (ok: bool)
      modifies this
      ensures (State(), ok) == RegisterStep(old(State()), email, password, firstName, lastName, id)
    {
      var existing := FirstMatch(users, EmailIs(email));
      if existing.Some? {
        return false;
      }
      var newUser := NewAccount(id, email, password, firstName, lastName);
      users := users + [newUser];
      return true;
    }

    method Login(email: string, password: string) returns (ok: bool)
      modifies this
      ensures (State(), ok) == LoginStep(old(State()), email, password)
    {
      var found := FirstMatch(users, CredentialsAre(email, password));
      if found.Some? {
        var session := WithoutPassword(users[found.value]);
        user := Some(session);
        currentUser := Some(session);
        return true;
      }
      return false;
    }

    method Logout()
      modifies this
      ensures State() == LogoutStep(old(State()))
    {
      user := None;
      currentUser := None;
    }

    method UpdateUser(p: UserPatch) returns (ok: bool)
      modifies this
      ensures (State(), ok) == UpdateStep(old(State()), p)
    {
      if user.None? {
        return false;
      }
      var old_ := user.value;
      var newUser := MergeUser(old_, p);
      user := Some(newUser);
      currentUser := Some(newUser);
      var userIndex := FirstMatch(users, IdIs(old_.id));
      if userIndex.Some? {
        users := users[userIndex.value := MergeStored(users[userIndex.value], p)];
      }
      return true;
    }
  }

  // ---------------------------------------------------------------------------
  // What the steps promise.

  /** `register` fails exactly when the email is taken; it then changes nothing. */
  lemma RegisterResult(s: AuthState, email: string, password: string, firstName: string, lastName: string, id: string)
    ensures var (t, ok) := RegisterStep(s, email, password, firstName, lastName, id);
      && (ok <==> !EmailTaken(s.users, email))
      && (!ok ==> t == s)
  {
  }

  /** A successful `register` appends exactly one account and leaves the earlier ones and both session slots alone. */
  lemma RegisterAppends(s: AuthState, email: string, password: string, firstName: string, lastName: string, id: string)
    ensures var (t, ok) := RegisterStep(s, email, password, firstName, lastName, id);
      && t.user == s.user && t.currentUser == s.currentUser
      && (ok ==>
        && |t.users| == |s.users| + 1
        && t.users[..|s.users|] == s.users
        && t.users[|s.users|] == StoredUser(id, email, password, firstName, lastName, None))
  {
  }

  /** `register` keeps account emails unique. */
  lemma RegisterKeepsEmailsUnique(s: AuthState, email: string, password: string, firstName: string, lastName: string, id: string)
    requires UniqueEmails(s.users)
    ensures UniqueEmails(RegisterStep(s, email, password, firstName, lastName, id).0.users)
  {
  }

  /** `login` succeeds exactly when some account has both the email and the password. */
  lemma LoginResult(s: AuthState, email: string, password: string)
    ensures var (t, ok) := LoginStep(s, email, password);
      && (ok <==> exists k :: 0 <= k < |s.users| && s.users[k].email == email && s.users[k].password == password)
      && (!ok ==> t == s)
      && t.users == s.users
  {
  }

  /** On success the session, in memory and in storage, is the FIRST matching account without its password. */
  lemma LoginSession(s: AuthState, email: string, password: string, k: nat)
    requires k < |s.users| && s.users[k].email == email && s.users[k].password == password
    requires forall j :: 0 <= j < k ==> !(s.users[j].email == email && s.users[j].password == password)
    ensures var (t, ok) := LoginStep(s, email, password);
      && ok
      && t.user == Some(User(s.users[k].id, email, s.users[k].firstName, s.users[k].lastName, s.users[k].phone))
      && t.currentUser == t.user
  {
  }

  /** `logout` clears both session slots whatever they held, keeps the accounts, and is idempotent. */
  lemma LogoutClears(s: AuthState)
    ensures LogoutStep(s).user == None && LogoutStep(s).currentUser == None
    ensures LogoutStep(s).users == s.users
    ensures LogoutStep(LogoutStep(s)) == LogoutStep(s)
    ensures !Authenticated(LogoutStep(s))
  {
  }

  /** After `logout`, a reload restores no session. */
  lemma LogoutThenReload(s: AuthState)
    ensures !Authenticated(RestoreStep(Reload(LogoutStep(s))))
  {
  }

  /** `updateUser` without a session returns false and changes nothing. */
  lemma UpdateWithoutSession(s: AuthState, p: UserPatch)
    requires s.user.None?
    ensures UpdateStep(s, p) == (s, false)
  {
  }

  /** With a session, the session becomes the merge and the first record with the session id, if any, is merged. */
  lemma UpdateWithSession(s: AuthState, p: UserPatch)
    requires s.user.Some?
    ensures var (t, ok) := UpdateStep(s, p);
      && ok
      && t.user == Some(MergeUser(s.user.value, p)) && t.currentUser == t.user
      && |t.users| == |s.users|
      && ((forall k :: 0 <= k < |s.users| ==> s.users[k].id != s.user.value.id) ==> t.users == s.users)
  {
  }

  /** Exactly the first record with the session id is merged; its password is kept and all other records stay. */
  lemma UpdateMergesFirstById(s: AuthState, p: UserPatch, k: nat)
    requires s.user.Some? && k < |s.users| && s.users[k].id == s.user.value.id
    requires forall j :: 0 <= j < k ==> s.users[j].id != s.user.value.id
    ensures var t := UpdateStep(s, p).0;
      && t.users[k] == MergeStored(s.users[k], p)
      && t.users[k].password == s.users[k].password
      && forall j :: 0 <= j < |s.users| && j != k ==> t.users[j] == s.users[j]
  {
  }

  /** The session merge and the record merge agree: the merged record without its password is the merged session. */
  lemma MergeAgrees(u: StoredUser, p: UserPatch)
    ensures WithoutPassword(MergeStored(u, p)) == MergeUser(WithoutPassword(u), p)
  {
  }

  /** A session that some stored account backs: the session is that account without its password. */
  ghost predicate SessionBacked(s: AuthState) {
    s.user.Some? ==> exists k :: 0 <= k < |s.users| && WithoutPassword(s.users[k]) == s.user.value
  }

  /** Every step keeps the session slots synced, and login, logout and update establish it. */
  lemma StepsKeepSynced(s: AuthState, email: string, password: string, firstName: string, lastName: string, id: string, p: UserPatch)
    ensures Synced(s) ==> Synced(RegisterStep(s, email, password, firstName, lastName, id).0)
    ensures Synced(s) ==> Synced(LoginStep(s, email, password).0)
    ensures LoginStep(s, email, password).1 ==> Synced(LoginStep(s, email, password).0)
    ensures Synced(LogoutStep(s))
    ensures Synced(s) ==> Synced(UpdateStep(s, p).0)
    ensures UpdateStep(s, p).1 ==> Synced(UpdateStep(s, p).0)
    ensures Synced(RestoreStep(Reload(s)))
  {
  }

  /** A successful login leaves a backed session, and register does not unback one. */
  lemma {:induction false} LoginAndRegisterKeepSessionBacked(s: AuthState, email: string, password: string, firstName: string, lastName: string, id: string)
    ensures LoginStep(s, email, password).1 ==> SessionBacked(LoginStep(s, email, password).0)
    ensures SessionBacked(s) ==> SessionBacked(RegisterStep(s, email, password, firstName, lastName, id).0)
  {
    var (t, ok) := LoginStep(s, email, password);
    if ok {
      var k := FirstMatch(s.users, CredentialsAre(email, password)).value;
      assert WithoutPassword(t.users[k]) == t.user.value;
    }
    var (t2, ok2) := RegisterStep(s, email, password, firstName, lastName, id);
    if SessionBacked(s) && s.user.Some? {
      var k :| 0 <= k < |s.users| && WithoutPassword(s.users[k]) == s.user.value;
      assert t2.users[k] == s.users[k];
    }
  }

  /** When ids are unique, an update keeps a backed session backed by the merged record. */
  lemma {:induction false} UpdateKeepsSessionBacked(s: AuthState, p: UserPatch)
    requires UniqueIds(s.users) && SessionBacked(s)
    ensures SessionBacked(UpdateStep(s, p).0)
  {
    if s.user.Some? {
      var k :| 0 <= k < |s.users| && WithoutPassword(s.users[k]) == s.user.value;
      forall j | 0 <= j < k ensures s.users[j].id != s.user.value.id { }
      UpdateMergesFirstById(s, p, k);
      var t := UpdateStep(s, p).0;
      MergeAgrees(s.users[k], p);
      assert WithoutPassword(t.users[k]) == t.user.value;
    }
  }

  /** Restoring trusts the durable marker: a marker that no account backs still becomes the session. */
  lemma RestoreDoesNotCheckAccounts()
    ensures var u := User("1", "a@x.com", "A", "B", None);
      var t := RestoreStep(Reload(AuthState(None, Some(u), [])));
      && t.user == Some(u) && !SessionBacked(t)
  {
  }

  /** `updateUser` does not re-check emails: an update can give two accounts the same email. */
  lemma UpdateCanDuplicateEmails()
    ensures var a := StoredUser("1", "a@x.com", "secret1", "A", "B", None);
      var b := StoredUser("2", "b@x.com", "secret2", "C", "D", None);
      var s := AuthState(Some(WithoutPassword(a)), Some(WithoutPassword(a)), [a, b]);
      var p := UserPatch(None, Some("b@x.com"), None, None, None);
      && UniqueEmails(s.users)
      && UpdateStep(s, p).1
      && !UniqueEmails(UpdateStep(s, p).0.users)
  {
    var a := StoredUser("1", "a@x.com", "secret1", "A", "B", None);
    var b := StoredUser("2", "b@x.com", "secret2", "C", "D", None);
    var s := AuthState(Some(WithoutPassword(a)), Some(WithoutPassword(a)), [a, b]);
    var p := UserPatch(None, Some("b@x.com"), None, None, None);
    assert Matches(s.users[0], IdIs("1"));
    var t := UpdateStep(s, p).0;
    assert t.users[0].email == t.users[1].email;
  }

  /** Registering, then logging in with the same credentials, yields the new account's session. */
  lemma {:induction false} RegisterThenLogin(s: AuthState, email: string, password: string, firstName: string, lastName: string, id: string)
    ensures var (t, ok) := RegisterStep(s, email, password, firstName, lastName, id);
      ok ==>
        var (t', ok') := LoginStep(t, email, password);
        ok' && t'.user == Some(User(id, email, firstName, lastName, None))
  {
    var (t, ok) := RegisterStep(s, email, password, firstName, lastName, id);
    if ok {
      var n := |s.users|;
      forall j | 0 <= j < n ensures !(t.users[j].email == email && t.users[j].password == password) {
        assert t.users[j] == s.users[j];
        assert !Matches(s.users[j], EmailIs(email));
      }
      LoginSession(t, email, password, n);
    }
  }

  /** A second registration with the same email fails, whatever the other fields. */
  lemma {:induction false} RegisterTwice(s: AuthState, email: string, password: string, firstName: string, lastName: string, id: string,
                                         password': string, firstName': string, lastName': string, id': string)
    ensures var t := RegisterStep(s, email, password, firstName, lastName, id).0;
      var (t', ok') := RegisterStep(t, email, password', firstName', lastName', id');
      !ok' && t' == t
  {
    var (t, ok) := RegisterStep(s, email, password, firstName, lastName, id);
    if ok {
      assert Matches(t.users[|s.users|], EmailIs(email));
    } else {
      var k := FirstMatch(s.users, EmailIs(email)).value;
      assert Matches(t.users[k], EmailIs(email));
    }
  }
}
