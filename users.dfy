/** User administration (server/routes/users.js) over an in-memory user
    table: listing without passwords, creation with a duplicate check,
    partial updates guarded against demoting the last admin, and deletion
    guarded against removing oneself or the last admin. */
module Users {
  import opened Common
  import opened Models
  import opened Sorting

  /** A user as the handlers return it: `select('-password')` /
      `delete userResponse.password`. There is no password field. */
  datatype UserView = UserView(id: Id, username: string, email: string, role: Role)

  function PublicView(u: User): (v: UserView)
    ensures v.id == u.id && v.username == u.username && v.email == u.email && v.role == u.role
  {
    UserView(u.id, u.username, u.email, u.role)
  }

  /** The view drops the password and nothing else: two users have the
      same view exactly when they agree on every other field. */
  lemma ViewForgetsOnlyPassword(u: User, w: User)
    ensures PublicView(u) == PublicView(w) <==> u.(password := w.password) == w
  {
  }

  // ------------------------------------------------------------------
  // Table invariants
  // ------------------------------------------------------------------

  /** What the schema guarantees of every stored user; a stored password
      is a hash, so at least as long as the `minlength` asks. */
  predicate StoredUserValid(u: User) {
    JsLength(u.username) >= 3 && u.email != "" && JsLength(u.password) >= 6
  }

  /** Both `unique` indexes hold, every key is the user's id, and ids below
      the counter are the only ones used. */
  predicate UsersInvariant(users: map<Id, User>, nextUserId: nat) {
    && (forall k :: k in users ==> users[k].id == k && k < nextUserId && StoredUserValid(users[k]))
    && (forall a, b :: a in users && b in users && a != b ==> users[a].email != users[b].email)
    && (forall a, b :: a in users && b in users && a != b ==> users[a].username != users[b].username)
  }

  predicate EmailTaken(users: map<Id, User>, email: string) {
    exists k :: k in users && users[k].email == email
  }

  predicate UsernameTaken(users: map<Id, User>, username: string) {
    exists k :: k in users && users[k].username == username
  }

  lemma InsertKeepsInvariant(users: map<Id, User>, nextUserId: nat, u: User)
    requires UsersInvariant(users, nextUserId)
    requires u.id == nextUserId && StoredUserValid(u)
    requires !EmailTaken(users, u.email) && !UsernameTaken(users, u.username)
    ensures nextUserId !in users
    ensures UsersInvariant(users[nextUserId := u], nextUserId + 1)
  {
  }

  lemma ReplaceKeepsInvariant(users: map<Id, User>, nextUserId: nat, u: User)
    requires UsersInvariant(users, nextUserId)
    requires u.id in users && StoredUserValid(u)
    requires !EmailTaken(users - {u.id}, u.email) && !UsernameTaken(users - {u.id}, u.username)
    ensures UsersInvariant(users[u.id := u], nextUserId)
  {
    var users' := users[u.id := u];
    forall a, b | a in users' && b in users' && a != b
      ensures users'[a].email != users'[b].email && users'[a].username != users'[b].username
    {
      if a == u.id {
        assert b in users - {u.id};
      } else if b == u.id {
        assert a in users - {u.id};
      }
    }
  }

  // ------------------------------------------------------------------
  // Admin count
  // ------------------------------------------------------------------

  /** `User.countDocuments({ role: 'admin' })` counts this set. */
  function AdminIds(users: map<Id, User>): set<Id> {
    set k | k in users && users[k].role == Admin
  }

  /** Removing a user keeps an admin whenever the removed user was not the
      only one. */
  lemma RemovingKeepsAnAdmin(users: map<Id, User>, id: Id)
    requires id in users && |AdminIds(users)| >= 1
    requires users[id].role == Admin ==> |AdminIds(users)| >= 2
    ensures |AdminIds(users - {id})| >= 1
  {
    if users[id].role == Admin {
      assert AdminIds(users - {id}) == AdminIds(users) - {id};
    } else {
      assert AdminIds(users - {id}) == AdminIds(users);
    }
  }

  /** Replacing a user keeps an admin unless the only admin is demoted. */
  lemma ReplacingKeepsAnAdmin(users: map<Id, User>, u: User)
    requires u.id in users && |AdminIds(users)| >= 1
    requires users[u.id].role == Admin && u.role != Admin ==> |AdminIds(users)| >= 2
    ensures |AdminIds(users[u.id := u])| >= 1
  {
    var after := AdminIds(users[u.id := u]);
    if u.role == Admin {
      assert u.id in after;
    } else if users[u.id].role == Admin {
      assert after == AdminIds(users) - {u.id};
    } else {
      assert after == AdminIds(users);
    }
  }

  // ------------------------------------------------------------------
  // Password changes on update
  // ------------------------------------------------------------------

  /** The stored password after PUT /api/users/:id as the handler is
      written: a supplied password is hashed by the handler, and because the
      path is then modified the `pre('save')` hook hashes it a second time. */
  function StoredPasswordAsWritten(current: string, password: Option<string>): (stored: string)
    ensures !Given(password) ==> stored == current
    ensures Given(password) ==> |stored| == |password.value| + 2 * |HashPrefix|
  {
    if Given(password) then PreSave(Hash(password.value), true) else PreSave(current, false)
  }

  /** As written, the new password no longer logs in. */
  lemma AsWrittenLocksOut(current: string, p: string, attempt: string)
    requires p != ""
    ensures PasswordMatches(attempt, StoredPasswordAsWritten(current, Some(p))) <==> attempt == Hash(p)
    ensures !PasswordMatches(p, StoredPasswordAsWritten(current, Some(p)))
  {
    if PasswordMatches(attempt, StoredPasswordAsWritten(current, Some(p))) {
      HashInjective(attempt, Hash(p));
    }
    assert |Hash(p)| != |p|;
  }

  /** The value the `minlength: 6` validator sees as written: the
      handler's hash, never the plain text. */
  function PasswordValidatedAsWritten(current: string, password: Option<string>): (checked: string)
    ensures Given(password) ==> JsLength(checked) >= 6
  {
    if Given(password) then Hash(password.value) else current
  }

  /** As written, a one-character password passes validation. */
  lemma AsWrittenAcceptsShortPassword(current: string, isEmail: string -> bool)
    ensures var checked := PasswordValidatedAsWritten(current, Some("a"));
      "password" !in UserErrors(UserDoc(None, None, Some(checked), None), isEmail)
  {
  }

  /** The evidently intended update: the plain password is assigned, the
      validator sees it, and the hook hashes it once. */
  function StoredPasswordCorrected(current: string, password: Option<string>): (stored: string)
    ensures !Given(password) ==> stored == current
  {
    if Given(password) then PreSave(password.value, true) else PreSave(current, false)
  }

  function PasswordValidatedCorrected(current: string, password: Option<string>): (checked: string)
    ensures Given(password) ==> checked == password.value
    ensures !Given(password) ==> checked == current
  {
    if Given(password) then password.value else current
  }

  /** Corrected, exactly the new password logs in, and a short one is
      rejected by the validator. */
  lemma CorrectedKeepsLogin(current: string, p: string, attempt: string, isEmail: string -> bool)
    requires p != ""
    ensures PasswordMatches(attempt, StoredPasswordCorrected(current, Some(p))) <==> attempt == p
    ensures "password" in UserErrors(UserDoc(None, None, Some(PasswordValidatedCorrected(current, Some(p))), None), isEmail)
            <==> JsLength(p) < 6
  {
    PreSaveKeepsLogin(p, p, attempt);
  }

  // ------------------------------------------------------------------
  // Update semantics
  // ------------------------------------------------------------------

  /** The document after `if (x !== undefined) user.x = x` for each field:
      assigned fields go through their setters, the others keep their
      stored value; the password path holds what the validator sees. */
  function AppliedDoc(target: User, body: UserDoc): (d: UserDoc)
    ensures d.username.Some? && d.email.Some? && d.password.Some? && d.role.Some?
    ensures d.username.value == if body.username.Some? then Trim(body.username.value) else target.username
    ensures d.email.value == if body.email.Some? then Lower(Trim(body.email.value)) else target.email
    ensures d.password.value == if Given(body.password) then body.password.value else target.password
    ensures d.role.value == if body.role.Some? then body.role.value else RoleName(target.role)
  {
    UserDoc(
      Some(if body.username.Some? then NormalizeUsername(body.username.value) else target.username),
      Some(if body.email.Some? then NormalizeEmail(body.email.value) else target.email),
      Some(PasswordValidatedCorrected(target.password, body.password)),
      Some(if body.role.Some? then body.role.value else RoleName(target.role)))
  }

  /** The user saved by an accepted update. */
  function UpdatedUser(target: User, body: UserDoc): (u: User)
    requires ParseRole(AppliedDoc(target, body).role.value).Some?
  {
    var d := AppliedDoc(target, body);
    User(target.id, d.username.value, d.email.value,
         StoredPasswordCorrected(target.password, body.password), ParseRole(d.role.value).value)
  }

  /** An update changes only what the request supplies: omitted fields keep
      their stored value, a supplied password is the one that logs in. */
  lemma UpdateTouchesOnlyGivenFields(target: User, body: UserDoc, attempt: string)
    requires ParseRole(AppliedDoc(target, body).role.value).Some?
    ensures var u := UpdatedUser(target, body);
      && u.id == target.id
      && (body.username.None? ==> u.username == target.username)
      && (body.username.Some? ==> u.username == Trim(body.username.value))
      && (body.email.None? ==> u.email == target.email)
      && (body.email.Some? ==> u.email == Lower(Trim(body.email.value)))
      && (body.role.None? ==> u.role == target.role)
      && (body.role.Some? ==> RoleName(u.role) == body.role.value)
      && (!Given(body.password) ==> u.password == target.password)
      && (Given(body.password) ==> (PasswordMatches(attempt, u.password) <==> attempt == body.password.value))
  {
    if body.role.None? {
      assert ParseRole(RoleName(target.role)) == Some(target.role);
    }
    if Given(body.password) {
      PreSaveKeepsLogin(body.password.value, body.password.value, attempt);
    }
  }

  /** The first demotion guard (users.js:83-88). An omitted role counts as
      "not admin". */
  predicate DemotionBlocked(users: map<Id, User>, id: Id, body: UserDoc)
    requires id in users
  {
    users[id].role == Admin && body.role != Some("admin") && |AdminIds(users)| <= 1
  }

  /** The second, self-demotion guard (users.js:90-95). */
  predicate SelfDemotionBlocked(users: map<Id, User>, actor: Id, id: Id, body: UserDoc)
    requires id in users
  {
    actor == id && users[id].role == Admin && body.role != Some("admin") && |AdminIds(users)| <= 1
  }

  /** Whenever the second guard would reject, the first already has. */
  lemma SelfDemotionGuardSubsumed(users: map<Id, User>, actor: Id, id: Id, body: UserDoc)
    requires id in users
    ensures SelfDemotionBlocked(users, actor, id, body) ==> DemotionBlocked(users, id, body)
  {
  }

  /** Validation and both unique indexes accept the updated document. */
  predicate UpdateAccepted(users: map<Id, User>, id: Id, body: UserDoc, isEmail: string -> bool)
    requires id in users
  {
    var d := AppliedDoc(users[id], body);
    && UserErrors(d, isEmail) == {}
    && !EmailTaken(users - {id}, d.email.value)
    && !UsernameTaken(users - {id}, d.username.value)
  }

  /** Validation and the duplicate check accept a new user. */
  predicate CreateAccepted(users: map<Id, User>, doc: UserDoc, isEmail: string -> bool) {
    && !(doc.email.Some? && EmailTaken(users, doc.email.value))
    && !(doc.username.Some? && UsernameTaken(users, doc.username.value))
    && UserErrors(doc, isEmail) == {}
  }

  /** The user created from an accepted document. */
  function NewUser(id: Id, doc: UserDoc, isEmail: string -> bool): (u: User)
    requires UserErrors(doc, isEmail) == {}
  {
    User(id, doc.username.value, doc.email.value, PreSave(doc.password.value, true), RoleOrDefault(doc.role))
  }

  // ------------------------------------------------------------------
  // The store
  // ------------------------------------------------------------------

  class UserStore {
    var users: map<Id, User>
    var nextUserId: nat

    ghost predicate Valid()
      reads this
    {
      UsersInvariant(users, nextUserId)
    }

    constructor ()
      ensures Valid() && users == map[]
    {
      users, nextUserId := map[], 0;
    }

    /** Inserts a user whose email and username are free, hashing the
        plain password once (`save` on a new document). */
    method Register(username: string, email: string, plain: string, role: Role) returns (u: User)
      requires Valid()
      requires JsLength(username) >= 3 && email != ""
      requires !EmailTaken(users, email) && !UsernameTaken(users, username)
      modifies this
      ensures Valid()
      ensures u == User(old(nextUserId), username, email, Hash(plain), role)
      ensures old(nextUserId) !in old(users) && users == old(users)[old(nextUserId) := u]
    {
      u := User(nextUserId, username, email, PreSave(plain, true), role);
      InsertKeepsInvariant(users, nextUserId, u);
      users := users[nextUserId := u];
      nextUserId := nextUserId + 1;
    }

    /** POST /api/users. */
    method CreateUser(body: UserDoc, isEmail: string -> bool) returns (status: int, view: Option<UserView>)
      requires Valid()
      modifies this
      ensures Valid()
      ensures var doc := NormalizeUser(body);
        if CreateAccepted(old(users), doc, isEmail) then
          && status == CREATED
          && users == old(users)[old(nextUserId) := NewUser(old(nextUserId), doc, isEmail)]
          && old(nextUserId) !in old(users)
          && view == Some(PublicView(users[old(nextUserId)]))
        else
          status == BAD_REQUEST && view == None && users == old(users)
    {
      var doc := NormalizeUser(body);
      if (doc.email.Some? && EmailTaken(users, doc.email.value)) ||
         (doc.username.Some? && UsernameTaken(users, doc.username.value)) {
        return BAD_REQUEST, None;
      }
      if UserErrors(doc, isEmail) != {} {
        return BAD_REQUEST, None;
      }
      var u := Register(doc.username.value, doc.email.value, doc.password.value, RoleOrDefault(doc.role));
      status, view := CREATED, Some(PublicView(u));
    }

    /** PUT /api/users/:id by the signed-in admin `actor`. */
    method UpdateUser(actor: Id, id: Id, body: UserDoc, isEmail: string -> bool)
      returns (status: int, view: Option<UserView>)
      requires Valid()
      modifies this
      ensures Valid()
      ensures id !in old(users) ==> status == NOT_FOUND && view == None && users == old(users)
      ensures id in old(users) && DemotionBlocked(old(users), id, body) ==>
        status == BAD_REQUEST && view == None && users == old(users)
      ensures id in old(users) && !DemotionBlocked(old(users), id, body) ==>
        if UpdateAccepted(old(users), id, body, isEmail) then
          && ParseRole(AppliedDoc(old(users)[id], body).role.value).Some?
          && status == OK
          && users == old(users)[id := UpdatedUser(old(users)[id], body)]
          && view == Some(PublicView(users[id]))
        else
          status == BAD_REQUEST && view == None && users == old(users)
      ensures |AdminIds(old(users))| >= 1 ==> |AdminIds(users)| >= 1
      ensures nextUserId == old(nextUserId)
    {
      if id !in users {
        return NOT_FOUND, None;
      }
      var target := users[id];
      if target.role == Admin && body.role != Some("admin") && |AdminIds(users)| <= 1 {
        return BAD_REQUEST, None;
      }
      SelfDemotionGuardSubsumed(users, actor, id, body);
      var doc := AppliedDoc(target, body);
      if UserErrors(doc, isEmail) != {} ||
         EmailTaken(users - {id}, doc.email.value) || UsernameTaken(users - {id}, doc.username.value) {
        return BAD_REQUEST, None;
      }
      var u := UpdatedUser(target, body);
      ReplaceKeepsInvariant(users, nextUserId, u);
      if |AdminIds(users)| >= 1 {
        ReplacingKeepsAnAdmin(users, u);
      }
      users := users[id := u];
      status, view := OK, Some(PublicView(u));
    }

    /** DELETE /api/users/:id by the signed-in admin `actor`. */
    method DeleteUser(actor: Id, id: Id) returns (status: int)
      requires Valid()
      modifies this
      ensures Valid()
      ensures actor == id ==> status == BAD_REQUEST && users == old(users)
      ensures actor != id && id in old(users) && old(users)[id].role == Admin && |AdminIds(old(users))| <= 1 ==>
        status == BAD_REQUEST && users == old(users)
      ensures actor != id && id !in old(users) ==> status == NOT_FOUND && users == old(users)
      ensures actor != id && id in old(users) && !(old(users)[id].role == Admin && |AdminIds(old(users))| <= 1) ==>
        status == NO_CONTENT && users == old(users) - {id}
      ensures |AdminIds(old(users))| >= 1 ==> |AdminIds(users)| >= 1
      ensures nextUserId == old(nextUserId)
    {
      if actor == id {
        return BAD_REQUEST;
      }
      if id in users && users[id].role == Admin && |AdminIds(users)| <= 1 {
        return BAD_REQUEST;
      }
      if id !in users {
        return NOT_FOUND;
      }
      if |AdminIds(users)| >= 1 {
        RemovingKeepsAnAdmin(users, id);
      }
      users := users - {id};
      status := NO_CONTENT;
    }
  }

  // ------------------------------------------------------------------
  // Read-only queries
  // ------------------------------------------------------------------

  function ViewEmail(v: UserView): string {
    v.email
  }

  function Views(us: seq<User>): (vs: seq<UserView>)
    ensures |vs| == |us|
    ensures forall i :: 0 <= i < |us| ==> vs[i] == PublicView(us[i])
  {
    if us == [] then [] else [PublicView(us[0])] + Views(us[1..])
  }

  /** The view of a looked-up user is listed exactly when one of the keys
      names that user. */
  lemma ViewsOfLookup(users: map<Id, User>, ks: seq<Id>, v: UserView)
    requires forall k :: k in ks ==> k in users
    ensures v in Views(Lookup(users, ks)) <==> exists k :: k in ks && PublicView(users[k]) == v
  {
    var vs := Views(Lookup(users, ks));
    if v in vs {
      var i :| 0 <= i < |vs| && vs[i] == v;
      assert ks[i] in ks && PublicView(users[ks[i]]) == v;
    }
    if exists k :: k in ks && PublicView(users[k]) == v {
      var k :| k in ks && PublicView(users[k]) == v;
      var i :| 0 <= i < |ks| && ks[i] == k;
      assert vs[i] == v;
    }
  }

  /** Any reordering of the views of all users, read through a key list
      that names every user, lists every user. */
  lemma ReorderedViewsListEveryUser(users: map<Id, User>, ks: seq<Id>, r: seq<UserView>)
    requires forall k :: k in ks <==> k in users
    requires multiset(r) == multiset(Views(Lookup(users, ks)))
    ensures forall v :: v in r <==> exists k :: k in users && PublicView(users[k]) == v
  {
    forall v ensures v in r <==> exists k :: k in users && PublicView(users[k]) == v {
      assert v in r <==> v in multiset(Views(Lookup(users, ks)));
      ViewsOfLookup(users, ks, v);
    }
  }

  lemma ReorderingKeepsLength<T>(r: seq<T>, s: seq<T>)
    requires multiset(r) == multiset(s)
    ensures |r| == |s|
  {
    assert |r| == |multiset(r)| == |multiset(s)| == |s|;
  }

  /** GET /api/users: every user once, without passwords, by email. */
  function ListUsers(users: map<Id, User>): (r: seq<UserView>)
    ensures SortedAsc(r, ViewEmail)
    ensures |r| == |users|
    ensures forall v :: v in r <==> exists k :: k in users && PublicView(users[k]) == v
  {
    var ks := SortedKeys(users.Keys);
    var r := SortAsc(Views(Lookup(users, ks)), ViewEmail);
    ReorderedViewsListEveryUser(users, ks, r);
    ReorderingKeepsLength(r, Views(Lookup(users, ks)));
    r
  }

  /** GET /api/users/:id. */
  function FindUser(users: map<Id, User>, id: Id): (r: (int, Option<UserView>))
    ensures id in users ==> r == (OK, Some(PublicView(users[id])))
    ensures id !in users ==> r == (NOT_FOUND, None)
  {
    if id in users then (OK, Some(PublicView(users[id]))) else (NOT_FOUND, None)
  }

  /** In a valid table the lookup by key is the lookup by `_id`: 200 exactly
      when some stored user has that id, and the view returned is that user's. */
  lemma FindUserAnswersThatUser(users: map<Id, User>, nextUserId: nat, id: Id)
    requires UsersInvariant(users, nextUserId)
    ensures var r := FindUser(users, id);
      && (r.0 == OK <==> exists u :: u in users.Values && u.id == id)
      && (r.1.Some? ==> r.1.value.id == id)
  {
    if exists u :: u in users.Values && u.id == id {
      var u :| u in users.Values && u.id == id;
      var k :| k in users && users[k] == u;
      assert k == id;
    }
    if id in users {
      assert users[id] in users.Values;
    }
  }
}
