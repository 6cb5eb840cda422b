/** Access control (server/middleware/auth.js) and the account routes
    (server/routes/auth.js): bearer-token authentication, role
    authorisation, signup with its ordered validation chain and duplicate
    checks, login with uniform failures, and the current-user endpoint.
    Token verification is a parameter `verify`; it may accept a token for
    any user id or fail in one of the ways `jsonwebtoken` reports. */
module Auth {
  import opened Common
  import opened Models
  import opened Sorting
  import opened Users

  // ------------------------------------------------------------------
  // Tokens and the Authorization header
  // ------------------------------------------------------------------

  /** The outcome of `jwt.verify`: the decoded user id, or the error's
      name (`TokenExpiredError`, `JsonWebTokenError`, `NotBeforeError`). */
  datatype TokenCheck = Verified(userId: Id) | Expired | Malformed | NotYetValid

  /** `jwt.verify(token, secret)`; verifying `undefined` throws a
      `JsonWebTokenError`. */
  function CheckToken(token: Option<string>, verify: string -> TokenCheck): TokenCheck {
    match token
    case None => Malformed
    case Some(t) => verify(t)
  }

  predicate StartsWith(s: string, prefix: string) {
    |prefix| <= |s| && s[..|prefix|] == prefix
  }

  /** The text up to the first space. */
  function UpToSpace(s: string): (r: string)
    ensures |r| <= |s| && r == s[..|r|]
    ensures ' ' !in r
    ensures |r| < |s| ==> s[|r|] == ' '
  {
    if s == [] || s[0] == ' ' then [] else [s[0]] + UpToSpace(s[1..])
  }

  /** `s.split(' ')[1]`: the field after the first space, `undefined` when
      there is no space. */
  function SecondField(s: string): (r: Option<string>)
    ensures r.None? <==> ' ' !in s
  {
    if s == [] then None
    else if s[0] == ' ' then Some(UpToSpace(s[1..]))
    else
      assert s == [s[0]] + s[1..];
      SecondField(s[1..])
  }

  /** From a well-formed `Bearer <token>` header the token is extracted
      intact. */
  lemma {:induction false} BearerTokenExtracted(t: string)
    requires ' ' !in t
    ensures SecondField("Bearer " + t) == Some(t)
  {
    var s := "Bearer " + t;
    assert s[6..] == " " + t;
    assert s[7..] == t;
    assert UpToSpace(t) == t;
    var i := 0;
    while i < 6
      invariant 0 <= i <= 6
      invariant SecondField(s) == SecondField(s[i..])
    {
      assert s[i..] == [s[i]] + s[i + 1..];
      i := i + 1;
    }
  }

  // ------------------------------------------------------------------
  // authenticateJWT
  // ------------------------------------------------------------------

  datatype AuthOutcome = Authenticated(user: User) | Rejected(status: int, message: string)

  /** `authenticateJWT`: the header must be present and start with
      `'Bearer '`; the token must verify; the user it names must exist.
      `Authenticated(u)` is the call to `next()` with `req.user = u`. */
  function AuthenticateJWT(users: map<Id, User>, header: Option<string>, verify: string -> TokenCheck)
    : (r: AuthOutcome)
    ensures r.Rejected? ==> r.status == UNAUTHORIZED
    ensures r.Authenticated? <==>
      && header.Some? && StartsWith(header.value, "Bearer ")
      && CheckToken(SecondField(header.value), verify).Verified?
      && CheckToken(SecondField(header.value), verify).userId in users
    ensures r.Authenticated? ==> r.user == users[CheckToken(SecondField(header.value), verify).userId]
  {
    if header.None? || !StartsWith(header.value, "Bearer ") then
      Rejected(UNAUTHORIZED, "No token provided")
    else
      match CheckToken(SecondField(header.value), verify)
      case Verified(id) =>
        if id in users then Authenticated(users[id]) else Rejected(UNAUTHORIZED, "User not found")
      case Expired => Rejected(UNAUTHORIZED, "Invalid token: Token expired")
      case Malformed => Rejected(UNAUTHORIZED, "Invalid token: Malformed or invalid signature")
      case NotYetValid => Rejected(UNAUTHORIZED, "Invalid token")
  }

  /** A missing or non-Bearer header is refused before the token is looked
      at: the answer is the same whatever the verifier does. */
  lemma HeaderCheckedBeforeVerify(users: map<Id, User>, header: Option<string>,
                                  verify1: string -> TokenCheck, verify2: string -> TokenCheck)
    requires header.None? || !StartsWith(header.value, "Bearer ")
    ensures AuthenticateJWT(users, header, verify1) == AuthenticateJWT(users, header, verify2)
    ensures AuthenticateJWT(users, header, verify1) == Rejected(UNAUTHORIZED, "No token provided")
  {
  }

  // ------------------------------------------------------------------
  // authorizeRole
  // ------------------------------------------------------------------

  /** The argument of `authorizeRole`: a single role or an array. */
  datatype AllowedRoles = One(role: string) | Many(roles: seq<string>)

  function RolesArray(allowed: AllowedRoles): seq<string> {
    match allowed
    case One(r) => [r]
    case Many(rs) => rs
  }

  datatype Decision = Proceed | Deny(status: int)

  /** `authorizeRole(allowed)` on a request whose user has role `userRole`
      (`None` when there is no user or the user has no role). */
  function AuthorizeRole(allowed: AllowedRoles, userRole: Option<string>): (d: Decision)
    ensures d == Proceed <==> Given(userRole) && userRole.value in RolesArray(allowed)
    ensures d != Proceed ==> d == Deny(FORBIDDEN)
  {
    if !Given(userRole) then Deny(FORBIDDEN)
    else if userRole.value !in RolesArray(allowed) then Deny(FORBIDDEN)
    else Proceed
  }

  /** A single role behaves exactly as the array holding just that role. */
  lemma SingleRoleIsListOfOne(r: string, userRole: Option<string>)
    ensures AuthorizeRole(One(r), userRole) == AuthorizeRole(Many([r]), userRole)
  {
  }

  /** `authenticateJWT` followed by `authorizeRole(allowed)`, as every
      protected route is mounted. */
  function Guard(users: map<Id, User>, header: Option<string>, verify: string -> TokenCheck,
                 allowed: AllowedRoles): Decision {
    match AuthenticateJWT(users, header, verify)
    case Rejected(status, _) => Deny(status)
    case Authenticated(u) => AuthorizeRole(allowed, Some(RoleName(u.role)))
  }

  /** Behind `authorizeRole('admin')` only a stored admin gets through: an
      unauthenticated request is refused with 401, a staff member with 403. */
  lemma AdminRoutesAdmitOnlyAdmins(users: map<Id, User>, header: Option<string>, verify: string -> TokenCheck)
    ensures var d := Guard(users, header, verify, One("admin"));
      && (d == Proceed ==> AuthenticateJWT(users, header, verify).Authenticated? &&
                           AuthenticateJWT(users, header, verify).user.role == Admin &&
                           AuthenticateJWT(users, header, verify).user in users.Values)
      && (AuthenticateJWT(users, header, verify).Rejected? ==> d == Deny(UNAUTHORIZED))
      && ((AuthenticateJWT(users, header, verify).Authenticated? &&
           AuthenticateJWT(users, header, verify).user.role == Staff) ==> d == Deny(FORBIDDEN))
  {
    var a := AuthenticateJWT(users, header, verify);
    if a.Authenticated? {
      assert a.user == users[CheckToken(SecondField(header.value), verify).userId];
      assert RoleName(Staff) != "admin";
    }
  }

  // ------------------------------------------------------------------
  // POST /api/auth/signup
  // ------------------------------------------------------------------

  datatype SignupBody = SignupBody(username: Option<string>, email: Option<string>,
                                   password: Option<string>, role: Option<string>)

  datatype SignupRejection = MissingFields | ShortUsername | ShortPassword | InvalidEmail

  predicate AllGiven(b: SignupBody) {
    Given(b.username) && Given(b.email) && Given(b.password)
  }

  /** The handler's own checks, in order; the first that fails is the one
      reported. `isEmail` is the email pattern. */
  function SignupCheck(b: SignupBody, isEmail: string -> bool): (r: Option<SignupRejection>)
    ensures r == Some(MissingFields) <==> !AllGiven(b)
    ensures r == Some(ShortUsername) <==> AllGiven(b) && JsLength(b.username.value) < 3
    ensures r == Some(ShortPassword) <==>
      AllGiven(b) && JsLength(b.username.value) >= 3 && JsLength(b.password.value) < 6
    ensures r == Some(InvalidEmail) <==>
      AllGiven(b) && JsLength(b.username.value) >= 3 && JsLength(b.password.value) >= 6 && !isEmail(b.email.value)
    ensures r.None? <==>
      AllGiven(b) && JsLength(b.username.value) >= 3 && JsLength(b.password.value) >= 6 && isEmail(b.email.value)
  {
    if !AllGiven(b) then Some(MissingFields)
    else if JsLength(b.username.value) < 3 then Some(ShortUsername)
    else if JsLength(b.password.value) < 6 then Some(ShortPassword)
    else if !isEmail(b.email.value) then Some(InvalidEmail)
    else None
  }

  /** `allowedRoles.includes(role) ? role : 'staff'`. */
  function SignupRole(role: Option<string>): (r: Role)
    ensures r == Admin <==> role == Some("admin")
    ensures role.Some? && (role.value == "admin" || role.value == "staff") ==> RoleName(r) == role.value
  {
    if role == Some("admin") then Admin else Staff
  }

  /** The document `User.create` receives, after the schema setters. */
  function SignupDoc(b: SignupBody): UserDoc
    requires AllGiven(b)
  {
    NormalizeUser(UserDoc(b.username, b.email, b.password, Some(RoleName(SignupRole(b.role)))))
  }

  /** The account a successful signup stores under `id`. */
  function SignedUpUser(id: Id, b: SignupBody): (u: User)
    requires AllGiven(b)
    ensures u.username == Trim(b.username.value) && u.email == Lower(Trim(b.email.value))
    ensures PasswordMatches(b.password.value, u.password)
    ensures u.role == SignupRole(b.role)
  {
    User(id, NormalizeUsername(b.username.value), NormalizeEmail(b.email.value),
         Hash(b.password.value), SignupRole(b.role))
  }

  /** POST /api/auth/signup. */
  method SignUp(store: UserStore, b: SignupBody, isEmail: string -> bool) returns (status: int, view: Option<UserView>)
    requires store.Valid()
    modifies store
    ensures store.Valid()
    ensures SignupCheck(b, isEmail).Some? ==>
      status == BAD_REQUEST && view == None && store.users == old(store.users)
    ensures SignupCheck(b, isEmail).None? && EmailTaken(old(store.users), NormalizeEmail(b.email.value)) ==>
      status == CONFLICT && view == None && store.users == old(store.users)
    ensures SignupCheck(b, isEmail).None? && !EmailTaken(old(store.users), NormalizeEmail(b.email.value)) &&
            UsernameTaken(old(store.users), NormalizeUsername(b.username.value)) ==>
      status == CONFLICT && view == None && store.users == old(store.users)
    ensures SignupCheck(b, isEmail).None? && !EmailTaken(old(store.users), NormalizeEmail(b.email.value)) &&
            !UsernameTaken(old(store.users), NormalizeUsername(b.username.value)) ==>
      if UserErrors(SignupDoc(b), isEmail) == {} then
        && status == CREATED
        && old(store.nextUserId) !in old(store.users)
        && store.users == old(store.users)[old(store.nextUserId) := SignedUpUser(old(store.nextUserId), b)]
        && view == Some(PublicView(SignedUpUser(old(store.nextUserId), b)))
      else
        status == BAD_REQUEST && view == None && store.users == old(store.users)
  {
    if SignupCheck(b, isEmail).Some? {
      return BAD_REQUEST, None;
    }
    var email := NormalizeEmail(b.email.value);
    var username := NormalizeUsername(b.username.value);
    if EmailTaken(store.users, email) {
      return CONFLICT, None;
    }
    if UsernameTaken(store.users, username) {
      return CONFLICT, None;
    }
    var role := SignupRole(b.role);
    if UserErrors(SignupDoc(b), isEmail) != {} {
      return BAD_REQUEST, None;
    }
    var u := store.Register(username, email, b.password.value, role);
    status, view := CREATED, Some(PublicView(u));
  }

  // ------------------------------------------------------------------
  // POST /api/auth/login and GET /api/auth/me
  // ------------------------------------------------------------------

  function EmailHolders(users: map<Id, User>, email: string): set<nat> {
    set k | k in users && users[k].email == email
  }

  /** `User.findOne({ email })`, the query value going through the
      schema's setters; the earliest matching document is returned. */
  function FindByEmail(users: map<Id, User>, email: string): (r: Option<User>)
    ensures r.Some? ==> r.value in users.Values && r.value.email == NormalizeEmail(email)
    ensures r.None? <==> !EmailTaken(users, NormalizeEmail(email))
  {
    var holders := EmailHolders(users, NormalizeEmail(email));
    if holders == {} then
      assert !EmailTaken(users, NormalizeEmail(email)) by {
        forall k | k in users ensures users[k].email != NormalizeEmail(email) {
          assert k !in holders;
        }
      }
      None
    else
      var k := MinOf(holders);
      Some(users[k])
  }

  datatype LoginResult = LoginResult(status: int, error: string, user: Option<UserView>)

  const InvalidCredentials: string := "Invalid credentials"

  /** `User.findOne({ email })` as the login handler issues it. Mongoose
      drops a filter path whose value is `undefined`, so an omitted email
      leaves the filter empty and the first stored user is returned. */
  function LoginLookup(users: map<Id, User>, email: Option<string>): (r: Option<User>)
    ensures email.Some? ==> r == FindByEmail(users, email.value)
    ensures email.None? ==> (r.None? <==> users == map[])
    ensures email.None? && r.Some? ==> exists k :: k in users && users[k] == r.value && forall j :: j in users ==> k <= j
  {
    if email.Some? then FindByEmail(users, email.value)
    else if users == map[] then None
    else
      var k := MinOf(users.Keys);
      Some(users[k])
  }

  /** POST /api/auth/login. A missing password is handed to
      `bcrypt.compare`, which rejects it, and the handler answers 500. */
  function Login(users: map<Id, User>, email: Option<string>, password: Option<string>): (r: LoginResult)
    ensures r.status == OK ==>
      && password.Some?
      && LoginLookup(users, email).Some?
      && PasswordMatches(password.value, LoginLookup(users, email).value.password)
      && r.user == Some(PublicView(LoginLookup(users, email).value))
    ensures r.status != OK ==> r.user == None
    ensures LoginLookup(users, email).None? ==> r == LoginResult(BAD_REQUEST, InvalidCredentials, None)
    ensures LoginLookup(users, email).Some? && password.None? ==> r.status == SERVER_ERROR
    ensures LoginLookup(users, email).Some? && password.Some? ==>
      (r.status == OK <==> PasswordMatches(password.value, LoginLookup(users, email).value.password)) &&
      (r.status != OK ==> r == LoginResult(BAD_REQUEST, InvalidCredentials, None))
  {
    var found := LoginLookup(users, email);
    if found.None? then LoginResult(BAD_REQUEST, InvalidCredentials, None)
    else if password.None? then LoginResult(SERVER_ERROR, "Login failed due to server error.", None)
    else if !PasswordMatches(password.value, found.value.password) then LoginResult(BAD_REQUEST, InvalidCredentials, None)
    else LoginResult(OK, "", Some(PublicView(found.value)))
  }

  /** With the email omitted, the first stored user's own password logs
      that user in, and no password at all gives 500. */
  lemma OmittedEmailLogsInFirstUser(users: map<Id, User>, k: Id, p: string)
    requires k in users && forall j :: j in users ==> k <= j
    ensures Login(users, None, Some(p)).status == OK <==> PasswordMatches(p, users[k].password)
    ensures Login(users, None, None).status == SERVER_ERROR
  {
    var r := LoginLookup(users, None).value;
    assert r == users[k];
  }

  /** An unknown email and a wrong password get the same answer, so the
      response does not reveal which accounts exist. */
  lemma LoginFailuresUniform(users: map<Id, User>, unknown: string, p1: Option<string>, known: string, wrong: string)
    requires !EmailTaken(users, NormalizeEmail(unknown))
    requires FindByEmail(users, known).Some? && !PasswordMatches(wrong, FindByEmail(users, known).value.password)
    ensures Login(users, Some(unknown), p1) == Login(users, Some(known), Some(wrong))
    ensures Login(users, Some(unknown), p1) == LoginResult(BAD_REQUEST, InvalidCredentials, None)
  {
  }

  /** Emails are unique, so the user found for an email is the one holding
      it. */
  lemma FindByEmailFindsHolder(users: map<Id, User>, nextUserId: nat, u: User, email: string)
    requires UsersInvariant(users, nextUserId)
    requires u.id in users && users[u.id] == u && u.email == NormalizeEmail(email)
    ensures FindByEmail(users, email) == Some(u)
  {
    var holders := EmailHolders(users, NormalizeEmail(email));
    assert u.id in holders;
    forall k | k in holders ensures k == u.id {
      assert users[k].email == users[u.id].email;
    }
    assert holders == {u.id};
  }

  /** Whoever signs up can log in with the same email and password. */
  lemma SignupThenLogin(users: map<Id, User>, nextUserId: nat, id: Id, b: SignupBody)
    requires AllGiven(b)
    requires UsersInvariant(users, nextUserId)
    requires id in users && users[id] == SignedUpUser(id, b)
    ensures Login(users, b.email, b.password) == LoginResult(OK, "", Some(PublicView(users[id])))
  {
    FindByEmailFindsHolder(users, nextUserId, users[id], b.email.value);
  }

  /** With the corrected update, a user whose password an admin changed
      logs in with the new password. */
  lemma PasswordChangeThenLogin(users: map<Id, User>, nextUserId: nat, id: Id, target: User,
                                body: UserDoc, email: string)
    requires UsersInvariant(users, nextUserId)
    requires ParseRole(AppliedDoc(target, body).role.value).Some?
    requires Given(body.password)
    requires id in users && users[id] == UpdatedUser(target, body)
    requires users[id].email == NormalizeEmail(email)
    ensures Login(users, Some(email), body.password).status == OK
  {
    UpdateTouchesOnlyGivenFields(target, body, body.password.value);
    FindByEmailFindsHolder(users, nextUserId, users[id], email);
  }

  /** GET /api/auth/me. Unlike the middleware it takes the second field of
      any non-empty header, and a `NotBeforeError` is answered with 500. */
  function Me(users: map<Id, User>, header: Option<string>, verify: string -> TokenCheck)
    : (r: (int, Option<UserView>))
    ensures !Given(header) ==> r == (UNAUTHORIZED, None)
    ensures r.0 == OK <==>
      Given(header) && CheckToken(SecondField(header.value), verify).Verified? &&
      CheckToken(SecondField(header.value), verify).userId in users
    ensures r.0 == OK ==> r.1 == Some(PublicView(users[CheckToken(SecondField(header.value), verify).userId]))
    ensures r.0 != OK ==> r.1 == None
  {
    if !Given(header) then (UNAUTHORIZED, None)
    else
      match CheckToken(SecondField(header.value), verify)
      case Verified(id) => if id in users then (OK, Some(PublicView(users[id]))) else (UNAUTHORIZED, None)
      case Expired => (UNAUTHORIZED, None)
      case Malformed => (UNAUTHORIZED, None)
      case NotYetValid => (SERVER_ERROR, None)
  }
}
