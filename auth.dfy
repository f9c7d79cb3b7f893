/** The authentication library: credential check and session issue
    (`authenticateUser`), session lookup (`validateSession`), logout (`logoutUser`)
    and the two role predicates. */
module Auth {
  import opened Common
  import opened Store
  import opened SessionToken

  /** bcrypt stays outside the model: `hash` stands for `hashPassword` and `verify`
      for `verifyPassword`. Nothing is assumed about either. */
  datatype Hasher = Hasher(hash: string -> string, verify: (string, string) -> bool)

  const INVALID_CREDENTIALS: string := "Invalid email or password"
  const ACCOUNT_DISABLED: string := "Account is disabled"
  const NO_SESSION_TOKEN: string := "No session token provided"
  const INVALID_SESSION: string := "Invalid or expired session"
  const LOGOUT_FAILED: string := "Logout failed"

  /** Seven days, in the seconds of the model's clock. */
  const SESSION_TTL_SECONDS: int := 7 * 24 * 60 * 60

  /** The user object a successful login returns. */
  datatype LoginUser = LoginUser(
    id: UserId, email: string, firstName: string, lastName: string, role: string, emailVerified: bool)

  /** The identity a valid session resolves to. */
  datatype Identity = Identity(id: UserId, email: string, firstName: string, lastName: string, role: string)

  datatype AuthResult = AuthSuccess(user: LoginUser, sessionToken: string) | AuthFailure(error: string)

  datatype SessionResult = SessionValid(user: Identity) | SessionInvalid(error: string)

  datatype LogoutResult = LogoutSuccess | LogoutFailure(error: string)

  function LoginUserOf(u: UserRecord): LoginUser {
    LoginUser(u.id, u.email, u.firstName, u.lastName, u.role.Name(), u.emailVerified)
  }

  /** What `authenticateUser` answers, given the user its email lookup found and the
      token it would issue: the password is checked before the active flag, and an
      unknown email reads exactly like a wrong password. */
  function AuthenticateOutcome(found: Option<UserRecord>, password: string, hasher: Hasher, token: string): (r: AuthResult)
    ensures r == AuthFailure(INVALID_CREDENTIALS) <==> found.None? || !hasher.verify(password, found.value.passwordHash)
    ensures r == AuthFailure(ACCOUNT_DISABLED) <==>
      found.Some? && hasher.verify(password, found.value.passwordHash) && !found.value.isActive
    ensures r.AuthSuccess? <==> found.Some? && hasher.verify(password, found.value.passwordHash) && found.value.isActive
    ensures r.AuthSuccess? ==> r.user == LoginUserOf(found.value) && r.sessionToken == token
  {
    if found.None? then AuthFailure(INVALID_CREDENTIALS)
    else if !hasher.verify(password, found.value.passwordHash) then AuthFailure(INVALID_CREDENTIALS)
    else if !found.value.isActive then AuthFailure(ACCOUNT_DISABLED)
    else AuthSuccess(LoginUserOf(found.value), token)
  }

  /** The store after a successful login of `userId` at `now` with `token`: one
      session added expiring seven days later, that user's last login stamped,
      nothing else touched. */
  twostate predicate SessionIssued(store: CredentialStore, userId: UserId, token: string, now: int)
    reads store
  {
    && userId in old(store.users)
    && store.sessions == old(store.sessions)[token := SessionRecord(userId, now + SESSION_TTL_SECONDS, true)]
    && store.users == old(store.users)[userId := old(store.users)[userId].(lastLogin := Some(now))]
    && store.emailIndex == old(store.emailIndex)
    && store.nextUserId == old(store.nextUserId)
  }

  /** `authenticateUser(email, password)`; `random` stands for the 32 bytes of
      `crypto.randomBytes` and `now` for the clock. */
  method AuthenticateUser(
    store: CredentialStore, email: string, password: string, hasher: Hasher, random: seq<bv8>, now: int)
    returns (r: AuthResult)
    requires store.Valid()
    requires |random| == TOKEN_BYTES
    modifies store
    ensures store.Valid()
    ensures r == AuthenticateOutcome(old(store.GetUserByEmail(email)), password, hasher, GenerateSessionToken(random))
    ensures r.AuthFailure? ==> unchanged(store)
    ensures r.AuthSuccess? ==> SessionIssued(store, r.user.id, r.sessionToken, now)
  {
    var user := store.GetUserByEmail(email);
    if user.None? {
      return AuthFailure(INVALID_CREDENTIALS);
    }
    var isValidPassword := hasher.verify(password, user.value.passwordHash);
    if !isValidPassword {
      return AuthFailure(INVALID_CREDENTIALS);
    }
    if !user.value.isActive {
      return AuthFailure(ACCOUNT_DISABLED);
    }
    var sessionToken := GenerateSessionToken(random);
    var expiresAt := now + SESSION_TTL_SECONDS;
    store.CreateSession(user.value.id, sessionToken, expiresAt);
    store.UpdateUserLastLogin(user.value.id, now);
    r := AuthSuccess(LoginUserOf(user.value), sessionToken);
  }

  /** `validateSession(token)`: a session is valid exactly when its token is
      non-empty, names an active, unexpired session, and its user is active; the
      identity is read from the user row now, so it carries the current role. */
  function ValidateSession(store: CredentialStore, token: string, now: int): (r: SessionResult)
    reads store
    requires store.Valid()
    ensures token == "" ==> r == SessionInvalid(NO_SESSION_TOKEN)
    ensures token != "" && r.SessionInvalid? ==> r.error == INVALID_SESSION
    ensures r.SessionValid? <==>
      && token != ""
      && token in store.sessions
      && store.sessions[token].active
      && now < store.sessions[token].expiresAt
      && store.users[store.sessions[token].userId].isActive
    ensures r.SessionValid? ==>
      var u := store.users[store.sessions[token].userId];
      r.user == Identity(u.id, u.email, u.firstName, u.lastName, u.role.Name())
  {
    if token == "" then SessionInvalid(NO_SESSION_TOKEN)
    else
      var session := store.GetSessionByToken(token, now);
      if session.None? then SessionInvalid(INVALID_SESSION)
      else
        var row := session.value;
        SessionValid(Identity(row.userId, row.email, row.firstName, row.lastName, row.roleName))
  }

  /** `logoutUser(token)`: the session is invalidated; `fault` says whether the
      store call throws, which is then reported as a failure. */
  method LogoutUser(store: CredentialStore, token: string, fault: bool) returns (r: LogoutResult)
    requires store.Valid()
    modifies store
    ensures store.Valid()
    ensures fault ==> r == LogoutFailure(LOGOUT_FAILED) && unchanged(store)
    ensures !fault ==> r == LogoutSuccess
    ensures !fault ==>
      && store.sessions == Invalidated(old(store.sessions), token)
      && store.users == old(store.users)
      && store.emailIndex == old(store.emailIndex)
      && store.nextUserId == old(store.nextUserId)
  {
    if fault {
      return LogoutFailure(LOGOUT_FAILED);
    }
    store.InvalidateSession(token);
    r := LogoutSuccess;
  }

  /** `requireListerOrAdmin(role)`: `['Lister', 'Admin'].includes(role)`. */
  function RequireListerOrAdmin(userRole: string): (r: bool)
    ensures r <==> userRole == "Lister" || userRole == "Admin"
  {
    userRole in ["Lister", "Admin"]
  }

  /** `requireAdmin(role)`: only the exact name "Admin" passes, and whatever passes
      it passes the Lister-or-Admin check too. */
  function RequireAdmin(userRole: string): (r: bool)
    ensures r <==> userRole == "Admin"
    ensures r ==> RequireListerOrAdmin(userRole)
  {
    userRole == "Admin"
  }

  /** On the names of the three roles: Admin is the only admin, Lister and Admin
      are the privileged ones, and User passes neither predicate. */
  lemma RolePredicatesOnRoles(role: Role)
    ensures RequireAdmin(role.Name()) <==> role == Admin
    ensures RequireListerOrAdmin(role.Name()) <==> role == Lister || role == Admin
    ensures !RequireAdmin(User.Name()) && !RequireListerOrAdmin(User.Name())
  {
  }

  /** A session that is marked inactive, as logout leaves it, is refused whatever
      the clock says. */
  lemma InactiveSessionRefused(store: CredentialStore, token: string, now: int)
    requires store.Valid()
    requires token in store.sessions && !store.sessions[token].active
    ensures ValidateSession(store, token, now).SessionInvalid?
  {
  }
}
