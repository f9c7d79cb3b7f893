/** `POST /api/auth/login`: a 400 for a missing field, a 401 carrying the
    authentication error, or the user with a `session` cookie holding the token. */
module Login {
  import opened Common
  import opened Store
  import opened SessionToken
  import opened Auth

  const FIELDS_REQUIRED: string := "Email and password are required"
  const LOGIN_SUCCESSFUL: string := "Login successful"
  const SESSION_COOKIE: string := "session"

  datatype Cookie = Cookie(
    name: string, value: string, httpOnly: bool, secure: bool, sameSite: string, maxAge: int)

  datatype LoginOk = LoginOk(user: LoginUser, message: string, cookie: Cookie)

  /** The reply built from `authenticateUser`'s result (`nodeEnv` is
      `process.env.NODE_ENV`): any failure is a 401 with that failure's own message;
      a success returns that user and sets an httpOnly, same-site-strict `session`
      cookie with the issued token, living as long as the session, and secure only
      in production. */
  function Reply(authResult: AuthResult, nodeEnv: string): (r: Response<LoginOk>)
    ensures r.Error? <==> authResult.AuthFailure?
    ensures r.Error? ==> r.status == 401 && r.message == authResult.error
    ensures r.Ok? ==>
      && r.body.user == authResult.user
      && r.body.message == LOGIN_SUCCESSFUL
      && r.body.cookie.name == SESSION_COOKIE
      && r.body.cookie.value == authResult.sessionToken
      && r.body.cookie.httpOnly
      && r.body.cookie.sameSite == "strict"
      && (r.body.cookie.secure <==> nodeEnv == "production")
      && r.body.cookie.maxAge == SESSION_TTL_SECONDS == 604800
  {
    if authResult.AuthFailure? then Error(401, authResult.error)
    else
      var cookie := Cookie(SESSION_COOKIE, authResult.sessionToken, true, nodeEnv == "production", "strict", 7 * 24 * 60 * 60);
      Ok(LoginOk(authResult.user, LOGIN_SUCCESSFUL, cookie))
  }

  /** The handler. A missing email or password is refused before any lookup, so no
      session is created; otherwise the reply is `Reply` of `authenticateUser`'s
      outcome, and the store changes only when that outcome is a success. The only
      session row a login can overwrite is the one under the token it issues, so
      every other inactive session stays inactive. */
  method Post(
    store: CredentialStore, email: Option<string>, password: Option<string>, hasher: Hasher,
    random: seq<bv8>, now: int, nodeEnv: string)
    returns (resp: Response<LoginOk>)
    requires store.Valid()
    requires |random| == TOKEN_BYTES
    modifies store
    ensures store.Valid()
    ensures KeepsInactive(old(store.sessions), store.sessions, {GenerateSessionToken(random)})
    ensures !Present(email) || !Present(password) ==> resp == Error(400, FIELDS_REQUIRED) && unchanged(store)
    ensures Present(email) && Present(password) ==>
      var outcome := AuthenticateOutcome(
        old(store.GetUserByEmail(email.value)), password.value, hasher, GenerateSessionToken(random));
      && resp == Reply(outcome, nodeEnv)
      && (outcome.AuthFailure? ==> unchanged(store))
      && (outcome.AuthSuccess? ==> SessionIssued(store, outcome.user.id, outcome.sessionToken, now))
  {
    if !Present(email) || !Present(password) {
      return Error(400, FIELDS_REQUIRED);
    }
    var authResult := AuthenticateUser(store, email.value, password.value, hasher, random, now);
    resp := Reply(authResult, nodeEnv);
  }

  /** A wrong password and an unknown email give the very same reply. */
  lemma WrongPasswordLikeUnknownEmail(user: UserRecord, password: string, hasher: Hasher, token: string, nodeEnv: string)
    requires !hasher.verify(password, user.passwordHash)
    ensures Reply(AuthenticateOutcome(Some(user), password, hasher, token), nodeEnv)
         == Reply(AuthenticateOutcome(None, password, hasher, token), nodeEnv)
         == Error(401, INVALID_CREDENTIALS)
  {
  }
}
