/** Properties of several requests in a row, as the route tests exercise them. Each
    is a method that runs the handlers in sequence and states what the replies must
    be. The one property of bcrypt they rely on, that a password verifies against
    its own hash, is an explicit precondition wherever it is needed. */
module Scenarios {
  import opened Common
  import opened Store
  import opened SessionToken
  import opened EmailFormat
  import opened Auth
  import opened Middleware
  import Register
  import Login
  import Logout
  import Me
  import Promote

  /** Register, log in, ask who I am: the new account logs in as a `User`, the login
      and the session report the registered id, and the session cookie resolves to
      the identity of the account. */
  method RegisterLoginMe(
    store: CredentialStore, email: string, firstName: string, lastName: string, password: string,
    hasher: Hasher, random: seq<bv8>, now: int, nodeEnv: string)
    returns (registered: Response<Register.RegisterOk>, login: Response<Login.LoginOk>, me: Response<Identity>)
    requires store.Valid()
    requires email != "" && firstName != "" && lastName != ""
    requires MatchesEmailRegex(email) && Utf16Length(password) >= Register.MIN_PASSWORD_LENGTH
    requires store.GetUserByEmail(email).None?
    requires hasher.verify(password, hasher.hash(password))
    requires |random| == TOKEN_BYTES
    modifies store
    ensures store.Valid()
    ensures registered.Ok? && login.Ok? && me.Ok?
    ensures login.body.user.id == registered.body.userId && login.body.user.role == "User"
    ensures me.body == Identity(registered.body.userId, email, firstName, lastName, "User")
  {
    EmailRegexMeansShape(email);
    registered := Register.Post(store, Some(email), Some(firstName), Some(lastName), Some(password), hasher);
    var id := registered.body.userId;
    assert store.GetUserByEmail(email) == Some(store.users[id]);
    login := Login.Post(store, Some(email), Some(password), hasher, random, now, nodeEnv);
    var token := GenerateSessionToken(random);
    assert login.body.cookie.value == token;
    assert store.sessions[token] == SessionRecord(id, now + SESSION_TTL_SECONDS, true);
    me := Me.Get(store, Some(token), now);
  }

  /** A session is valid right after login and refused right after logout with the
      same cookie. */
  method LoginThenLogout(
    store: CredentialStore, email: string, password: string, hasher: Hasher, random: seq<bv8>, now: int, nodeEnv: string)
    returns (login: Response<Login.LoginOk>, before: Response<Identity>, after: Response<Identity>)
    requires store.Valid()
    requires |random| == TOKEN_BYTES
    requires email != "" && password != ""
    modifies store
    ensures store.Valid()
    ensures login.Ok? ==> before.Ok? && before.body.id == login.body.user.id
    ensures login.Ok? ==> after == Error(401, INVALID_SESSION)
  {
    login := Login.Post(store, Some(email), Some(password), hasher, random, now, nodeEnv);
    var cookie := if login.Ok? then Some(login.body.cookie.value) else None;
    before := Me.Get(store, cookie, now);
    var _ := Logout.Post(store, cookie, false);
    after := Me.Get(store, cookie, now);
  }

  /** Registering the same email a second time is a 409 whatever the other fields,
      provided they pass the input guards (non-empty names, a password of at least
      8 UTF-16 units), and adds nobody. */
  method RegisterTwice(
    store: CredentialStore, email: string, firstName: string, lastName: string, password: string,
    otherFirstName: string, otherLastName: string, otherPassword: string, hasher: Hasher)
    returns (first: Response<Register.RegisterOk>, second: Response<Register.RegisterOk>)
    requires store.Valid()
    requires email != "" && firstName != "" && lastName != ""
    requires otherFirstName != "" && otherLastName != ""
    requires MatchesEmailRegex(email)
    requires Utf16Length(password) >= Register.MIN_PASSWORD_LENGTH
    requires Utf16Length(otherPassword) >= Register.MIN_PASSWORD_LENGTH
    requires store.GetUserByEmail(email).None?
    modifies store
    ensures store.Valid()
    ensures first.Ok? && second == Error(409, Register.USER_EXISTS)
    ensures |store.users| == |old(store.users)| + 1
  {
    EmailRegexMeansShape(email);
    first := Register.Post(store, Some(email), Some(firstName), Some(lastName), Some(password), hasher);
    assert store.users.Keys == old(store.users).Keys + {first.body.userId};
    second := Register.Post(store, Some(email), Some(otherFirstName), Some(otherLastName), Some(otherPassword), hasher);
  }

  /** A caller whose session is not an admin's is refused before the target is
      looked at: the same 401 or 403 for every `userId`, present, absent or unknown. */
  method NonAdminRefusedWhateverTarget(
    store: CredentialStore, sessionCookie: Option<string>, userId: Option<UserId>, now: int)
    returns (resp: Response<string>)
    requires store.Valid()
    requires RequireAdminRole(store, sessionCookie, now).Denied?
    modifies store
    ensures unchanged(store)
    ensures !AuthenticateRequest(store, sessionCookie, now).authenticated ==> resp == Error(401, AUTHENTICATION_REQUIRED)
    ensures AuthenticateRequest(store, sessionCookie, now).authenticated ==> resp == Error(403, ADMIN_REQUIRED)
  {
    resp := Promote.Post(store, sessionCookie, userId, now);
  }

  /** Promoting a plain user twice: the first request makes it a Lister, the second
      is refused with 400 and changes nothing. */
  method PromoteTwice(store: CredentialStore, adminCookie: Option<string>, target: UserId, now: int)
    returns (first: Response<string>, second: Response<string>)
    requires store.Valid()
    requires RequireAdminRole(store, adminCookie, now).Granted?
    requires target in store.users && store.users[target].role == User
    modifies store
    ensures store.Valid()
    ensures first.Ok? && second == Error(400, "User is already a Lister")
    ensures target in store.users && store.users[target].role == Lister
  {
    AdminGuardMeansStoredAdmin(store, adminCookie, now);
    first := Promote.Post(store, adminCookie, Some(target), now);
    AdminGuardMeansStoredAdmin(store, adminCookie, now);
    second := Promote.Post(store, adminCookie, Some(target), now);
  }

  /** After a promotion, a fresh login of the promoted user reports the role
      "Lister". */
  method PromoteThenLogin(
    store: CredentialStore, adminCookie: Option<string>, target: UserId, password: string,
    hasher: Hasher, random: seq<bv8>, now: int, nodeEnv: string)
    returns (promoted: Response<string>, login: Response<Login.LoginOk>)
    requires store.Valid()
    requires RequireAdminRole(store, adminCookie, now).Granted?
    requires target in store.users && store.users[target].role == User && store.users[target].isActive
    requires store.users[target].email != "" && password != ""
    requires hasher.verify(password, store.users[target].passwordHash)
    requires |random| == TOKEN_BYTES
    modifies store
    ensures store.Valid()
    ensures promoted.Ok? && login.Ok? && login.body.user.id == target && login.body.user.role == "Lister"
  {
    var email := store.users[target].email;
    promoted := Promote.Post(store, adminCookie, Some(target), now);
    assert store.GetUserByEmail(email) == Some(store.users[target]);
    login := Login.Post(store, Some(email), Some(password), hasher, random, now, nodeEnv);
  }
}
