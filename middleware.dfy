/** The request guards: resolve the `session` cookie to an identity, then demand
    authentication (401) and, for the role guards, a role (403). Read-only. */
module Middleware {
  import opened Common
  import opened Store
  import opened Auth

  const AUTHENTICATION_REQUIRED: string := "Authentication required"
  const ADMIN_REQUIRED: string := "Admin access required"
  const LISTER_REQUIRED: string := "Lister or Admin access required"

  /** What `authenticateRequest` returns. */
  datatype AuthState = AuthState(authenticated: bool, user: Option<Identity>)

  /** A guard either lets the request through with its user or answers it with an
      error response. */
  datatype Guard = Granted(user: Identity) | Denied(status: nat, error: string)

  /** `authenticateRequest`: without a session cookie the request is anonymous and
      no lookup happens; otherwise it is authenticated exactly when the token
      validates, and only then does it carry a user. */
  function AuthenticateRequest(store: CredentialStore, sessionCookie: Option<string>, now: int): (r: AuthState)
    reads store
    requires store.Valid()
    ensures !Present(sessionCookie) ==> r == AuthState(false, None)
    ensures r.authenticated <==> Present(sessionCookie) && ValidateSession(store, sessionCookie.value, now).SessionValid?
    ensures r.user.Some? <==> r.authenticated
    ensures r.authenticated ==> r.user.value == ValidateSession(store, sessionCookie.value, now).user
  {
    if !Present(sessionCookie) then AuthState(false, None)
    else
      var sessionResult := ValidateSession(store, sessionCookie.value, now);
      AuthState(sessionResult.SessionValid?, if sessionResult.SessionValid? then Some(sessionResult.user) else None)
  }

  /** `requireAuthentication`: 401 exactly when the request is not authenticated. */
  function RequireAuthentication(store: CredentialStore, sessionCookie: Option<string>, now: int): (r: Guard)
    reads store
    requires store.Valid()
    ensures r.Denied? <==> !AuthenticateRequest(store, sessionCookie, now).authenticated
    ensures r.Denied? ==> r == Denied(401, AUTHENTICATION_REQUIRED)
    ensures r.Granted? ==> AuthenticateRequest(store, sessionCookie, now).user == Some(r.user)
  {
    var authResult := AuthenticateRequest(store, sessionCookie, now);
    if !authResult.authenticated then Denied(401, AUTHENTICATION_REQUIRED)
    else Granted(authResult.user.value)
  }

  /** `requireAdminRole`: 401 before 403; an authenticated non-Admin gets 403; an
      Admin gets its user back unchanged. */
  function RequireAdminRole(store: CredentialStore, sessionCookie: Option<string>, now: int): (r: Guard)
    reads store
    requires store.Valid()
    ensures RequireAuthentication(store, sessionCookie, now).Denied? ==> r == RequireAuthentication(store, sessionCookie, now)
    ensures RequireAuthentication(store, sessionCookie, now).Granted? ==>
      var user := RequireAuthentication(store, sessionCookie, now).user;
      r == if user.role == "Admin" then Granted(user) else Denied(403, ADMIN_REQUIRED)
  {
    var authResult := RequireAuthentication(store, sessionCookie, now);
    if authResult.Denied? then authResult
    else if !RequireAdmin(authResult.user.role) then Denied(403, ADMIN_REQUIRED)
    else Granted(authResult.user)
  }

  /** `requireListerRole`: 401 before 403; Lister and Admin pass, anyone else gets 403. */
  function RequireListerRole(store: CredentialStore, sessionCookie: Option<string>, now: int): (r: Guard)
    reads store
    requires store.Valid()
    ensures RequireAuthentication(store, sessionCookie, now).Denied? ==> r == RequireAuthentication(store, sessionCookie, now)
    ensures RequireAuthentication(store, sessionCookie, now).Granted? ==>
      var user := RequireAuthentication(store, sessionCookie, now).user;
      r == if user.role in {"Lister", "Admin"} then Granted(user) else Denied(403, LISTER_REQUIRED)
  {
    var authResult := RequireAuthentication(store, sessionCookie, now);
    if authResult.Denied? then authResult
    else if !RequireListerOrAdmin(authResult.user.role) then Denied(403, LISTER_REQUIRED)
    else Granted(authResult.user)
  }

  /** A request the admin guard lets through, the lister guard lets through with the
      same user. */
  lemma AdminPassesListerGuard(store: CredentialStore, sessionCookie: Option<string>, now: int)
    requires store.Valid()
    requires RequireAdminRole(store, sessionCookie, now).Granted?
    ensures RequireListerRole(store, sessionCookie, now) == RequireAdminRole(store, sessionCookie, now)
  {
  }

  /** The admin guard grants exactly the requests whose valid session belongs to an
      active user whose stored role is Admin. */
  lemma AdminGuardMeansStoredAdmin(store: CredentialStore, sessionCookie: Option<string>, now: int)
    requires store.Valid()
    ensures RequireAdminRole(store, sessionCookie, now).Granted? <==>
      && Present(sessionCookie)
      && ValidateSession(store, sessionCookie.value, now).SessionValid?
      && store.users[store.sessions[sessionCookie.value].userId].role == Admin
  {
    if Present(sessionCookie) && ValidateSession(store, sessionCookie.value, now).SessionValid? {
      RolePredicatesOnRoles(store.users[store.sessions[sessionCookie.value].userId].role);
    }
  }
}
