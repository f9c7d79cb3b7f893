/** `POST /api/auth/logout`: invalidate the cookie's session if there is one, then
    always answer success and delete the cookie. */
module Logout {
  import opened Common
  import opened Store
  import opened Auth

  const LOGGED_OUT: string := "Logged out successfully"

  /** The success body and the name of the cookie the reply deletes. */
  datatype LogoutOk = LogoutOk(message: string, deletedCookie: string)

  /** The handler; `fault` says whether `logoutUser`'s store call throws. The reply
      never depends on it, nor on whether a cookie came with the request. */
  method Post(store: CredentialStore, sessionCookie: Option<string>, fault: bool) returns (resp: Response<LogoutOk>)
    requires store.Valid()
    modifies store
    ensures store.Valid()
    ensures resp == Ok(LogoutOk(LOGGED_OUT, "session"))
    ensures KeepsInactive(old(store.sessions), store.sessions, {})
    ensures !Present(sessionCookie) || fault ==> unchanged(store)
    ensures Present(sessionCookie) && !fault ==>
      && store.sessions == Invalidated(old(store.sessions), sessionCookie.value)
      && store.users == old(store.users)
      && store.emailIndex == old(store.emailIndex)
      && store.nextUserId == old(store.nextUserId)
  {
    if Present(sessionCookie) {
      var _ := LogoutUser(store, sessionCookie.value, fault);
    }
    resp := Ok(LogoutOk(LOGGED_OUT, "session"));
  }
}
