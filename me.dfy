/** `GET /api/auth/me`: the identity behind the `session` cookie, or 401. */
module Me {
  import opened Common
  import opened Store
  import opened Auth

  const NOT_AUTHENTICATED: string := "Not authenticated"

  /** The handler, read-only: no cookie is a 401 "Not authenticated"; a token that
      fails validation is a 401 with `validateSession`'s own error; a valid one
      returns exactly the identity `validateSession` resolved. */
  function Get(store: CredentialStore, sessionCookie: Option<string>, now: int): (r: Response<Identity>)
    reads store
    requires store.Valid()
    ensures !Present(sessionCookie) ==> r == Error(401, NOT_AUTHENTICATED)
    ensures r.Ok? <==> Present(sessionCookie) && ValidateSession(store, sessionCookie.value, now).SessionValid?
    ensures r.Ok? ==> r.body == ValidateSession(store, sessionCookie.value, now).user
    ensures Present(sessionCookie) && r.Error? ==>
      r == Error(401, INVALID_SESSION) && ValidateSession(store, sessionCookie.value, now).error == INVALID_SESSION
  {
    if !Present(sessionCookie) then Error(401, NOT_AUTHENTICATED)
    else
      var sessionResult := ValidateSession(store, sessionCookie.value, now);
      if sessionResult.SessionInvalid? then Error(401, sessionResult.error)
      else Ok(sessionResult.user)
  }
}
