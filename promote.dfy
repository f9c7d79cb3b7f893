/** `POST /api/admin/promote`: an admin turns a plain user into a Lister. */
module Promote {
  import opened Common
  import opened Store
  import opened Auth
  import opened Middleware

  const USER_ID_REQUIRED: string := "User ID is required"
  const USER_NOT_FOUND: string := "User not found"

  function AlreadyPrivileged(roleName: string): string {
    "User is already a " + roleName
  }

  function Promoted(email: string): string {
    "User " + email + " promoted to Lister successfully"
  }

  /** The handler; `userId` is the body's field, `None` when it is missing or falsy.
      The checks run in order: the admin guard (401, then 403) before anything is
      read from the body, then a missing id (400), an unknown user (404), a target
      already Lister or Admin (400); every refusal leaves the store as it was. Only
      then does the target become a Lister promoted by the acting admin, and no
      other user and no session changes. */
  method Post(store: CredentialStore, sessionCookie: Option<string>, userId: Option<UserId>, now: int)
    returns (resp: Response<string>)
    requires store.Valid()
    modifies store
    ensures store.Valid()
    ensures KeepsInactive(old(store.sessions), store.sessions, {})
    ensures
      var guard := old(RequireAdminRole(store, sessionCookie, now));
      && (guard.Denied? ==> resp == Error(guard.status, guard.error) && unchanged(store))
      && (guard.Granted? && userId.None? ==> resp == Error(400, USER_ID_REQUIRED) && unchanged(store))
      && (guard.Granted? && userId.Some? && userId.value !in old(store.users) ==>
            resp == Error(404, USER_NOT_FOUND) && unchanged(store))
      && (guard.Granted? && userId.Some? && userId.value in old(store.users) ==>
            var target := old(store.users)[userId.value];
            if target.role == Lister || target.role == Admin then
              resp == Error(400, AlreadyPrivileged(target.role.Name())) && unchanged(store)
            else
              && resp == Ok(Promoted(target.email))
              && store.users == old(store.users)[userId.value := target.(role := Lister, promotedBy := Some(guard.user.id))]
              && store.sessions == old(store.sessions)
              && store.emailIndex == old(store.emailIndex)
              && store.nextUserId == old(store.nextUserId))
  {
    var authResult := RequireAdminRole(store, sessionCookie, now);
    if authResult.Denied? {
      return Error(authResult.status, authResult.error);
    }
    if userId.None? {
      return Error(400, USER_ID_REQUIRED);
    }
    var targetUser := store.GetUserById(userId.value);
    if targetUser.None? {
      return Error(404, USER_NOT_FOUND);
    }
    if targetUser.value.role.Name() == "Lister" || targetUser.value.role.Name() == "Admin" {
      return Error(400, AlreadyPrivileged(targetUser.value.role.Name()));
    }
    store.PromoteUserToLister(userId.value, authResult.user.id);
    resp := Ok(Promoted(targetUser.value.email));
  }
}
