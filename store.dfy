/** The credential store the authentication code queries: the `Users`, `Roles` and
    `Sessions` tables behind `getUserByEmail`, `getUserById`, `createUser`,
    `createSession`, `getSessionByToken`, `invalidateSession`, `updateUserLastLogin`
    and `promoteUserToLister`. Their SQL is not part of this model, so each contract
    below states what the callers assume the query or update does. */
module Store {
  import opened Common

  type UserId = nat

  /** The closed set of rows in the `Roles` table. */
  datatype Role = User | Lister | Admin
  {
    /** The role's `Name` column, joined into user and session rows as `RoleName`. */
    function Name(): (name: string)
      ensures name == "User" <==> this == User
      ensures name == "Lister" <==> this == Lister
      ensures name == "Admin" <==> this == Admin
    {
      match this
      case User => "User"
      case Lister => "Lister"
      case Admin => "Admin"
    }
  }

  datatype UserRecord = UserRecord(
    id: UserId,
    email: string,
    firstName: string,
    lastName: string,
    passwordHash: string,
    role: Role,
    isActive: bool,
    emailVerified: bool,
    lastLogin: Option<int>,
    promotedBy: Option<UserId>)

  datatype SessionRecord = SessionRecord(userId: UserId, expiresAt: int, active: bool)

  /** What `getSessionByToken` returns: the session's user joined with the role name. */
  datatype SessionRow = SessionRow(
    userId: UserId, email: string, firstName: string, lastName: string, roleName: string)

  /** The row `createUser` inserts: the `User` role, active, email not verified,
      never logged in, never promoted. */
  function NewUser(id: UserId, email: string, firstName: string, lastName: string, passwordHash: string): UserRecord {
    UserRecord(id, email, firstName, lastName, passwordHash, User, true, false, None, None)
  }

  class CredentialStore {
    var users: map<UserId, UserRecord>
    /** The unique index on `Users.Email`: each stored email maps to its one user. */
    var emailIndex: map<string, UserId>
    /** Sessions keyed by their token. */
    var sessions: map<string, SessionRecord>
    /** The next identifier `createUser` hands out. */
    var nextUserId: UserId

    ghost predicate Valid()
      reads this
    {
      && (forall id :: id in users ==> id < nextUserId && users[id].id == id)
      && (forall e :: e in emailIndex ==> emailIndex[e] in users && users[emailIndex[e]].email == e)
      && (forall id :: id in users ==> users[id].email in emailIndex && emailIndex[users[id].email] == id)
      && (forall t :: t in sessions ==> sessions[t].userId in users)
    }

    constructor ()
      ensures Valid()
      ensures users == map[] && emailIndex == map[] && sessions == map[] && nextUserId == 0
    {
      users := map[];
      emailIndex := map[];
      sessions := map[];
      nextUserId := 0;
    }

    /** `getUserByEmail`: exact, case-sensitive match on the stored email, whatever the
        user's active flag. */
    function GetUserByEmail(email: string): (r: Option<UserRecord>)
      reads this
      requires Valid()
      ensures r.Some? ==> r.value.id in users && users[r.value.id] == r.value && r.value.email == email
      ensures r.None? <==> forall id :: id in users ==> users[id].email != email
    {
      if email in emailIndex then Some(users[emailIndex[email]]) else None
    }

    /** `getUserById`. */
    function GetUserById(id: UserId): (r: Option<UserRecord>)
      reads this
      ensures r.Some? <==> id in users
      ensures r.Some? ==> r.value == users[id]
    {
      if id in users then Some(users[id]) else None
    }

    /** `getSessionByToken`, assumed to return a row only for an active, unexpired
        session whose user is active, joined with that user's current role. */
    function GetSessionByToken(token: string, now: int): (r: Option<SessionRow>)
      reads this
      requires Valid()
      ensures r.Some? <==>
        && token in sessions
        && sessions[token].active
        && now < sessions[token].expiresAt
        && users[sessions[token].userId].isActive
      ensures r.Some? ==>
        var u := users[sessions[token].userId];
        r.value == SessionRow(u.id, u.email, u.firstName, u.lastName, u.role.Name())
    {
      if token in sessions && sessions[token].active && now < sessions[token].expiresAt then
        var u := users[sessions[token].userId];
        if u.isActive then Some(SessionRow(u.id, u.email, u.firstName, u.lastName, u.role.Name())) else None
      else
        None
    }

    /** `createUser`: inserts a new user under a fresh identifier. The caller has
        checked that the email is not taken; the unique index would refuse it. */
    method CreateUser(email: string, firstName: string, lastName: string, passwordHash: string)
      returns (id: UserId)
      requires Valid()
      requires GetUserByEmail(email).None?
      modifies this
      ensures Valid()
      ensures id == old(nextUserId) && id !in old(users)
      ensures users == old(users)[id := NewUser(id, email, firstName, lastName, passwordHash)]
      ensures emailIndex == old(emailIndex)[email := id]
      ensures sessions == old(sessions) && nextUserId == old(nextUserId) + 1
    {
      id := nextUserId;
      users := users[id := NewUser(id, email, firstName, lastName, passwordHash)];
      emailIndex := emailIndex[email := id];
      nextUserId := nextUserId + 1;
    }

    /** `createSession`: stores an active session for the user under the token. */
    method CreateSession(userId: UserId, token: string, expiresAt: int)
      requires Valid()
      requires userId in users
      modifies this
      ensures Valid()
      ensures sessions == old(sessions)[token := SessionRecord(userId, expiresAt, true)]
      ensures users == old(users) && emailIndex == old(emailIndex) && nextUserId == old(nextUserId)
    {
      sessions := sessions[token := SessionRecord(userId, expiresAt, true)];
    }

    /** `updateUserLastLogin`: stamps the user's last login with the current time. */
    method UpdateUserLastLogin(id: UserId, now: int)
      requires Valid()
      requires id in users
      modifies this
      ensures Valid()
      ensures users == old(users)[id := old(users)[id].(lastLogin := Some(now))]
      ensures sessions == old(sessions) && emailIndex == old(emailIndex) && nextUserId == old(nextUserId)
    {
      users := users[id := users[id].(lastLogin := Some(now))];
    }

    /** `invalidateSession`: marks the token's session inactive; an unknown token is
        left alone. */
    method InvalidateSession(token: string)
      requires Valid()
      modifies this
      ensures Valid()
      ensures sessions == Invalidated(old(sessions), token)
      ensures users == old(users) && emailIndex == old(emailIndex) && nextUserId == old(nextUserId)
    {
      sessions := Invalidated(sessions, token);
    }

    /** `promoteUserToLister`: sets the user's role to Lister and records who promoted it. */
    method PromoteUserToLister(id: UserId, promotedBy: UserId)
      requires Valid()
      requires id in users
      modifies this
      ensures Valid()
      ensures users == old(users)[id := old(users)[id].(role := Lister, promotedBy := Some(promotedBy))]
      ensures sessions == old(sessions) && emailIndex == old(emailIndex) && nextUserId == old(nextUserId)
    {
      users := users[id := users[id].(role := Lister, promotedBy := Some(promotedBy))];
    }
  }

  /** The session table after `invalidateSession(token)`. */
  function Invalidated(sessions: map<string, SessionRecord>, token: string): (r: map<string, SessionRecord>)
    ensures r.Keys == sessions.Keys
    ensures token in sessions ==> r[token] == sessions[token].(active := false)
    ensures forall t :: t in r && t != token ==> r[t] == sessions[t]
  {
    if token in sessions then sessions[token := sessions[token].(active := false)] else sessions
  }

  /** Every session that is inactive in `before` is still stored and inactive in
      `after`, except possibly under the tokens in `issued`. */
  ghost predicate KeepsInactive(before: map<string, SessionRecord>, after: map<string, SessionRecord>, issued: set<string>) {
    forall t :: t in before && !before[t].active && t !in issued ==> t in after && !after[t].active
  }

  /** Through the unique index, no two stored users share an email. */
  lemma EmailsUnique(store: CredentialStore, a: UserId, b: UserId)
    requires store.Valid()
    requires a in store.users && b in store.users
    requires store.users[a].email == store.users[b].email
    ensures a == b
  {
    assert store.emailIndex[store.users[a].email] == a;
  }
}
