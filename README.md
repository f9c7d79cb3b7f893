# Authentication, sessions and roles of spaceforeverything, in Dafny

This project models the authentication core of the spaceforeverything web
application. It covers registration, login, session validation, logout, the two
role predicates, the request guards built on them, and the admin route that
promotes a user to Lister. Each is stated over an in-memory credential store and
proved in Dafny.

The store is a class, `Store.CredentialStore`. It has four fields:

- `users`: user id → user row (email, names, password hash, role, active and email-verified flags, last login, promoted-by).
- `emailIndex`: the unique index on the email column.
- `sessions`: token → (user id, expiry, active flag).
- `nextUserId`: the counter that supplies fresh user ids.

Its invariant `Valid()` says four things:

- Every stored id is below `nextUserId`, so the id `createUser` hands out is fresh.
- ids and rows agree.
- The index and the users agree, so no two users share an email.
- Every session belongs to a stored user.

The store operations are those the routes import from the database layer
(`getUserByEmail`, `createUser`, `createSession`, `getSessionByToken`,
`invalidateSession`, `updateUserLastLogin`, `getUserById`, `promoteUserToLister`).
Their SQL is not part of this model, so each contract states the behaviour the
callers assume:

- `getUserByEmail` is an exact, case-sensitive match on any user, active or not.
- `getSessionByToken` returns a row only for an active, unexpired session whose user is active, joined with that user's current role.
- `createUser` inserts an active user with role `User` whose email is not yet verified.

Some modules follow one source file each:

- `Auth`: `src/lib/auth.ts`.
- `Middleware`: `src/lib/middleware.ts`.
- `Register`, `Login`, `Logout`, `Me` and `Promote`: the five route handlers.

The rest are shared:

- `EmailFormat`: the registration email regular expression and what it means.
- `SessionToken`: the hex encoding of the session token.
- `Common`: JavaScript truthiness and `String.length`.
- `Scenarios`: chains several requests in a row, as the route tests do.

Handlers that change the store are methods with `modifies store`. Their
postconditions state every outcome of the guard chain and the whole new state.
Read-only code is modelled as functions:

- `validateSession`
- the middleware guards
- the `/me` handler
- the role predicates
- the login reply mapping
- the register input guards

Several things are parameters of the model:

- The clock: `now`, an integer count of seconds.
- bcrypt: a `Hasher` value holding `hash` and `verify`.
- `crypto.randomBytes(32)`: a `random` byte sequence of length 32.
- `process.env.NODE_ENV`: `nodeEnv`.
- Whether the store throws in `logoutUser`: `fault`.

`GetUserByEmail` matches any user, active or not. `authenticateUser` checks
`IsActive` only after the password (src/lib/auth.ts:45), and its "Account is
disabled" answer could not be reached otherwise. The register duplicate check
therefore covers inactive accounts too.

## Model

| member | source | states |
|---|---|---|
| `Common.Utf16Length` | src/app/api/auth/register/route.ts:28 | JavaScript's `password.length` counts UTF-16 code units: between the number of characters and twice that, zero only for the empty string |
| `Common.Present` | src/app/api/auth/register/route.ts:11 | JavaScript truthiness of a body field or cookie (`!email`, and login/route.ts:10): a field counts as given iff it is present, not null, and its `length` is not zero |
| `Common.Utf16LengthOfBmp` | src/app/api/auth/register/route.ts:28 | for text made only of Basic Multilingual Plane characters, that length is the character count |
| `Store.CredentialStore.GetUserByEmail` | src/lib/auth.ts:33 | a user is found exactly when some stored user has that exact email; the row returned is that user's |
| `Store.CredentialStore.GetUserById` | src/app/api/admin/promote/route.ts:25 | a row is found exactly when the id is stored, and it is that user's row |
| `Store.CredentialStore.GetSessionByToken` | src/lib/auth.ts:85 | assumed filter: a row exists iff the token's session is active, unexpired and its user active; the row carries that user's current id, email, names and role name |
| `Store.CredentialStore.CreateUser` | src/app/api/auth/register/route.ts:48 | adds exactly one user under a fresh id, with role User, active, not verified, never logged in; indexes its email; keeps `Valid()` |
| `Store.CredentialStore.CreateSession` | src/lib/auth.ts:55 | stores an active session for the user under the token, changes nothing else, keeps `Valid()` |
| `Store.CredentialStore.UpdateUserLastLogin` | src/lib/auth.ts:58 | only that user's last login changes, to `now` |
| `Store.CredentialStore.InvalidateSession` | src/lib/auth.ts:109 | the session table becomes `Invalidated(old, token)`; users untouched |
| `Store.Invalidated` | src/lib/auth.ts:109 | the token's session, if any, keeps its user and expiry and only becomes inactive; every other session and the set of tokens are unchanged |
| `Store.CredentialStore.PromoteUserToLister` | src/app/api/admin/promote/route.ts:42 | only the target's role (to Lister) and promoted-by change |
| `Store.EmailsUnique` | src/app/api/auth/register/route.ts:36-48 | in a valid store two users with the same email are the same user |
| `SessionToken.GenerateSessionToken` | src/lib/auth.ts:22-24 | a token is 64 characters, each in [0-9a-f] |
| `SessionToken.HexEncode` | src/lib/auth.ts:23 | hex text is twice as long as the bytes and made only of lowercase hex digits |
| `SessionToken.HexRoundTrip` | src/lib/auth.ts:23 | decoding the hex text gives back the random bytes |
| `SessionToken.TokensInjective` | src/lib/auth.ts:22-24 | different random bytes give different tokens |
| `EmailFormat.MatchesEmailRegex` | src/app/api/auth/register/route.ts:19-20 | the language of `/^[^\s@]+@[^\s@]+\.[^\s@]+$/`: a split into three non-empty `[^\s@]` runs joined by '@' and '.'; every accepted address has at least five characters and contains '@' and '.' |
| `EmailFormat.EmailRegexMeansShape` | src/app/api/auth/register/route.ts:19-20 | `/^[^\s@]+@[^\s@]+\.[^\s@]+$/` accepts an address iff it has no whitespace, exactly one '@', a non-empty local part, and a domain with a '.' that is neither its first nor its last character |
| `EmailFormat.NotAnEmailRejected` | tests/auth/registration.test.js:34-41 | "notanemail" is rejected |
| `EmailFormat.AssembledAddressMatches` | src/app/api/auth/register/route.ts:19-20 | a local part, '@', a domain part, '.' and a last part, each a non-empty run of non-whitespace non-'@' characters, is accepted |
| `EmailFormat.AliceAccepted` | src/app/api/auth/register/route.ts:19-20 | "alice@example.com" is accepted |
| `Auth.AuthenticateOutcome` | src/lib/auth.ts:33-71 | an unknown email and a wrong password both give "Invalid email or password"; "Account is disabled" only when the password verifies for an inactive user; success iff the password verifies for an active user, carrying that user's id, email, names, role and emailVerified with the issued token |
| `Auth.AuthenticateUser` | src/lib/auth.ts:30-71 | the answer is that outcome for the user found by email; on failure the store is unchanged; on success one session for that user expiring `now + 604800`, that user's last login stamped, nothing else changed |
| `Auth.ValidateSession` | src/lib/auth.ts:79-99 | an empty token is refused with "No session token provided" whatever the store holds; otherwise valid iff the session is active, unexpired and its user active, and the identity is that user's current id, email, names and role; any other refusal is "Invalid or expired session" |
| `Auth.LogoutUser` | src/lib/auth.ts:107-115 | without a store fault: success, the session invalidated, users untouched; with one: "Logout failed" and nothing changed |
| `Auth.RequireListerOrAdmin` | src/lib/auth.ts:125-127 | holds iff the role is "Lister" or "Admin" |
| `Auth.RequireAdmin` | src/lib/auth.ts:121-123 | holds iff the role is "Admin", and then Lister-or-Admin holds too |
| `Auth.RolePredicatesOnRoles` | src/lib/auth.ts:121-127 | on role names: admin iff Admin, Lister-or-Admin iff Lister or Admin, User passes neither |
| `Auth.InactiveSessionRefused` | src/lib/auth.ts:85-88 | a session that is marked inactive now is refused, whatever the clock says |
| `Middleware.AuthenticateRequest` | src/lib/middleware.ts:4-17 | no cookie: unauthenticated with no user, nothing looked up; otherwise authenticated iff the token validates; a user is present iff authenticated, and it is the validated identity |
| `Middleware.RequireAuthentication` | src/lib/middleware.ts:19-30 | 401 "Authentication required" iff not authenticated; otherwise the request's user |
| `Middleware.RequireAdminRole` | src/lib/middleware.ts:32-47 | 401 before 403; an authenticated user whose role is not "Admin" gets 403 "Admin access required"; an Admin gets its user back unchanged |
| `Middleware.RequireListerRole` | src/lib/middleware.ts:49-64 | 401 before 403; Lister and Admin pass with their user; anyone else gets 403 "Lister or Admin access required" |
| `Middleware.AdminPassesListerGuard` | src/lib/middleware.ts:32-64 | any request that passes the admin guard passes the lister guard with the same user |
| `Middleware.AdminGuardMeansStoredAdmin` | src/lib/middleware.ts:32-47 | the admin guard grants iff the cookie's session validates and its user's stored role is Admin |
| `Register.InputError` | src/app/api/auth/register/route.ts:10-33 | a missing or empty field gives "All fields are required" before any other check; then a malformed email (by the shape above); then a password under 8 UTF-16 units; no error iff all fields are present, the email has the shape and the password is long enough |
| `Register.Post` | src/app/api/auth/register/route.ts:5-54 | input errors are 400 with their message, an existing email is 409, and both leave the store unchanged; otherwise exactly one user is added under a fresh id (the old counter, which then advances by one) that the reply returns, with `hash(password)` and role User, indexed and found by its email afterwards, sessions untouched; the store stays valid, so emails stay unique; no inactive session is reactivated |
| `Register.ShortPasswordBeforeDuplicate` | src/app/api/auth/register/route.ts:11-42 | a well-formed request with a short password is refused for the password, before any duplicate lookup |
| `Register.EightCharactersSuffice` | src/app/api/auth/register/route.ts:28-33 | eight BMP characters pass the length guard, seven do not |
| `Login.Reply` | src/app/api/auth/login/route.ts:20-40 | any authentication failure is 401 with that failure's message; success returns the authenticated user and a `session` cookie with the token, httpOnly, sameSite "strict", secure iff NODE_ENV is "production", max age 604800 = the session lifetime |
| `Login.Post` | src/app/api/auth/login/route.ts:4-42 | a missing email or password is 400 with nothing looked up or changed; otherwise the reply for `authenticateUser`'s outcome, with the store changed only on success, as issuing a session; no inactive session is reactivated, except under the token this login issues |
| `Login.WrongPasswordLikeUnknownEmail` | tests/auth/login.test.js:54-62 | a wrong password and an unknown email give the same reply, 401 "Invalid email or password" |
| `Logout.Post` | src/app/api/auth/logout/route.ts:4-22 | the reply is always success and deletes the `session` cookie, even when `logoutUser` fails; a present cookie's session is invalidated unless the store faults; with no cookie the store is unchanged; no inactive session is reactivated |
| `Me.Get` | src/app/api/auth/me/route.ts:4-29 | read-only; no cookie is 401 "Not authenticated"; a failing token is 401 with validation's own error; a valid one returns exactly the validated identity |
| `Promote.Post` | src/app/api/admin/promote/route.ts:5-47 | the admin guard's 401/403 come first, whatever the body; then 400 for a missing id, 404 for an unknown user, 400 "User is already a Lister/Admin" for a privileged target, each leaving the store unchanged; otherwise the target becomes Lister promoted by the acting admin, with no other user and no session changed; no inactive session is reactivated |
| `Scenarios.RegisterLoginMe` | tests/auth/login.test.js:18-42 | after registering, logging in with the same password (assuming the password verifies against its own hash) succeeds as role "User", and `/me` with the cookie returns the new account's identity |
| `Scenarios.LoginThenLogout` | tests/auth/login.test.js:44-52 | after a successful login the cookie validates; after logout the same cookie gets 401 "Invalid or expired session" |
| `Scenarios.RegisterTwice` | tests/auth/registration.test.js:14-26 | a second registration of the same email is 409 whatever its other fields, provided they pass the input guards (non-empty names, a password of at least 8 UTF-16 units); only one user was added |
| `Scenarios.NonAdminRefusedWhateverTarget` | tests/auth/admin.test.js:44-56 | a caller who is not an admin gets 401 or 403 for every userId, including an unknown one, and nothing changes |
| `Scenarios.PromoteTwice` | tests/auth/admin.test.js:92-106 | promoting a plain user succeeds, and a second promotion is 400 "User is already a Lister" |
| `Scenarios.PromoteThenLogin` | tests/auth/admin.test.js:97-101 | after the promotion, a fresh login of the active target with a password that verifies against its stored hash reports role "Lister" |

## Left out

- bcrypt (`hashPassword`, `verifyPassword`): the hashing is a parameter, `Hasher`. The salt, the cost factor of 12 and constant-time comparison are not modelled. Nothing is assumed about `verify`, except as a precondition of the scenarios that need a correct password: `verify(p, hash(p))` in `RegisterLoginMe`, and `verify(p, stored hash)` for an active target in `PromoteThenLogin`.
- Properties of the hash itself (the hash differs from the plaintext; the round trip; a different password fails): these belong to the bcrypt library, which this model does not include.
- `crypto.randomBytes`: the 32 bytes are a parameter, and their entropy is not modelled. A token equal to an existing one would replace that session row in the model.
- Auth.InactiveSessionRefused: states only that a session inactive now is refused, not that a logged-out token is refused forever. Register, logout and promote keep every inactive session inactive. A login keeps them too, except when its random bytes encode to an already-invalidated token: that token's row is then replaced by a fresh active session. A real token collision is not modelled, because the 32 random bytes are a parameter.
- Date arithmetic: the clock counts seconds. `setDate(getDate() + 7)` is taken to be exactly 604800 seconds, so a daylight-saving change inside the week is not modelled.
- The SQL of the store functions is not part of this model; their behaviour is the stated assumptions above. The same goes for the GUID user ids (a counter stands in), the promoted-at timestamp and the database's column defaults.
- The `try`/`catch` branches that answer 500 or report "Authentication failed" or "Session validation failed": store and JSON-parsing faults are not modelled. The exception is `logoutUser`, whose failure has a `fault` parameter, so the model shows that the logout route ignores it.
- JSON bodies: fields are optional strings, where `None` stands for missing or null. Non-string values such as numbers are not modelled.
- Unicode: the email expression is matched on characters. JavaScript matches it on UTF-16 code units. The two agree here, because no surrogate is whitespace, '@' or '.'.
- Concurrency: concurrent promotions of the same user, and the connection pool, are not modelled. The code has no atomicity mechanism for them.
- `getConnection`, `getMessages`, `src/app/page.tsx`, `src/app/api/messages/route.ts`: connection management, a plain query and UI, with no authentication logic.
- Password-reset tokens: no route in this code uses them.
