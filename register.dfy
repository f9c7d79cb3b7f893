/** `POST /api/auth/register`: required fields, email format, password length,
    duplicate email, then the insertion of a `User`-role account. */
module Register {
  import opened Common
  import opened Store
  import opened EmailFormat
  import opened Auth

  const ALL_FIELDS_REQUIRED: string := "All fields are required"
  const INVALID_EMAIL_FORMAT: string := "Invalid email format"
  const PASSWORD_TOO_SHORT: string := "Password must be at least 8 characters long"
  const USER_EXISTS: string := "User with this email already exists"
  const REGISTERED: string := "User registered successfully"
  const MIN_PASSWORD_LENGTH: nat := 8

  datatype RegisterOk = RegisterOk(message: string, userId: UserId)

  /** The input guards, in order: any missing field, then the email format, then a
      password under eight UTF-16 code units; each is a 400 with its own message. */
  function InputError(email: Option<string>, firstName: Option<string>, lastName: Option<string>, password: Option<string>)
    : (err: Option<string>)
    ensures !(Present(email) && Present(firstName) && Present(lastName) && Present(password)) ==>
      err == Some(ALL_FIELDS_REQUIRED)
    ensures err.None? <==>
      && Present(email) && Present(firstName) && Present(lastName) && Present(password)
      && IsEmailShape(email.value)
      && Utf16Length(password.value) >= MIN_PASSWORD_LENGTH
    ensures err == Some(INVALID_EMAIL_FORMAT) <==>
      && Present(email) && Present(firstName) && Present(lastName) && Present(password)
      && !IsEmailShape(email.value)
    ensures err == Some(PASSWORD_TOO_SHORT) <==>
      && Present(email) && Present(firstName) && Present(lastName) && Present(password)
      && IsEmailShape(email.value)
      && Utf16Length(password.value) < MIN_PASSWORD_LENGTH
  {
    if !Present(email) || !Present(firstName) || !Present(lastName) || !Present(password) then
      Some(ALL_FIELDS_REQUIRED)
    else
      EmailRegexMeansShape(email.value);
      if !MatchesEmailRegex(email.value) then Some(INVALID_EMAIL_FORMAT)
      else if Utf16Length(password.value) < MIN_PASSWORD_LENGTH then Some(PASSWORD_TOO_SHORT)
      else None
  }

  /** The handler. On success exactly one user is added, under a fresh id that the
      reply returns, with the password's hash and the `User` role; every refusal
      leaves the store as it was. */
  method Post(
    store: CredentialStore, email: Option<string>, firstName: Option<string>, lastName: Option<string>,
    password: Option<string>, hasher: Hasher)
    returns (resp: Response<RegisterOk>)
    requires store.Valid()
    modifies store
    ensures store.Valid()
    ensures KeepsInactive(old(store.sessions), store.sessions, {})
    ensures InputError(email, firstName, lastName, password).Some? ==>
      resp == Error(400, InputError(email, firstName, lastName, password).value) && unchanged(store)
    ensures InputError(email, firstName, lastName, password).None? && old(store.GetUserByEmail(email.value)).Some? ==>
      resp == Error(409, USER_EXISTS) && unchanged(store)
    ensures InputError(email, firstName, lastName, password).None? && old(store.GetUserByEmail(email.value)).None? ==>
      && resp.Ok?
      && resp.body.message == REGISTERED
      && resp.body.userId == old(store.nextUserId) && resp.body.userId !in old(store.users)
      && store.users == old(store.users)[resp.body.userId :=
           NewUser(resp.body.userId, email.value, firstName.value, lastName.value, hasher.hash(password.value))]
      && store.sessions == old(store.sessions)
      && store.nextUserId == old(store.nextUserId) + 1
      && store.emailIndex == old(store.emailIndex)[email.value := resp.body.userId]
      && store.GetUserByEmail(email.value) == Some(store.users[resp.body.userId])
  {
    var err := InputError(email, firstName, lastName, password);
    if err.Some? {
      return Error(400, err.value);
    }
    var existingUser := store.GetUserByEmail(email.value);
    if existingUser.Some? {
      return Error(409, USER_EXISTS);
    }
    var hashedPassword := hasher.hash(password.value);
    var newUserId := store.CreateUser(email.value, firstName.value, lastName.value, hashedPassword);
    resp := Ok(RegisterOk(REGISTERED, newUserId));
  }

  /** A duplicate email with a short password is refused for the password (400),
      not as a duplicate (409): the input guards run before the lookup. */
  lemma ShortPasswordBeforeDuplicate(email: string, firstName: string, lastName: string, password: string)
    requires email != "" && firstName != "" && lastName != ""
    requires MatchesEmailRegex(email)
    requires password != "" && Utf16Length(password) < MIN_PASSWORD_LENGTH
    ensures InputError(Some(email), Some(firstName), Some(lastName), Some(password)) == Some(PASSWORD_TOO_SHORT)
  {
    EmailRegexMeansShape(email);
    assert IsEmailShape(email);
    var err := InputError(Some(email), Some(firstName), Some(lastName), Some(password));
    assert Present(Some(email)) && Present(Some(firstName)) && Present(Some(lastName)) && Present(Some(password));
  }

  /** A password of exactly eight BMP characters passes the length guard, and one
      of seven does not. */
  lemma EightCharactersSuffice(password: string)
    requires forall i :: 0 <= i < |password| ==> password[i] as int <= 0xFFFF
    ensures |password| == 8 ==> Utf16Length(password) >= MIN_PASSWORD_LENGTH
    ensures |password| == 7 ==> Utf16Length(password) < MIN_PASSWORD_LENGTH
  {
    Utf16LengthOfBmp(password);
  }
}
