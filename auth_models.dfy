/**
 * auth-service/internal/app/models: the auth token (token.go) and the user
 * credentials record (user.go).  Ids are UUID texts, a time is an integer
 * instant with 0 for Go's zero time, and the clock is a parameter.
 */
module AuthModels {
  import opened Wrappers
  import opened ErrorChain
  import Uuids

  /** `models.AuthToken`. */
  datatype AuthToken = AuthToken(token: string, userID: string, expiresAt: int)

  /** `Token.IsEmpty`. */
  predicate IsEmptyToken(t: string)
  {
    t == ""
  }

  /** `UserID.IsEmpty`: the nil UUID. */
  predicate IsEmptyUserID(id: string)
  {
    Uuids.IsNil(id)
  }

  /** The checks of `NewAuthToken` in source order: token, expiry, user id. */
  function CheckNewAuthToken(token: string, userID: string, expiresAt: int): (r: Option<Error>)
    ensures r.None? <==> !IsEmptyToken(token) && expiresAt != 0 && !IsEmptyUserID(userID)
    ensures IsEmptyToken(token) ==> r == Some(Plain("token cannot be empty"))
    ensures !IsEmptyToken(token) && expiresAt == 0 ==> r == Some(Plain("expiresAt cannot be zero"))
    ensures !IsEmptyToken(token) && expiresAt != 0 && IsEmptyUserID(userID) ==> r == Some(Plain("userID cannot be empty"))
  {
    if IsEmptyToken(token) then Some(Plain("token cannot be empty"))
    else if expiresAt == 0 then Some(Plain("expiresAt cannot be zero"))
    else if IsEmptyUserID(userID) then Some(Plain("userID cannot be empty"))
    else None
  }

  /** `NewAuthToken`: the first failed check, or a token whose accessors give back the arguments. */
  function NewAuthToken(token: string, userID: string, expiresAt: int): (r: Result<AuthToken, Error>)
    ensures r.Err? <==> CheckNewAuthToken(token, userID, expiresAt).Some?
    ensures r.Err? ==> r.error == CheckNewAuthToken(token, userID, expiresAt).value
    ensures r.Ok? ==> r.value.token == token && r.value.userID == userID && r.value.expiresAt == expiresAt
  {
    var check := CheckNewAuthToken(token, userID, expiresAt);
    if check.Some? then Err(check.value) else Ok(AuthToken(token, userID, expiresAt))
  }

  /** A token that `NewAuthToken` would accept. */
  predicate WellFormed(a: AuthToken)
  {
    CheckNewAuthToken(a.token, a.userID, a.expiresAt).None?
  }

  /** `IsExpired`: the clock reading `now` is strictly after the expiry. */
  predicate IsExpired(a: AuthToken, now: int)
  {
    now > a.expiresAt
  }

  /** A token is still valid at its expiry instant, and once expired it stays expired. */
  lemma ExpiryIsFinal(a: AuthToken, now: int, later: int)
    ensures !IsExpired(a, a.expiresAt)
    ensures IsExpired(a, now) && now <= later ==> IsExpired(a, later)
  {
  }

  /** `models.User` of the auth service; the password is kept as the hash text. */
  datatype User = User(id: string, username: string, email: string, password: string)

  /** The checks of `NewUser` in source order: id, username, email, password. */
  function CheckNewUser(id: string, username: string, email: string, password: string): (r: Option<Error>)
    ensures r.None? <==> !IsEmptyUserID(id) && username != "" && email != "" && password != ""
    ensures IsEmptyUserID(id) ==> r == Some(Plain("id cannot be empty"))
    ensures !IsEmptyUserID(id) && username == "" ==> r == Some(Plain("username cannot be empty"))
    ensures !IsEmptyUserID(id) && username != "" && email == "" ==> r == Some(Plain("email cannot be empty"))
    ensures !IsEmptyUserID(id) && username != "" && email != "" && password == "" ==>
      r == Some(Plain("password cannot be empty"))
  {
    if IsEmptyUserID(id) then Some(Plain("id cannot be empty"))
    else if username == "" then Some(Plain("username cannot be empty"))
    else if email == "" then Some(Plain("email cannot be empty"))
    else if password == "" then Some(Plain("password cannot be empty"))
    else None
  }

  /** `NewUser`: the first failed check, or a user holding exactly the arguments. */
  function NewUser(id: string, username: string, email: string, password: string): (r: Result<User, Error>)
    ensures r.Err? <==> CheckNewUser(id, username, email, password).Some?
    ensures r.Err? ==> r.error == CheckNewUser(id, username, email, password).value
    ensures r.Ok? ==> r.value.id == id && r.value.username == username && r.value.email == email
                      && r.value.password == password
  {
    var check := CheckNewUser(id, username, email, password);
    if check.Some? then Err(check.value) else Ok(User(id, username, email, password))
  }
}
