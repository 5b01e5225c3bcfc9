/**
 * The auth use cases `Login` (login.go) and `Logout` (logout.go) under
 * auth-service/internal/app/usecases/auth.  The repositories, bcrypt, the
 * UUID generator and the clock are parameters; each use case reports the
 * repository and library calls it made, in order.
 */
module AuthUseCases {
  import opened Wrappers
  import opened ErrorChain
  import FriendsErrors
  import opened AuthModels

  datatype Call =
    | FindUserByEmail(email: string)
    | CompareHashAndPassword(hash: string, password: string)
    | CreateToken(authToken: AuthToken)
    | ValidateToken(token: string)
    | DeleteToken(token: string)

  /** The returned token (or error) and the calls made. */
  datatype LoginOutcome = LoginOutcome(result: Result<string, Error>, calls: seq<Call>)

  /**
   * `Login`: looks the user up, compares the password with the stored hash,
   * builds a token `newToken` for that user expiring `ttl` after `now`, and
   * saves it; each failure returns its error and ends the call.
   */
  function Login(email: string, password: string,
                 findUser: string -> Result<User, Error>,
                 passwordMatches: (string, string) -> bool,
                 newToken: string, now: int, ttl: int,
                 saveToken: AuthToken -> Result<AuthToken, Error>): (r: LoginOutcome)
    ensures |r.calls| >= 1 && r.calls[0] == FindUserByEmail(email)
    ensures findUser(email).Err? ==> r == LoginOutcome(Err(findUser(email).error), [FindUserByEmail(email)])
    ensures findUser(email).Ok? ==> |r.calls| >= 2 && r.calls[1] == CompareHashAndPassword(findUser(email).value.password, password)
    ensures findUser(email).Ok? && !passwordMatches(findUser(email).value.password, password) ==>
      r.result == Err(Plain("invalid credentials")) && |r.calls| == 2
  {
    var user := findUser(email);
    if user.Err? then LoginOutcome(Err(user.error), [FindUserByEmail(email)])
    else
      var compared := [FindUserByEmail(email), CompareHashAndPassword(user.value.password, password)];
      if !passwordMatches(user.value.password, password) then LoginOutcome(Err(Plain("invalid credentials")), compared)
      else
        var token := NewAuthToken(newToken, user.value.id, now + ttl);
        if token.Err? then LoginOutcome(Err(token.error), compared)
        else
          var saved := saveToken(token.value);
          var calls := compared + [CreateToken(token.value)];
          if saved.Err? then LoginOutcome(Err(saved.error), calls)
          else LoginOutcome(Ok(saved.value.token), calls)
  }

  /**
   * A login succeeds exactly when the user is found, the password matches,
   * the new token is well formed and the save succeeds; the saved token is
   * the user's, expires at now + ttl, and the caller gets back the token
   * string the repository returned.  A token is saved only after the password
   * matched.
   */
  lemma LoginMeaning(email: string, password: string,
                     findUser: string -> Result<User, Error>,
                     passwordMatches: (string, string) -> bool,
                     newToken: string, now: int, ttl: int,
                     saveToken: AuthToken -> Result<AuthToken, Error>)
    ensures var r := Login(email, password, findUser, passwordMatches, newToken, now, ttl, saveToken);
      r.result.Ok? <==>
        && findUser(email).Ok? && passwordMatches(findUser(email).value.password, password)
        && WellFormed(AuthToken(newToken, findUser(email).value.id, now + ttl))
        && saveToken(AuthToken(newToken, findUser(email).value.id, now + ttl)).Ok?
    ensures var r := Login(email, password, findUser, passwordMatches, newToken, now, ttl, saveToken);
      r.result.Ok? ==> r.result.value == saveToken(AuthToken(newToken, findUser(email).value.id, now + ttl)).value.token
    ensures var r := Login(email, password, findUser, passwordMatches, newToken, now, ttl, saveToken);
      forall t :: CreateToken(t) in r.calls ==>
        && findUser(email).Ok? && passwordMatches(findUser(email).value.password, password)
        && t == AuthToken(newToken, findUser(email).value.id, now + ttl)
    ensures var r := Login(email, password, findUser, passwordMatches, newToken, now, ttl, saveToken);
      findUser(email).Ok? && passwordMatches(findUser(email).value.password, password)
      && WellFormed(AuthToken(newToken, findUser(email).value.id, now + ttl))
      && saveToken(AuthToken(newToken, findUser(email).value.id, now + ttl)).Err? ==>
        r.result == Err(saveToken(AuthToken(newToken, findUser(email).value.id, now + ttl)).error)
  {
  }

  /** The error `Logout` builds when validation says "not valid" without an error. */
  function InvalidTokenError(token: string): (e: Error)
    ensures Is(e, ErrInvalidToken) && e.App? && e.app.code == FriendsErrors.CodeToken
    ensures e.app.details == Some(map["token" := token])
  {
    var base := FriendsErrors.NewTokenError(Some(Sentinel(ErrInvalidToken)), "token is invalid");
    App(FriendsErrors.WithDetails(base.app, "token", token))
  }

  datatype LogoutOutcome = LogoutOutcome(err: Option<Error>, calls: seq<Call>)

  /**
   * `Logout`: validates the token and deletes it; a validation error, a
   * "not valid" answer or a delete error ends the call with that error.
   */
  function Logout(token: string, validate: string -> (bool, Option<Error>), delete: string -> Option<Error>): (r: LogoutOutcome)
    ensures |r.calls| >= 1 && r.calls[0] == ValidateToken(token)
    ensures DeleteToken(token) in r.calls <==> validate(token).1.None? && validate(token).0
    ensures r.err.None? <==> validate(token).1.None? && validate(token).0 && delete(token).None?
  {
    var (valid, err) := validate(token);
    if err.Some? then LogoutOutcome(err, [ValidateToken(token)])
    else if !valid then LogoutOutcome(Some(InvalidTokenError(token)), [ValidateToken(token)])
    else
      var deleted := delete(token);
      LogoutOutcome(deleted, [ValidateToken(token), DeleteToken(token)])
  }

  /** Each failing step of `Logout` reports its own error, untouched. */
  lemma LogoutErrors(token: string, validate: string -> (bool, Option<Error>), delete: string -> Option<Error>)
    ensures validate(token).1.Some? ==> Logout(token, validate, delete) == LogoutOutcome(validate(token).1, [ValidateToken(token)])
    ensures validate(token).1.None? && !validate(token).0 ==>
      Logout(token, validate, delete).err == Some(InvalidTokenError(token))
    ensures validate(token).1.None? && validate(token).0 ==>
      Logout(token, validate, delete).err == delete(token)
  {
  }

  /**
   * With answers shaped like the in-memory token repository's, where
   * `ValidateToken` pairs every false with an error, the "not valid, no
   * error" branch never runs: logout fails with the validation error or else
   * is the delete's outcome.
   */
  lemma LogoutWithRepositoryAnswers(token: string, validate: string -> (bool, Option<Error>), delete: string -> Option<Error>)
    requires validate(token).0 <==> validate(token).1.None?
    ensures Logout(token, validate, delete).err == if validate(token).1.Some? then validate(token).1 else delete(token)
  {
  }
}
