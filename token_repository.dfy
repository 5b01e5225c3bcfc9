/**
 * auth-service/internal/app/repositories/auth/in_memory/token_repository.go:
 * auth tokens by their token string.  Locking and logging are not modelled;
 * the clock reading `ValidateToken` uses is a parameter.
 */
module TokenRepository {
  import opened Wrappers
  import opened ErrorChain
  import opened AuthModels

  class TokenRepository {
    var tokens: map<string, AuthToken>

    /** Every stored token sits under its own token string and passed `NewAuthToken`'s checks. */
    ghost predicate Valid()
      reads this
    {
      forall t :: t in tokens ==> tokens[t].token == t && WellFormed(tokens[t])
    }

    /** `NewTokenRepository`: no tokens. */
    constructor ()
      ensures Valid() && tokens == map[]
    {
      tokens := map[];
    }

    /**
     * `Create`: a token string already stored, or a token `NewAuthToken`
     * refuses, is an error that stores nothing; otherwise the token is stored
     * under its own string and handed back.
     */
    method Create(auth: AuthToken) returns (r: Result<AuthToken, Error>)
      requires Valid()
      modifies this
      ensures Valid()
      ensures auth.token in old(tokens) ==> r == Err(Plain("token already exists")) && tokens == old(tokens)
      ensures auth.token !in old(tokens) && !WellFormed(auth) ==>
        r == Err(CheckNewAuthToken(auth.token, auth.userID, auth.expiresAt).value) && tokens == old(tokens)
      ensures auth.token !in old(tokens) && WellFormed(auth) ==>
        r == Ok(auth) && tokens == old(tokens)[auth.token := auth]
    {
      if auth.token in tokens {
        return Err(Plain("token already exists"));
      }
      var token := NewAuthToken(auth.token, auth.userID, auth.expiresAt);
      if token.Err? {
        return Err(token.error);
      }
      tokens := tokens[token.value.token := token.value];
      return Ok(token.value);
    }

    /** `FindToken`: the stored token string, or "" and an error. */
    method FindToken(token: string) returns (t: string, err: Option<Error>)
      requires Valid()
      ensures token in tokens ==> t == token && err.None?
      ensures token !in tokens ==> t == "" && err == Some(Plain("token not found"))
    {
      if token !in tokens {
        return "", Some(Plain("token not found"));
      }
      return tokens[token].token, None;
    }

    /**
     * `ValidateToken`: true exactly for a stored token that has not expired at
     * `now`; every false comes with the error that says why.
     */
    method ValidateToken(token: string, now: int) returns (valid: bool, err: Option<Error>)
      ensures valid <==> err.None?
      ensures valid <==> token in tokens && !IsExpired(tokens[token], now)
      ensures token !in tokens ==> err == Some(Plain("token not found"))
      ensures token in tokens && IsExpired(tokens[token], now) ==> err == Some(Plain("token is expired"))
    {
      if token !in tokens {
        return false, Some(Plain("token not found"));
      }
      if IsExpired(tokens[token], now) {
        return false, Some(Plain("token is expired"));
      }
      return true, None;
    }

    /** `DeleteToken`: removes that one token; a missing one is an error that changes nothing. */
    method DeleteToken(token: string) returns (err: Option<Error>)
      requires Valid()
      modifies this
      ensures Valid()
      ensures token !in old(tokens) ==> err == Some(Plain("token not found")) && tokens == old(tokens)
      ensures token in old(tokens) ==> err.None? && tokens == old(tokens) - {token}
    {
      if token !in tokens {
        return Some(Plain("token not found"));
      }
      tokens := tokens - {token};
      return None;
    }
  }
}
