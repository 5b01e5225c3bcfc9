/** auth-service/pkg/errors: its AppError record, constructors and GetErrorCode. */
module AuthErrors {
  import opened Wrappers
  import opened ErrorChain

  /** `(*AppError).Error()` is `Code + ": " + Message`. */
  function ErrorText(e: AuthAppError): (s: string)
    ensures s == Text(AuthApp(e))
    ensures |s| == |e.code| + 2 + |e.message|
    ensures s[..|e.code|] == e.code && s[|e.code|..|e.code| + 2] == ": " && s[|e.code| + 2..] == e.message
  {
    e.code + ": " + e.message
  }

  /** `(*AppError).Unwrap()`. */
  function UnwrapApp(e: AuthAppError): (r: Option<Error>)
    ensures r == e.err && r == Unwrap(AuthApp(e))
  {
    e.err
  }

  function NewNotFoundError(message: string): (e: Error)
    ensures e == AuthApp(AuthAppError(Some(Sentinel(ErrNotFound)), message, "NOT_FOUND"))
    ensures Is(e, ErrNotFound)
  { AuthApp(AuthAppError(Some(Sentinel(ErrNotFound)), message, "NOT_FOUND")) }

  function NewAlreadyExistsError(message: string): (e: Error)
    ensures e == AuthApp(AuthAppError(Some(Sentinel(ErrAlreadyExists)), message, "ALREADY_EXISTS"))
    ensures Is(e, ErrAlreadyExists)
  { AuthApp(AuthAppError(Some(Sentinel(ErrAlreadyExists)), message, "ALREADY_EXISTS")) }

  function NewUnauthorizedError(message: string): (e: Error)
    ensures e == AuthApp(AuthAppError(Some(Sentinel(ErrUnauthorized)), message, "UNAUTHORIZED"))
    ensures Is(e, ErrUnauthorized)
  { AuthApp(AuthAppError(Some(Sentinel(ErrUnauthorized)), message, "UNAUTHORIZED")) }

  function NewInvalidInputError(message: string): (e: Error)
    ensures e == AuthApp(AuthAppError(Some(Sentinel(ErrInvalidInput)), message, "INVALID_INPUT"))
    ensures Is(e, ErrInvalidInput)
  { AuthApp(AuthAppError(Some(Sentinel(ErrInvalidInput)), message, "INVALID_INPUT")) }

  /** Wraps the supplied error (possibly nil) under the INTERNAL code. */
  function NewInternalError(err: Option<Error>, message: string): (e: Error)
    ensures e == AuthApp(AuthAppError(err, message, "INTERNAL"))
    ensures forall s :: Is(e, s) <==> err.Some? && Is(err.value, s)
  { AuthApp(AuthAppError(err, message, "INTERNAL")) }

  /** `GetErrorCode(err)`: the Code of the first auth AppError in the chain, else "UNKNOWN". */
  function GetErrorCode(e: Error): string
    decreases e
  {
    if e.AuthApp? then e.auth.code
    else if Unwrap(e).Some? then GetErrorCode(Unwrap(e).value)
    else "UNKNOWN"
  }

  /** Position k of the chain is an auth AppError and none comes before it. */
  predicate FirstAuthAppAt(c: seq<Error>, k: int)
  {
    0 <= k < |c| && c[k].AuthApp? && forall j :: 0 <= j < k ==> !c[j].AuthApp?
  }

  /**
   * GetErrorCode is the code of the first auth AppError along the chain, and
   * "UNKNOWN" when the chain holds none; any number of %w wrappers leave it
   * unchanged.
   */
  lemma {:induction false} GetErrorCodeFindsFirst(e: Error)
    ensures forall k :: FirstAuthAppAt(Chain(e), k) ==> GetErrorCode(e) == Chain(e)[k].auth.code
    ensures (forall k :: 0 <= k < |Chain(e)| ==> !Chain(e)[k].AuthApp?) ==> GetErrorCode(e) == "UNKNOWN"
    ensures forall t :: GetErrorCode(Wrapped(t, e)) == GetErrorCode(e)
    decreases e
  {
    if !e.AuthApp? && Unwrap(e).Some? {
      var u := Unwrap(e).value;
      GetErrorCodeFindsFirst(u);
      assert Chain(e) == [e] + Chain(u);
      forall k | FirstAuthAppAt(Chain(e), k) ensures GetErrorCode(e) == Chain(e)[k].auth.code {
        assert k >= 1;
        assert Chain(e)[k] == Chain(u)[k - 1];
        forall j | 0 <= j < k - 1 ensures !Chain(u)[j].AuthApp? {
          assert Chain(u)[j] == Chain(e)[j + 1];
        }
        assert FirstAuthAppAt(Chain(u), k - 1);
      }
      if forall k :: 0 <= k < |Chain(e)| ==> !Chain(e)[k].AuthApp? {
        forall k | 0 <= k < |Chain(u)| ensures !Chain(u)[k].AuthApp? {
          assert Chain(u)[k] == Chain(e)[k + 1];
        }
      }
    }
  }

  /** Each constructor's code is what GetErrorCode reads back, even through a wrapper. */
  lemma ConstructorCodes(m: string, t: string, err: Option<Error>)
    ensures GetErrorCode(NewNotFoundError(m)) == "NOT_FOUND"
    ensures GetErrorCode(NewAlreadyExistsError(m)) == "ALREADY_EXISTS"
    ensures GetErrorCode(NewUnauthorizedError(m)) == "UNAUTHORIZED"
    ensures GetErrorCode(NewInvalidInputError(m)) == "INVALID_INPUT"
    ensures GetErrorCode(Wrapped(t, NewInternalError(err, m))) == "INTERNAL"
  {
  }
}
