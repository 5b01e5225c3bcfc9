/** friends-service/pkg/errors: the AppError record, its methods and constructors. */
module FriendsErrors {
  import opened Wrappers
  import opened ErrorChain

  const CodeNotFound := "NOT_FOUND"
  const CodeAlreadyExists := "ALREADY_EXISTS"
  const CodeForbidden := "FORBIDDEN"
  const CodeUnauthorized := "UNAUTHORIZED"
  const CodeInvalidInput := "INVALID_INPUT"
  const CodeValidation := "VALIDATION"
  const CodeInternal := "INTERNAL"
  const CodeTimeout := "TIMEOUT"
  const CodeToken := "TOKEN"
  const CodeService := "SERVICE"

  /** `(*AppError).Error()`: the message, else the wrapped error's text, else "unknown error". */
  function ErrorText(e: AppError): (s: string)
    ensures e.message != "" ==> s == e.message
    ensures e.message == "" && e.err.Some? ==> s == Text(e.err.value)
    ensures e.message == "" && e.err.None? ==> s == "unknown error"
    ensures s == Text(App(e))
  {
    if e.message != "" then e.message
    else if e.err.Some? then Text(e.err.value)
    else "unknown error"
  }

  /** `(*AppError).Unwrap()`. */
  function UnwrapApp(e: AppError): (r: Option<Error>)
    ensures r == e.err && r == Unwrap(App(e))
  {
    e.err
  }

  /**
   * `(*AppError).WithDetails(key, value)`: creates the map when it is nil and
   * sets that one key; every other field and every other key stays as it was.
   */
  function WithDetails(e: AppError, key: string, value: string): (r: AppError)
    ensures r.details.Some? && key in r.details.value && r.details.value[key] == value
    ensures e.details.None? ==> r.details.value.Keys == {key}
    ensures e.details.Some? ==> r.details.value.Keys == e.details.value.Keys + {key}
    ensures e.details.Some? ==>
      forall k :: k in e.details.value && k != key ==> r.details.value[k] == e.details.value[k]
    ensures r.err == e.err && r.message == e.message && r.code == e.code && r.retriable == e.retriable
  {
    var m := if e.details.None? then map[] else e.details.value;
    e.(details := Some(m[key := value]))
  }

  /** The common shape of the constructors that wrap a fixed sentinel. */
  function Make(s: Sentinel, code: string, message: string): (e: Error)
    ensures forall t :: Is(e, t) <==> t == s
  {
    var e := App(AppError(Some(Sentinel(s)), message, code, None, false));
    assert forall t :: Is(e, t) <==> Is(Sentinel(s), t);
    e
  }

  /** What every sentinel constructor promises: its code, its sentinel, its text, no retry. */
  ghost predicate BuiltFrom(e: Error, s: Sentinel, code: string, message: string)
  {
    && e.App? && e.app.code == code && e.app.err == Some(Sentinel(s))
    && e.app.message == message && e.app.details.None? && !e.app.retriable
    && (forall t :: Is(e, t) <==> t == s) && (message != "" ==> Text(e) == message)
  }

  function NewNotFoundError(message: string): (e: Error)
    ensures BuiltFrom(e, ErrNotFound, CodeNotFound, message)
  { Make(ErrNotFound, CodeNotFound, message) }

  function NewAlreadyExistsError(message: string): (e: Error)
    ensures BuiltFrom(e, ErrAlreadyExists, CodeAlreadyExists, message)
  { Make(ErrAlreadyExists, CodeAlreadyExists, message) }

  function NewUnauthorizedError(message: string): (e: Error)
    ensures BuiltFrom(e, ErrUnauthorized, CodeUnauthorized, message)
  { Make(ErrUnauthorized, CodeUnauthorized, message) }

  function NewForbiddenError(message: string): (e: Error)
    ensures BuiltFrom(e, ErrForbidden, CodeForbidden, message)
  { Make(ErrForbidden, CodeForbidden, message) }

  function NewInvalidInputError(message: string): (e: Error)
    ensures BuiltFrom(e, ErrInvalidInput, CodeInvalidInput, message)
  { Make(ErrInvalidInput, CodeInvalidInput, message) }

  function NewValidationError(message: string): (e: Error)
    ensures BuiltFrom(e, ErrValidation, CodeValidation, message)
  { Make(ErrValidation, CodeValidation, message) }

  function NewTimeoutError(message: string): (e: Error)
    ensures BuiltFrom(e, ErrTimeout, CodeTimeout, message)
  { Make(ErrTimeout, CodeTimeout, message) }

  /** The constructors that wrap the error they are given (which may be nil) instead of a sentinel. */
  function MakeWrapping(err: Option<Error>, code: string, message: string): (e: Error)
    ensures e.App? && e.app.err == err && e.app.code == code && e.app.message == message
    ensures e.app.details.None? && !e.app.retriable
    ensures forall s :: Is(e, s) <==> err.Some? && Is(err.value, s)
  {
    App(AppError(err, message, code, None, false))
  }

  function NewInternalError(err: Option<Error>, message: string): (e: Error)
    ensures e == MakeWrapping(err, CodeInternal, message)
  { MakeWrapping(err, CodeInternal, message) }

  function NewTokenError(err: Option<Error>, message: string): (e: Error)
    ensures e == MakeWrapping(err, CodeToken, message)
  { MakeWrapping(err, CodeToken, message) }

  function NewServiceError(err: Option<Error>, message: string): (e: Error)
    ensures e == MakeWrapping(err, CodeService, message)
  { MakeWrapping(err, CodeService, message) }
}
