/**
 * Go error values as the services build them: sentinel errors, the services'
 * structured AppError records, `fmt.Errorf("...%w", err)` wrappers, gRPC status
 * errors and opaque errors.  `errors.Is`, `Unwrap` and `status.FromError` walk
 * the chain formed by the wrapped errors.
 */
module ErrorChain {
  import opened Wrappers
  import opened GrpcCodes

  /** Sentinel error variables the model refers to. */
  datatype Sentinel =
    | ErrNotFound | ErrAlreadyExists | ErrUnauthorized | ErrInvalidInput | ErrForbidden
    | ErrDatabaseConnection | ErrDatabaseQuery | ErrValidation | ErrTimeout
    | ErrTokenExpired | ErrInvalidToken | ErrInternal | ErrServiceUnavailable
      // gobreaker's two rejection errors
    | ErrOpenState | ErrTooManyRequests
      // the two errors a context reports when it ends
    | ContextCanceled | ContextDeadlineExceeded

  function SentinelText(s: Sentinel): string
  {
    match s
    case ErrNotFound => "resource not found"
    case ErrAlreadyExists => "resource already exists"
    case ErrUnauthorized => "unauthorized"
    case ErrInvalidInput => "invalid input"
    case ErrForbidden => "forbidden"
    case ErrDatabaseConnection => "database connection error"
    case ErrDatabaseQuery => "database query error"
    case ErrValidation => "validation error"
    case ErrTimeout => "operation timeout"
    case ErrTokenExpired => "token expired"
    case ErrInvalidToken => "invalid token"
    case ErrInternal => "internal error"
    case ErrServiceUnavailable => "service unavailable"
    case ErrOpenState => "circuit breaker is open"
    case ErrTooManyRequests => "too many requests"
    case ContextCanceled => "context canceled"
    case ContextDeadlineExceeded => "context deadline exceeded"
  }

  /**
   * The structured error of friends-service/pkg/errors: a wrapped error, a
   * message, a code, an optional details map (nil is None) and a retry flag.
   * Detail values are kept in their printed (`%v`) form.
   */
  datatype AppError = AppError(
    err: Option<Error>,
    message: string,
    code: string,
    details: Option<map<string, string>>,
    retriable: bool)

  /** The structured error of auth-service/pkg/errors. */
  datatype AuthAppError = AuthAppError(err: Option<Error>, message: string, code: string)

  datatype Error =
    | Sentinel(kind: Sentinel)
    | App(app: AppError)
    | AuthApp(auth: AuthAppError)
      // fmt.Errorf with %w: the formatted text and the wrapped error
    | Wrapped(text: string, inner: Error)
      // status.Error(code, message)
    | Status(code: Code, message: string)
      // errors.New, or fmt.Errorf without %w
    | Plain(text: string)

  /** `err.Error()`. */
  function Text(e: Error): string
  {
    match e
    case Sentinel(s) => SentinelText(s)
    case App(a) =>
      if a.message != "" then a.message
      else if a.err.Some? then Text(a.err.value)
      else "unknown error"
    case AuthApp(a) => a.code + ": " + a.message
    case Wrapped(t, _) => t
    case Status(c, m) => "rpc error: code = " + CodeName(c) + " desc = " + m
    case Plain(t) => t
  }

  /** `errors.Unwrap(err)`. */
  function Unwrap(e: Error): (r: Option<Error>)
    ensures r.Some? ==> r.value < e
  {
    match e
    case App(a) => a.err
    case AuthApp(a) => a.err
    case Wrapped(_, inner) => Some(inner)
    case _ => None
  }

  /** The chain `errors.Is` and `errors.As` walk: the error, then each error `Unwrap` reaches from it. */
  function Chain(e: Error): (c: seq<Error>)
    ensures |c| >= 1 && c[0] == e
    ensures Unwrap(e).None? ==> |c| == 1
    decreases e
  {
    if Unwrap(e).Some? then [e] + Chain(Unwrap(e).value) else [e]
  }

  /** `errors.Is(err, target)` for a sentinel target: the sentinel occurs in the chain. */
  predicate Is(e: Error, s: Sentinel)
    decreases e
  {
    e == Sentinel(s) || (Unwrap(e).Some? && Is(Unwrap(e).value, s))
  }

  /**
   * The code `status.FromError(err)` reports when it succeeds: that of the
   * first status error in the chain; None when the chain holds none.
   */
  function StatusCode(e: Error): Option<Code>
    decreases e
  {
    if e.Status? then Some(e.code)
    else if Unwrap(e).Some? then StatusCode(Unwrap(e).value)
    else None
  }

  /** Wrapping with %w keeps every sentinel and the status of the wrapped chain. */
  lemma {:induction false} WrappingPreservesChain(t: string, e: Error, s: Sentinel)
    ensures Is(Wrapped(t, e), s) <==> Is(e, s)
    ensures StatusCode(Wrapped(t, e)) == StatusCode(e)
  {
  }
}
