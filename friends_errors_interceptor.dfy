/**
 * friends-service/internal/middleware/grpc/errors_interceptors.go: turns a
 * handler's domain error into a gRPC status error, choosing the code by the
 * first sentinel case, in switch order, that the error chain matches.
 */
module FriendsErrorsInterceptor {
  import opened Wrappers
  import opened GrpcCodes
  import opened ErrorChain
  import FriendsErrors
  import opened PanicRecoverer

  /** The code switch. */
  function MapCode(e: Error): (c: Code)
    ensures Is(e, ErrNotFound) ==> c == NotFound
    ensures !Is(e, ErrNotFound) && Is(e, ErrAlreadyExists) ==> c == AlreadyExists
    ensures !Is(e, ErrNotFound) && !Is(e, ErrAlreadyExists) && Is(e, ErrUnauthorized) ==> c == Unauthenticated
    ensures c == Internal <==>
      && !Is(e, ErrNotFound) && !Is(e, ErrAlreadyExists) && !Is(e, ErrUnauthorized) && !Is(e, ErrForbidden)
      && !Is(e, ErrInvalidInput) && !Is(e, ErrValidation)
      && !Is(e, ErrDatabaseConnection) && !Is(e, ErrDatabaseQuery) && !Is(e, ErrTimeout)
  {
    if Is(e, ErrNotFound) then NotFound
    else if Is(e, ErrAlreadyExists) then AlreadyExists
    else if Is(e, ErrUnauthorized) then Unauthenticated
    else if Is(e, ErrForbidden) then PermissionDenied
    else if Is(e, ErrInvalidInput) || Is(e, ErrValidation) then InvalidArgument
    else if Is(e, ErrDatabaseConnection) || Is(e, ErrDatabaseQuery) then Unavailable
    else if Is(e, ErrTimeout) then DeadlineExceeded
    else Internal
  }

  /**
   * The interceptor applied to the handler's (resp, err): success and errors
   * that already carry a status pass through; any other error becomes a
   * status error with the mapped code, the error's own text and no response.
   */
  function Intercept<R>(resp: Option<R>, err: Option<Error>): (r: Reply<R>)
    ensures err.None? ==> r == Reply(resp, None)
    ensures err.Some? && StatusCode(err.value).Some? ==> r == Reply(resp, err)
    ensures err.Some? && StatusCode(err.value).None? ==>
      r.resp.None? && r.err == Some(Status(MapCode(err.value), Text(err.value)))
    ensures r.err.Some? <==> err.Some?
    ensures r.err.Some? ==> StatusCode(r.err.value).Some?
  {
    if err.None? then Reply(resp, None)
    else if StatusCode(err.value).Some? then Reply(resp, err)
    else Reply(None, Some(Status(MapCode(err.value), Text(err.value))))
  }

  /** Running the interceptor on its own output changes nothing. */
  lemma InterceptIdempotent<R>(resp: Option<R>, err: Option<Error>)
    ensures Intercept(Intercept(resp, err).resp, Intercept(resp, err).err) == Intercept(resp, err)
  {
  }

  /** The friends-service constructors reach the codes their sentinels name, however often they are wrapped. */
  lemma ConstructorCodes(m: string, t: string)
    ensures MapCode(FriendsErrors.NewNotFoundError(m)) == NotFound
    ensures MapCode(FriendsErrors.NewAlreadyExistsError(m)) == AlreadyExists
    ensures MapCode(FriendsErrors.NewUnauthorizedError(m)) == Unauthenticated
    ensures MapCode(FriendsErrors.NewForbiddenError(m)) == PermissionDenied
    ensures MapCode(FriendsErrors.NewInvalidInputError(m)) == InvalidArgument
    ensures MapCode(FriendsErrors.NewValidationError(m)) == InvalidArgument
    ensures MapCode(Wrapped(t, FriendsErrors.NewTimeoutError(m))) == DeadlineExceeded
    ensures MapCode(FriendsErrors.NewInternalError(None, m)) == Internal
  {
    ClientErrorCodes(m);
    ServerErrorCodes(m, t);
  }

  lemma ClientErrorCodes(m: string)
    ensures MapCode(FriendsErrors.NewNotFoundError(m)) == NotFound
    ensures MapCode(FriendsErrors.NewAlreadyExistsError(m)) == AlreadyExists
    ensures MapCode(FriendsErrors.NewUnauthorizedError(m)) == Unauthenticated
    ensures MapCode(FriendsErrors.NewForbiddenError(m)) == PermissionDenied
  {
  }

  lemma ServerErrorCodes(m: string, t: string)
    ensures MapCode(FriendsErrors.NewInvalidInputError(m)) == InvalidArgument
    ensures MapCode(FriendsErrors.NewValidationError(m)) == InvalidArgument
    ensures MapCode(Wrapped(t, FriendsErrors.NewTimeoutError(m))) == DeadlineExceeded
    ensures MapCode(FriendsErrors.NewInternalError(None, m)) == Internal
  {
    var e := FriendsErrors.NewTimeoutError(m);
    assert forall s :: Is(Wrapped(t, e), s) <==> Is(e, s);
  }

  /**
   * Switch order decides between sentinels: an error wrapping a database
   * error whose chain also holds NotFound maps to NotFound.
   */
  lemma FirstCaseWins(m: string)
    ensures MapCode(FriendsErrors.NewInternalError(Some(Wrapped(m, Sentinel(ErrNotFound))), m)) == NotFound
    ensures MapCode(App(AppError(Some(FriendsErrors.NewValidationError(m)), m, "", None, false))) == InvalidArgument
  {
    assert Is(Wrapped(m, Sentinel(ErrNotFound)), ErrNotFound);
    var v := FriendsErrors.NewValidationError(m);
    assert forall s :: Is(App(AppError(Some(v), m, "", None, false)), s) <==> Is(v, s);
  }
}
