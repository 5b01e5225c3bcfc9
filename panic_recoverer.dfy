/** pkg/platform/middleware/panic_recoverer.go: turns a handler panic into an Internal status. */
module PanicRecoverer {
  import opened Wrappers
  import opened GrpcCodes
  import opened ErrorChain

  /** How the wrapped handler ended: it returned (resp, err), or it panicked with a value. */
  datatype HandlerOutcome<R> = Returned(resp: Option<R>, err: Option<Error>) | Panicked(value: string)

  /** What the interceptor hands back to gRPC. */
  datatype Reply<R> = Reply(resp: Option<R>, err: Option<Error>)

  const RecoveredMessage := "Internal server error"

  /** `RecoveryInterceptor(log)` applied to one handler run. */
  function Recover<R>(h: HandlerOutcome<R>): (r: Reply<R>)
    ensures h.Returned? ==> r.resp == h.resp && r.err == h.err
    ensures h.Panicked? ==> r.resp.None? && r.err.Some?
    ensures h.Panicked? ==>
      StatusCode(r.err.value) == Some(Internal)
      && Text(r.err.value) == "rpc error: code = Internal desc = " + RecoveredMessage
  {
    match h
    case Returned(resp, err) => Reply(resp, err)
    case Panicked(_) =>
      assert CodeName(Internal) == "Internal";
      Reply(None, Some(Status(Internal, RecoveredMessage)))
  }
}
