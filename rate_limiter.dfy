/**
 * pkg/platform/middleware/rate_limiter.go: the client-side interceptor and the
 * server-side limiter with a global limiter and lazily created per-method
 * limiters.
 *
 * The token bucket of golang.org/x/time/rate is outside the model: a limiter
 * keeps only its configuration, and whether `Wait` or `Allow` admits a call is
 * a parameter of the interception.
 */
module RateLimiter {
  import opened Wrappers
  import opened GrpcCodes
  import opened ErrorChain

  const ClientLimitMessage := "client-side rate limit exceeded"
  const GlobalLimitMessage := "global rate limit exceeded"
  const MethodLimitMessage := "rate limit exceeded"

  /** The result of `NewClientInterceptor(log, limit, burst)` for one call. */
  datatype ClientOutcome = ClientOutcome(err: Option<Error>, invoked: bool)

  /** `waitOk` says whether `limiter.Wait(ctx)` returned nil; `invokeErr` is the invoker's answer. */
  function ClientIntercept(waitOk: bool, invokeErr: Option<Error>): (r: ClientOutcome)
    ensures r.invoked <==> waitOk
    ensures waitOk ==> r.err == invokeErr
    ensures !waitOk ==> r.err == Some(Status(ResourceExhausted, ClientLimitMessage))
  {
    if !waitOk then ClientOutcome(Some(Status(ResourceExhausted, ClientLimitMessage)), false)
    else ClientOutcome(invokeErr, true)
  }

  /** A `*rate.Limiter`: its identity and its configuration. */
  class Limiter {
    const limit: real
    const burst: int

    constructor (limit: real, burst: int)
      ensures this.limit == limit && this.burst == burst
    {
      this.limit := limit;
      this.burst := burst;
    }
  }

  /** What the server interceptor returns, and whether it ran the handler. */
  datatype ServerOutcome<R> = ServerOutcome(resp: Option<R>, err: Option<Error>, handled: bool)

  class ServerLimiter {
    const defaultLimit: real
    const defaultBurst: int
    var methodLimits: map<string, Limiter>
    var globalLimiter: Option<Limiter>

    /** `NewServerInterceptor(log, defaultLimit, defaultBurst)`. */
    constructor (defaultLimit: real, defaultBurst: int)
      ensures this.defaultLimit == defaultLimit && this.defaultBurst == defaultBurst
      ensures methodLimits == map[] && globalLimiter.None?
    {
      this.defaultLimit := defaultLimit;
      this.defaultBurst := defaultBurst;
      methodLimits := map[];
      globalLimiter := None;
    }

    /** `WithMethodLimit`: a new limiter for that method, every other entry untouched. */
    method WithMethodLimit(fullMethodName: string, limit: real, burst: int) returns (s: ServerLimiter)
      modifies this
      ensures s == this
      ensures fullMethodName in methodLimits && fresh(methodLimits[fullMethodName])
      ensures methodLimits[fullMethodName].limit == limit && methodLimits[fullMethodName].burst == burst
      ensures methodLimits.Keys == old(methodLimits).Keys + {fullMethodName}
      ensures forall m :: m in old(methodLimits) && m != fullMethodName ==> methodLimits[m] == old(methodLimits)[m]
      ensures globalLimiter == old(globalLimiter)
    {
      var l := new Limiter(limit, burst);
      methodLimits := methodLimits[fullMethodName := l];
      s := this;
    }

    /** `WithGlobalLimit`: a new global limiter; the method map is untouched. */
    method WithGlobalLimit(limit: real, burst: int) returns (s: ServerLimiter)
      modifies this
      ensures s == this
      ensures globalLimiter.Some? && fresh(globalLimiter.value)
      ensures globalLimiter.value.limit == limit && globalLimiter.value.burst == burst
      ensures methodLimits == old(methodLimits)
    {
      var l := new Limiter(limit, burst);
      globalLimiter := Some(l);
      s := this;
    }

    /**
     * The interceptor for one call to `fullMethod`. `globalAllow` is what the
     * global limiter's Allow() answers (asked only when one is set),
     * `methodAllow` what the method's limiter answers, and (`resp`, `err`) what
     * the handler returns if it runs.
     */
    method Intercept<R>(fullMethod: string, globalAllow: bool, methodAllow: bool, resp: Option<R>, err: Option<Error>)
      returns (r: ServerOutcome<R>)
      modifies this
      ensures globalLimiter == old(globalLimiter)
      ensures old(globalLimiter).Some? && !globalAllow ==>
        r == ServerOutcome(None, Some(Status(ResourceExhausted, GlobalLimitMessage)), false)
        && methodLimits == old(methodLimits)
      ensures old(globalLimiter).None? || globalAllow ==>
        && fullMethod in methodLimits
        && methodLimits.Keys == old(methodLimits).Keys + {fullMethod}
        && (fullMethod !in old(methodLimits) ==>
              fresh(methodLimits[fullMethod])
              && methodLimits[fullMethod].limit == defaultLimit
              && methodLimits[fullMethod].burst == defaultBurst)
        && r == (if methodAllow then ServerOutcome(resp, err, true)
                 else ServerOutcome(None, Some(Status(ResourceExhausted, MethodLimitMessage)), false))
      ensures forall m :: m in old(methodLimits) ==> m in methodLimits && methodLimits[m] == old(methodLimits)[m]
      ensures r.handled <==> (old(globalLimiter).None? || globalAllow) && methodAllow
    {
      if globalLimiter.Some? && !globalAllow {
        return ServerOutcome(None, Some(Status(ResourceExhausted, GlobalLimitMessage)), false);
      }
      if fullMethod !in methodLimits {
        var limiter := new Limiter(defaultLimit, defaultBurst);
        methodLimits := methodLimits[fullMethod := limiter];
      }
      if !methodAllow {
        return ServerOutcome(None, Some(Status(ResourceExhausted, MethodLimitMessage)), false);
      }
      return ServerOutcome(resp, err, true);
    }
  }
}
