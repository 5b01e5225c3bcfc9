/**
 * pkg/platform/middleware/retry.go: the client interceptor that re-issues a
 * call while it fails with a retryable gRPC status, for requests that carry an
 * idempotency token.
 *
 * The invoker, the context and the delay timer are outside the model: the
 * answer of the k-th call is `invoke(k)`, and `ctxDone(k)` says whether the
 * select after the k-th call picked the context's Done channel (whose error is
 * `ctxErr`) rather than the timer.
 */
module Retry {
  import opened Wrappers
  import opened GrpcCodes
  import opened ErrorChain

  /** Outgoing metadata: absent, or a map from lower-case keys to their values. */
  type Metadata = Option<map<string, seq<string>>>

  const IdempotencyKey := "x-idempotency-token"

  /** `canRetryGrpcRequest`: metadata is present and its first idempotency token is non-empty. */
  predicate CanRetry(md: Metadata)
  {
    md.Some? && IdempotencyKey in md.value
    && |md.value[IdempotencyKey]| > 0 && md.value[IdempotencyKey][0] != ""
  }

  /** `isRetryableStatusCode`. */
  predicate IsRetryableCode(c: Code)
  {
    c in {Unavailable, DeadlineExceeded, ResourceExhausted, Aborted, Internal}
  }

  /** The error carries a gRPC status (`status.FromError` succeeds) whose code is retryable. */
  predicate IsRetryableError(e: Error)
  {
    StatusCode(e).Some? && IsRetryableCode(StatusCode(e).value)
  }

  /** What one interception returns and how many times it called the invoker. */
  datatype Outcome = Outcome(err: Option<Error>, calls: nat)

  /** The loop from attempt `a` on, `lastErr` being the error kept from attempt a - 1. */
  function Attempts(a: nat, maxRetries: int, invoke: nat -> Option<Error>, ctxDone: nat -> bool,
                    ctxErr: Error, lastErr: Option<Error>): Outcome
    decreases maxRetries - a + 1
  {
    if a > maxRetries then Outcome(lastErr, a)
    else
      var err := invoke(a);
      if err.None? then Outcome(None, a + 1)
      else if !IsRetryableError(err.value) then Outcome(err, a + 1)
      else if ctxDone(a) then Outcome(Some(ctxErr), a + 1)
      else Attempts(a + 1, maxRetries, invoke, ctxDone, ctxErr, err)
  }

  /** The whole interceptor: one plain call without a token, the retry loop with one. */
  function Intercept(maxRetries: int, md: Metadata, invoke: nat -> Option<Error>,
                     ctxDone: nat -> bool, ctxErr: Error): Outcome
  {
    if !CanRetry(md) then Outcome(invoke(0), 1)
    else Attempts(0, maxRetries, invoke, ctxDone, ctxErr, None)
  }

  /** `RetryUnaryClientInterceptor(maxRetries, delay, log)` applied to one call. */
  method RetryInterceptor(maxRetries: int, md: Metadata, invoke: nat -> Option<Error>,
                          ctxDone: nat -> bool, ctxErr: Error)
    returns (err: Option<Error>, calls: nat)
    ensures Outcome(err, calls) == Intercept(maxRetries, md, invoke, ctxDone, ctxErr)
  {
    if !CanRetry(md) {
      return invoke(0), 1;
    }
    var lastErr: Option<Error> := None;
    var attempts: nat := 0;
    while attempts <= maxRetries
      invariant attempts == 0 ==> lastErr.None?
      invariant Attempts(attempts, maxRetries, invoke, ctxDone, ctxErr, lastErr)
             == Attempts(0, maxRetries, invoke, ctxDone, ctxErr, None)
      decreases maxRetries - attempts
    {
      var e := invoke(attempts);
      if e.None? {
        return None, attempts + 1;
      }
      lastErr := e;
      if !IsRetryableError(e.value) {
        return e, attempts + 1;
      }
      if ctxDone(attempts) {
        return Some(ctxErr), attempts + 1;
      }
      attempts := attempts + 1;
    }
    return lastErr, attempts;
  }

  /**
   * Every call but the last one of the loop failed with a retryable status and
   * the context was still live after it; the loop never calls more than
   * maxRetries + 1 times; and its result is nil (the last call succeeded, or
   * there was no attempt at all), the last call's error, or the context's error.
   */
  lemma {:induction false} AttemptsShape(a: nat, maxRetries: int, invoke: nat -> Option<Error>,
                                         ctxDone: nat -> bool, ctxErr: Error, lastErr: Option<Error>)
    requires a > 0 ==> lastErr == invoke(a - 1) && lastErr.Some?
    ensures var o := Attempts(a, maxRetries, invoke, ctxDone, ctxErr, lastErr);
      && a <= o.calls
      && (a <= maxRetries ==> a < o.calls <= maxRetries + 1)
      && (a > maxRetries ==> o.calls == a && o.err == lastErr)
      && (forall k: nat :: a <= k && k + 1 < o.calls ==>
            invoke(k).Some? && IsRetryableError(invoke(k).value) && !ctxDone(k))
      && (o.calls > a ==>
            || (o.err.None? && invoke(o.calls - 1).None?)
            || (o.err == invoke(o.calls - 1) && o.err.Some? && !IsRetryableError(o.err.value))
            || (o.err == Some(ctxErr) && ctxDone(o.calls - 1) && invoke(o.calls - 1).Some?)
            || (o.err == invoke(o.calls - 1) && o.calls == maxRetries + 1 && o.err.Some?
                && IsRetryableError(o.err.value) && !ctxDone(o.calls - 1)))
    decreases maxRetries - a + 1
  {
    if a <= maxRetries {
      var err := invoke(a);
      if err.Some? && IsRetryableError(err.value) && !ctxDone(a) {
        AttemptsShape(a + 1, maxRetries, invoke, ctxDone, ctxErr, err);
      }
    }
  }

  /** Without a usable idempotency token the call is made exactly once and its error is returned as is. */
  lemma NoTokenNoRetry(maxRetries: int, md: Metadata, invoke: nat -> Option<Error>,
                       ctxDone: nat -> bool, ctxErr: Error)
    requires !CanRetry(md)
    ensures Intercept(maxRetries, md, invoke, ctxDone, ctxErr) == Outcome(invoke(0), 1)
  {
  }

  /**
   * With a token: at most maxRetries + 1 calls; every call that is followed by
   * another failed with a retryable status; an error without a status or with a
   * non-retryable code stops the loop at once and is returned unchanged.
   */
  lemma RetryBounds(maxRetries: int, md: Metadata, invoke: nat -> Option<Error>,
                    ctxDone: nat -> bool, ctxErr: Error)
    requires CanRetry(md)
    ensures var o := Intercept(maxRetries, md, invoke, ctxDone, ctxErr);
      && (maxRetries >= 0 ==> 1 <= o.calls <= maxRetries + 1)
      && (maxRetries < 0 ==> o == Outcome(None, 0))
      && (forall k: nat :: k + 1 < o.calls ==> invoke(k).Some? && IsRetryableError(invoke(k).value))
      && (invoke(0).Some? && !IsRetryableError(invoke(0).value) && maxRetries >= 0 ==>
            o == Outcome(invoke(0), 1))
  {
    AttemptsShape(0, maxRetries, invoke, ctxDone, ctxErr, None);
  }

  /**
   * With a token, the result is nil only when some call succeeded (or no call
   * was allowed), and then that was the last call.
   */
  lemma RetrySuccess(maxRetries: int, md: Metadata, invoke: nat -> Option<Error>,
                     ctxDone: nat -> bool, ctxErr: Error)
    requires CanRetry(md) && maxRetries >= 0
    ensures var o := Intercept(maxRetries, md, invoke, ctxDone, ctxErr);
      o.calls >= 1 && (o.err.None? <==> invoke(o.calls - 1).None?)
  {
    AttemptsShape(0, maxRetries, invoke, ctxDone, ctxErr, None);
  }
}
