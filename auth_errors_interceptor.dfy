/**
 * auth-service/internal/middleware/grpc/errors_interceptors.go: turns a
 * handler's domain error into a gRPC status error, choosing the code by the
 * first matching sentinel case and appending the error's details to the
 * message.  `errors.GetErrorDetails` is not defined in auth-service/pkg/errors;
 * the details it yields are a parameter, their values already printed (%v).
 */
module AuthErrorsInterceptor {
  import opened Wrappers
  import opened GrpcCodes
  import opened ErrorChain
  import opened Strings
  import AuthErrors
  import opened PanicRecoverer

  /** The code switch; unlike the friends service there is no timeout case. */
  function MapCode(e: Error): (c: Code)
    ensures Is(e, ErrNotFound) ==> c == NotFound
    ensures (!Is(e, ErrNotFound) && !Is(e, ErrAlreadyExists)
             && (Is(e, ErrUnauthorized) || Is(e, ErrTokenExpired) || Is(e, ErrInvalidToken))) ==> c == Unauthenticated
    ensures c == Internal <==>
      && !Is(e, ErrNotFound) && !Is(e, ErrAlreadyExists)
      && !Is(e, ErrUnauthorized) && !Is(e, ErrTokenExpired) && !Is(e, ErrInvalidToken)
      && !Is(e, ErrForbidden) && !Is(e, ErrInvalidInput) && !Is(e, ErrValidation)
      && !Is(e, ErrDatabaseConnection) && !Is(e, ErrDatabaseQuery) && !Is(e, ErrServiceUnavailable)
  {
    if Is(e, ErrNotFound) then NotFound
    else if Is(e, ErrAlreadyExists) then AlreadyExists
    else if Is(e, ErrUnauthorized) || Is(e, ErrTokenExpired) || Is(e, ErrInvalidToken) then Unauthenticated
    else if Is(e, ErrForbidden) then PermissionDenied
    else if Is(e, ErrInvalidInput) || Is(e, ErrValidation) then InvalidArgument
    else if Is(e, ErrDatabaseConnection) || Is(e, ErrDatabaseQuery) || Is(e, ErrServiceUnavailable) then Unavailable
    else Internal
  }

  /** A timeout, which the friends service reports as DeadlineExceeded, falls to Internal here. */
  lemma TimeoutIsInternal(m: string)
    ensures MapCode(Sentinel(ErrTimeout)) == Internal
    ensures MapCode(AuthErrors.NewInternalError(Some(Sentinel(ErrTimeout)), m)) == Internal
    ensures MapCode(AuthErrors.NewNotFoundError(m)) == NotFound
  {
    var e := AuthErrors.NewInternalError(Some(Sentinel(ErrTimeout)), m);
    assert forall s :: Is(e, s) <==> s == ErrTimeout;
  }

  /** One `"%s: %v; "` entry of the details text. */
  function Entry(k: string, v: string): string
  {
    k + ": " + v + "; "
  }

  /** The entries of the listed keys, in list order. */
  function Entries(keys: seq<string>, details: map<string, string>): string
    requires forall k :: k in keys ==> k in details
  {
    if keys == [] then ""
    else Entries(keys[..|keys| - 1], details) + Entry(keys[|keys| - 1], details[keys[|keys| - 1]])
  }

  /** Every listed key's entry occurs in the text. */
  lemma {:induction false} EntriesMentionAll(keys: seq<string>, details: map<string, string>)
    requires forall k :: k in keys ==> k in details
    ensures forall k :: k in keys ==> Occurs(Entry(k, details[k]), Entries(keys, details))
  {
    if keys != [] {
      var init := keys[..|keys| - 1];
      var last := keys[|keys| - 1];
      EntriesMentionAll(init, details);
      assert Entries(keys, details) == Entries(init, details) + Entry(last, details[last]);
      forall k | k in keys ensures Occurs(Entry(k, details[k]), Entries(keys, details)) {
        assert k in init || k == last;
        OccursInConcat(Entry(k, details[k]), Entries(init, details), Entry(last, details[last]));
      }
    }
  }

  /** The text is empty only when no key is listed: every entry ends in "; ". */
  lemma EntriesEmpty(keys: seq<string>, details: map<string, string>)
    requires forall k :: k in keys ==> k in details
    ensures Entries(keys, details) == "" <==> keys == []
  {
    if keys != [] {
      var last := keys[|keys| - 1];
      assert |Entries(keys, details)| >= |Entry(last, details[last])| > 0;
    }
  }

  /**
   * The details text: the loop visits every key once, in map order
   * (`order`), adding its entry.
   */
  method DetailsText(details: map<string, string>) returns (s: string, ghost order: seq<string>)
    ensures forall k :: k in order <==> k in details
    ensures forall a, b :: 0 <= a < b < |order| ==> order[a] != order[b]
    ensures s == Entries(order, details)
    ensures forall k :: k in details ==> Occurs(Entry(k, details[k]), s)
    ensures s == "" <==> |details| == 0
  {
    s, order := "", [];
    var remaining := details.Keys;
    while remaining != {}
      invariant remaining <= details.Keys
      invariant forall k :: k in order <==> k in details && k !in remaining
      invariant forall a, b :: 0 <= a < b < |order| ==> order[a] != order[b]
      invariant s == Entries(order, details)
      decreases remaining
    {
      var k :| k in remaining;
      s := s + Entry(k, details[k]);
      order := order + [k];
      remaining := remaining - {k};
    }
    EntriesMentionAll(order, details);
    EntriesEmpty(order, details);
  }

  /**
   * The interceptor applied to the handler's (resp, err) and the error's
   * details: success and errors that already carry a status pass through;
   * any other error becomes a status error with the mapped code and the
   * error's text, followed by " [Details: ...]" when there are details.
   */
  method Intercept<R>(resp: Option<R>, err: Option<Error>, details: map<string, string>)
    returns (r: Reply<R>, ghost order: seq<string>)
    ensures err.None? ==> r == Reply(resp, None)
    ensures err.Some? && StatusCode(err.value).Some? ==> r == Reply(resp, err)
    ensures err.Some? && StatusCode(err.value).None? && details == map[] ==>
      r == Reply(None, Some(Status(MapCode(err.value), Text(err.value))))
    ensures err.Some? && StatusCode(err.value).None? && details != map[] ==>
      && (forall k :: k in order <==> k in details)
      && (forall a, b :: 0 <= a < b < |order| ==> order[a] != order[b])
      && r == Reply(None, Some(Status(MapCode(err.value), Text(err.value) + " [Details: " + Entries(order, details) + "]")))
    ensures r.err.Some? <==> err.Some?
  {
    order := [];
    if err.None? {
      return Reply(resp, None), order;
    }
    if StatusCode(err.value).Some? {
      return Reply(resp, err), order;
    }
    var code := MapCode(err.value);
    var statusErr := Status(code, Text(err.value));
    if |details| > 0 {
      var detailsStr;
      detailsStr, order := DetailsText(details);
      if detailsStr != "" {
        return Reply(None, Some(Status(code, Text(err.value) + " [Details: " + detailsStr + "]"))), order;
      }
      // unreachable: a non-empty map yields at least one entry
      EntriesEmpty(order, details);
      assert false;
    }
    return Reply(None, Some(statusErr)), order;
  }

  /** Every detail appears in a mapped error's message. */
  lemma DetailsAllShown(details: map<string, string>, order: seq<string>, text: string)
    requires forall k :: k in order <==> k in details
    ensures forall k :: k in details ==> Occurs(Entry(k, details[k]), text + " [Details: " + Entries(order, details) + "]")
  {
    EntriesMentionAll(order, details);
    forall k | k in details ensures Occurs(Entry(k, details[k]), text + " [Details: " + Entries(order, details) + "]") {
      OccursInContext(Entry(k, details[k]), Entries(order, details), text + " [Details: ", "]");
    }
  }
}
