/**
 * pkg/platform/middleware/circuit_breaker.go: the options of the circuit
 * breaker, the conversion of configured code names, the trip rule, and the
 * client interceptor around gobreaker.
 *
 * gobreaker itself (its counters, its state machine and its clock) is a
 * library outside the model: the interceptor receives the state it reports
 * and the admission decision its Execute takes.
 */
module CircuitBreaker {
  import opened Wrappers
  import opened GrpcCodes
  import opened ErrorChain

  type uint32 = x: int | 0 <= x < 0x1_0000_0000

  /** Durations in nanoseconds, as Go's time.Duration. */
  const Second := 1_000_000_000
  const Minute := 60 * Second

  datatype Options = Options(
    name: string,
    maxRequests: uint32,
    interval: int,
    timeout: int,
    minRequests: uint32,
    failureRatio: real,
    serverErrorCodes: set<Code>)   // the keys whose value is true in the Go map

  /** `DefaultCircuitBreakerOptions()`. */
  function DefaultOptions(): (o: Options)
    ensures o.name == "grpc_circuit_breaker" && o.maxRequests == 10 && o.minRequests == 40
    ensures o.interval == 60 * Second && o.timeout == 5 * Minute && o.failureRatio == 0.6
    ensures forall c :: c in o.serverErrorCodes <==>
      c in {Internal, Unavailable, DeadlineExceeded, ResourceExhausted, DataLoss, Unknown, Aborted}
  {
    Options("grpc_circuit_breaker", 10, 60 * Second, 5 * Minute, 40, 0.6,
            {Internal, Unavailable, DeadlineExceeded, ResourceExhausted, DataLoss, Unknown, Aborted})
  }

  // ---------------------------------------------------------------- stringToCode

  /** Go's `unicode.IsSpace`. */
  predicate IsSpace(c: char)
  {
    c in {'\t', '\n', '\U{000B}', '\U{000C}', '\r', ' ', '\U{0085}', '\U{00A0}', '\U{1680}',
          '\U{2028}', '\U{2029}', '\U{202F}', '\U{205F}', '\U{3000}'}
    || ('\U{2000}' <= c <= '\U{200A}')
  }

  predicate AllSpace(w: string)
  {
    forall i :: 0 <= i < |w| ==> IsSpace(w[i])
  }

  lemma AllSpaceCons(c: char, w: string)
    requires IsSpace(c) && AllSpace(w)
    ensures AllSpace([c] + w)
  {
    assert forall i :: 0 < i <= |w| ==> ([c] + w)[i] == w[i - 1];
  }

  lemma AllSpaceSnoc(w: string, c: char)
    requires AllSpace(w) && IsSpace(c)
    ensures AllSpace(w + [c])
  {
    assert forall i :: 0 <= i < |w| ==> (w + [c])[i] == w[i];
  }

  function TrimLeft(s: string): (t: string)
    ensures |t| <= |s| && t == s[|s| - |t|..]
    ensures t == [] || !IsSpace(t[0])
    ensures AllSpace(s[..|s| - |t|])
  {
    if |s| > 0 && IsSpace(s[0]) then
      var t := TrimLeft(s[1..]);
      assert s[..|s| - |t|] == [s[0]] + s[1..][..|s| - 1 - |t|];
      AllSpaceCons(s[0], s[1..][..|s| - 1 - |t|]);
      t
    else s
  }

  function TrimRight(s: string): (t: string)
    ensures |t| <= |s| && t == s[..|t|]
    ensures t == [] || !IsSpace(t[|t| - 1])
    ensures AllSpace(s[|t|..])
  {
    if |s| > 0 && IsSpace(s[|s| - 1]) then
      var t := TrimRight(s[..|s| - 1]);
      assert s[..|s| - 1][..|t|] == s[..|t|];
      assert s[|t|..] == s[..|s| - 1][|t|..] + [s[|s| - 1]];
      AllSpaceSnoc(s[..|s| - 1][|t|..], s[|s| - 1]);
      t
    else s
  }

  /** `strings.TrimSpace`: leading and trailing white space removed. */
  function TrimSpace(s: string): string
  {
    TrimRight(TrimLeft(s))
  }

  /**
   * `unicode.ToUpper` as far as the result can be ASCII: a-z, dotless i and
   * long s map to ASCII capitals; every other character is kept.
   */
  function UpperChar(c: char): char
  {
    if 'a' <= c <= 'z' then (c as int - 32) as char
    else if c == '\U{0131}' then 'I'
    else if c == '\U{017F}' then 'S'
    else c
  }

  function ToUpper(s: string): (u: string)
    ensures |u| == |s| && forall i :: 0 <= i < |s| ==> u[i] == UpperChar(s[i])
  {
    seq(|s|, i requires 0 <= i < |s| => UpperChar(s[i]))
  }

  /** The switch of `stringToCode` on an already trimmed, upper-cased name. */
  function CodeOfName(name: string): Code
  {
    match name
    case "OK" => OK
    case "CANCELLED" => Canceled
    case "CANCELED" => Canceled
    case "UNKNOWN" => Unknown
    case "INVALID_ARGUMENT" => InvalidArgument
    case "INVALIDARGUMENT" => InvalidArgument
    case "DEADLINE_EXCEEDED" => DeadlineExceeded
    case "DEADLINEEXCEEDED" => DeadlineExceeded
    case "NOT_FOUND" => NotFound
    case "NOTFOUND" => NotFound
    case "ALREADY_EXISTS" => AlreadyExists
    case "ALREADYEXISTS" => AlreadyExists
    case "PERMISSION_DENIED" => PermissionDenied
    case "PERMISSIONDENIED" => PermissionDenied
    case "RESOURCE_EXHAUSTED" => ResourceExhausted
    case "RESOURCEEXHAUSTED" => ResourceExhausted
    case "FAILED_PRECONDITION" => FailedPrecondition
    case "FAILEDPRECONDITION" => FailedPrecondition
    case "ABORTED" => Aborted
    case "OUT_OF_RANGE" => OutOfRange
    case "OUTOFRANGE" => OutOfRange
    case "UNIMPLEMENTED" => Unimplemented
    case "INTERNAL" => Internal
    case "UNAVAILABLE" => Unavailable
    case "DATA_LOSS" => DataLoss
    case "DATALOSS" => DataLoss
    case "UNAUTHENTICATED" => Unauthenticated
    case _ => Unknown
  }

  /** `stringToCode`. */
  function StringToCode(codeStr: string): Code
  {
    CodeOfName(ToUpper(TrimSpace(codeStr)))
  }

  lemma {:induction false} TrimLeftSkipsSpace(w: string, t: string)
    requires AllSpace(w)
    ensures TrimLeft(w + t) == TrimLeft(t)
    decreases |w|
  {
    if w != [] {
      assert (w + t)[1..] == w[1..] + t;
      TrimLeftSkipsSpace(w[1..], t);
    } else {
      assert w + t == t;
    }
  }

  lemma {:induction false} TrimRightSkipsSpace(t: string, w: string)
    requires AllSpace(w)
    ensures TrimRight(t + w) == TrimRight(t)
    decreases |w|
  {
    if w != [] {
      assert (t + w)[..|t + w| - 1] == t + w[..|w| - 1];
      TrimRightSkipsSpace(t, w[..|w| - 1]);
    } else {
      assert t + w == t;
    }
  }

  lemma {:induction false} TrimLeftAppendSpace(t: string, w: string)
    requires AllSpace(w)
    ensures TrimLeft(t) != [] ==> TrimLeft(t + w) == TrimLeft(t) + w
    ensures TrimLeft(t) == [] ==> TrimLeft(t + w) == []
    decreases |t|
  {
    if t == [] {
      assert t + w == w;
      TrimLeftSkipsSpace(w, []);
      assert w + [] == w;
    } else if IsSpace(t[0]) {
      assert (t + w)[1..] == t[1..] + w;
      TrimLeftAppendSpace(t[1..], w);
    }
  }

  /** Surrounding white space never changes the code a configured name converts to. */
  lemma StringToCodeIgnoresSpace(w1: string, s: string, w2: string)
    requires AllSpace(w1) && AllSpace(w2)
    ensures StringToCode(w1 + s + w2) == StringToCode(s)
  {
    assert w1 + s + w2 == w1 + (s + w2);
    TrimLeftSkipsSpace(w1, s + w2);
    TrimLeftAppendSpace(s, w2);
    if TrimLeft(s) != [] {
      TrimRightSkipsSpace(TrimLeft(s), w2);
    }
  }

  /** A name without surrounding white space is its own trimmed form. */
  lemma TrimSpaceKeeps(n: string)
    requires n != [] && !IsSpace(n[0]) && !IsSpace(n[|n| - 1])
    ensures TrimSpace(n) == n
  {
  }

  /** Upper-casing a string character by character. */
  lemma ToUpperIs(s: string, t: string)
    requires |s| == |t| && forall i :: 0 <= i < |s| ==> UpperChar(s[i]) == t[i]
    ensures ToUpper(s) == t
  {
  }

  /** Go's name of each code in capitals: a case of the switch. */
  function UpperCodeName(c: Code): string
  {
    match c
    case OK => "OK"
    case Canceled => "CANCELED"
    case Unknown => "UNKNOWN"
    case InvalidArgument => "INVALIDARGUMENT"
    case DeadlineExceeded => "DEADLINEEXCEEDED"
    case NotFound => "NOTFOUND"
    case AlreadyExists => "ALREADYEXISTS"
    case PermissionDenied => "PERMISSIONDENIED"
    case ResourceExhausted => "RESOURCEEXHAUSTED"
    case FailedPrecondition => "FAILEDPRECONDITION"
    case Aborted => "ABORTED"
    case OutOfRange => "OUTOFRANGE"
    case Unimplemented => "UNIMPLEMENTED"
    case Internal => "INTERNAL"
    case Unavailable => "UNAVAILABLE"
    case DataLoss => "DATALOSS"
    case Unauthenticated => "UNAUTHENTICATED"
  }

  lemma CodeOfUpperNameA(c: Code)
    requires c.OK? || c.Canceled? || c.Unknown? || c.InvalidArgument? || c.DeadlineExceeded? || c.NotFound?
    ensures CodeOfName(UpperCodeName(c)) == c
  {
  }

  lemma CodeOfUpperNameB(c: Code)
    requires c.AlreadyExists? || c.PermissionDenied? || c.ResourceExhausted? || c.FailedPrecondition? || c.Aborted? || c.OutOfRange?
    ensures CodeOfName(UpperCodeName(c)) == c
  {
  }

  lemma CodeOfUpperNameC(c: Code)
    requires c.Unimplemented? || c.Internal? || c.Unavailable? || c.DataLoss? || c.Unauthenticated?
    ensures CodeOfName(UpperCodeName(c)) == c
  {
  }

  lemma CodeOfUpperName(c: Code)
    ensures CodeOfName(UpperCodeName(c)) == c
  {
    if c.OK? || c.Canceled? || c.Unknown? || c.InvalidArgument? || c.DeadlineExceeded? || c.NotFound? {
      CodeOfUpperNameA(c);
    } else if c.AlreadyExists? || c.PermissionDenied? || c.ResourceExhausted? || c.FailedPrecondition? || c.Aborted? || c.OutOfRange? {
      CodeOfUpperNameB(c);
    } else {
      CodeOfUpperNameC(c);
    }
  }

  lemma UpperCodeNamesA(c: Code)
    requires c.OK? || c.Canceled? || c.Unknown? || c.InvalidArgument? || c.DeadlineExceeded? || c.NotFound?
    ensures ToUpper(CodeName(c)) == UpperCodeName(c)
  {
    match c
    case OK => ToUpperIs("OK", "OK");
    case Canceled => ToUpperIs("Canceled", "CANCELED");
    case Unknown => ToUpperIs("Unknown", "UNKNOWN");
    case InvalidArgument => ToUpperIs("InvalidArgument", "INVALIDARGUMENT");
    case DeadlineExceeded => ToUpperIs("DeadlineExceeded", "DEADLINEEXCEEDED");
    case NotFound => ToUpperIs("NotFound", "NOTFOUND");
  }

  lemma UpperCodeNamesB(c: Code)
    requires c.AlreadyExists? || c.PermissionDenied? || c.ResourceExhausted? || c.FailedPrecondition? || c.Aborted? || c.OutOfRange?
    ensures ToUpper(CodeName(c)) == UpperCodeName(c)
  {
    match c
    case AlreadyExists => ToUpperIs("AlreadyExists", "ALREADYEXISTS");
    case PermissionDenied => ToUpperIs("PermissionDenied", "PERMISSIONDENIED");
    case ResourceExhausted => ToUpperIs("ResourceExhausted", "RESOURCEEXHAUSTED");
    case FailedPrecondition => ToUpperIs("FailedPrecondition", "FAILEDPRECONDITION");
    case Aborted => ToUpperIs("Aborted", "ABORTED");
    case OutOfRange => ToUpperIs("OutOfRange", "OUTOFRANGE");
  }

  lemma UpperCodeNamesC(c: Code)
    requires c.Unimplemented? || c.Internal? || c.Unavailable? || c.DataLoss? || c.Unauthenticated?
    ensures ToUpper(CodeName(c)) == UpperCodeName(c)
  {
    match c
    case Unimplemented => ToUpperIs("Unimplemented", "UNIMPLEMENTED");
    case Internal => ToUpperIs("Internal", "INTERNAL");
    case Unavailable => ToUpperIs("Unavailable", "UNAVAILABLE");
    case DataLoss => ToUpperIs("DataLoss", "DATALOSS");
    case Unauthenticated => ToUpperIs("Unauthenticated", "UNAUTHENTICATED");
  }

  lemma UpperCodeNames(c: Code)
    ensures ToUpper(CodeName(c)) == UpperCodeName(c)
  {
    if c.OK? || c.Canceled? || c.Unknown? || c.InvalidArgument? || c.DeadlineExceeded? || c.NotFound? {
      UpperCodeNamesA(c);
    } else if c.AlreadyExists? || c.PermissionDenied? || c.ResourceExhausted? || c.FailedPrecondition? || c.Aborted? || c.OutOfRange? {
      UpperCodeNamesB(c);
    } else {
      UpperCodeNamesC(c);
    }
  }

  /** Each code's own Go name (`codes.Code.String()`) converts back to that code. */
  lemma StringToCodeAcceptsCodeNames(c: Code)
    ensures StringToCode(CodeName(c)) == c
  {
    var n := CodeName(c);
    TrimSpaceKeeps(n);
    UpperCodeNames(c);
    CodeOfUpperName(c);
  }

  /** Upper-casing keeps white space and everything else apart, and upper-casing twice is upper-casing once. */
  lemma UpperCharFacts(c: char)
    ensures IsSpace(UpperChar(c)) <==> IsSpace(c)
    ensures UpperChar(UpperChar(c)) == UpperChar(c)
  {
  }

  lemma {:induction false} ToUpperTrimLeft(s: string)
    ensures TrimLeft(ToUpper(s)) == ToUpper(TrimLeft(s))
    decreases |s|
  {
    if s != [] {
      UpperCharFacts(s[0]);
      if IsSpace(s[0]) {
        assert ToUpper(s)[1..] == ToUpper(s[1..]);
        ToUpperTrimLeft(s[1..]);
      }
    }
  }

  lemma {:induction false} ToUpperTrimRight(s: string)
    ensures TrimRight(ToUpper(s)) == ToUpper(TrimRight(s))
    decreases |s|
  {
    if s != [] {
      UpperCharFacts(s[|s| - 1]);
      if IsSpace(s[|s| - 1]) {
        assert ToUpper(s)[..|s| - 1] == ToUpper(s[..|s| - 1]);
        ToUpperTrimRight(s[..|s| - 1]);
      }
    }
  }

  /** Trimming and upper-casing can be done in either order. */
  lemma ToUpperTrimSpace(s: string)
    ensures TrimSpace(ToUpper(s)) == ToUpper(TrimSpace(s))
  {
    ToUpperTrimLeft(s);
    ToUpperTrimRight(TrimLeft(s));
  }

  lemma ToUpperTwice(s: string)
    ensures ToUpper(ToUpper(s)) == ToUpper(s)
  {
    forall i | 0 <= i < |s|
      ensures ToUpper(ToUpper(s))[i] == ToUpper(s)[i]
    {
      UpperCharFacts(s[i]);
    }
  }

  /** Strings that agree once upper-cased also agree once trimmed and upper-cased. */
  lemma TrimmedUpperAgree(s: string, t: string)
    requires ToUpper(s) == ToUpper(t)
    ensures ToUpper(TrimSpace(s)) == ToUpper(TrimSpace(t))
  {
    ToUpperTrimSpace(s);
    ToUpperTrimSpace(t);
  }

  /**
   * The conversion ignores letter case: two strings that agree once
   * upper-cased convert to the same code, and an upper-cased string converts
   * like the string itself.
   */
  lemma StringToCodeIgnoresCase(s: string, t: string)
    requires ToUpper(s) == ToUpper(t)
    ensures StringToCode(s) == StringToCode(t)
    ensures StringToCode(ToUpper(s)) == StringToCode(s)
  {
    TrimmedUpperAgree(s, t);
    ToUpperTwice(s);
    TrimmedUpperAgree(ToUpper(s), s);
  }

  /** The names the switch of `stringToCode` lists, in three groups. */
  predicate ListedA(n: string)
  {
    n in {"OK", "CANCELLED", "CANCELED", "UNKNOWN", "INVALID_ARGUMENT", "INVALIDARGUMENT",
          "DEADLINE_EXCEEDED", "DEADLINEEXCEEDED", "NOT_FOUND"}
  }

  predicate ListedB(n: string)
  {
    n in {"NOTFOUND", "ALREADY_EXISTS", "ALREADYEXISTS", "PERMISSION_DENIED", "PERMISSIONDENIED",
          "RESOURCE_EXHAUSTED", "RESOURCEEXHAUSTED", "FAILED_PRECONDITION", "FAILEDPRECONDITION"}
  }

  predicate ListedC(n: string)
  {
    n in {"ABORTED", "OUT_OF_RANGE", "OUTOFRANGE", "UNIMPLEMENTED", "INTERNAL", "UNAVAILABLE",
          "DATA_LOSS", "DATALOSS", "UNAUTHENTICATED"}
  }

  predicate Listed(n: string)
  {
    ListedA(n) || ListedB(n) || ListedC(n)
  }

  /** Any name the switch does not list selects Unknown. */
  lemma CodeOfUnlisted(n: string)
    requires !Listed(n)
    ensures CodeOfName(n) == Unknown
  {
  }

  lemma ListedTrimmedA(n: string)
    requires ListedA(n)
    ensures n != [] && 'A' <= n[0] <= 'Z' && 'A' <= n[|n| - 1] <= 'Z'
  {
  }

  lemma ListedTrimmedB(n: string)
    requires ListedB(n)
    ensures n != [] && 'A' <= n[0] <= 'Z' && 'A' <= n[|n| - 1] <= 'Z'
  {
  }

  lemma ListedTrimmedC(n: string)
    requires ListedC(n)
    ensures n != [] && 'A' <= n[0] <= 'Z' && 'A' <= n[|n| - 1] <= 'Z'
  {
  }

  /** Every listed name begins and ends with a capital letter. */
  lemma ListedCapitalEnds(n: string)
    requires Listed(n)
    ensures n != [] && 'A' <= n[0] <= 'Z' && 'A' <= n[|n| - 1] <= 'Z'
  {
    if ListedA(n) {
      ListedTrimmedA(n);
    } else if ListedB(n) {
      ListedTrimmedB(n);
    } else {
      ListedTrimmedC(n);
    }
  }

  /** A name that begins and ends with a capital letter is its own trimmed form. */
  lemma CapitalEndsTrimmed(n: string)
    requires n != [] && 'A' <= n[0] <= 'Z' && 'A' <= n[|n| - 1] <= 'Z'
    ensures TrimSpace(n) == n
  {
    TrimSpaceKeeps(n);
  }

  /**
   * Every name the switch lists, written in any letter case and surrounded by
   * any white space, converts to the code the switch selects for it.
   */
  lemma StringToCodeAcceptsListed(w1: string, s: string, w2: string)
    requires AllSpace(w1) && AllSpace(w2) && Listed(ToUpper(s))
    ensures StringToCode(w1 + s + w2) == CodeOfName(ToUpper(s))
  {
    StringToCodeIgnoresSpace(w1, s, w2);
    ToUpperTrimSpace(s);
    ListedCapitalEnds(ToUpper(s));
    CapitalEndsTrimmed(ToUpper(s));
  }

  /** A string whose trimmed, upper-cased form is not a listed name converts to Unknown. */
  lemma StringToCodeDefaultsToUnknown(s: string)
    requires !Listed(ToUpper(TrimSpace(s)))
    ensures StringToCode(s) == Unknown
  {
    CodeOfUnlisted(ToUpper(TrimSpace(s)));
  }

  // ---------------------------------------------------------------- options

  /** The functional options; each one overwrites one field. */
  datatype CircuitBreakerOption =
    | WithMaxRequests(max: uint32)
    | WithInterval(interval: int)
    | WithTimeout(timeout: int)
    | WithMinRequests(min: uint32)
    | WithFailureRatio(ratio: real)
    | WithServerErrorCodes(errorCodes: seq<string>)
    | WithName(n: string)

  /** The set of codes the names convert to: the keys of the map the option builds. */
  function CodesOf(names: seq<string>): set<Code>
  {
    Image(StringToCode, names)
  }

  /** The values `f` takes on the names. */
  function Image(f: string -> Code, names: seq<string>): set<Code>
  {
    set i | 0 <= i < |names| :: f(names[i])
  }

  lemma CodesOfSnoc(names: seq<string>, n: string)
    ensures CodesOf(names + [n]) == CodesOf(names) + {StringToCode(n)}
  {
    ImageSnoc(StringToCode, names, n);
  }

  /** The image of a list extended by one element, for any conversion `f`. */
  lemma ImageSnoc(f: string -> Code, names: seq<string>, n: string)
    ensures Image(f, names + [n]) == Image(f, names) + {f(n)}
  {
    var l := names + [n];
    forall c | c in Image(f, l) ensures c in Image(f, names) + {f(n)} {
      var i :| 0 <= i < |l| && f(l[i]) == c;
      if i < |names| { assert l[i] == names[i]; }
    }
    forall c | c in Image(f, names) ensures c in Image(f, l) {
      var i :| 0 <= i < |names| && f(names[i]) == c;
      assert l[i] == names[i];
    }
    assert l[|names|] == n;
  }

  /** The loop of `WithServerErrorCodes`: a fresh map with every converted code set to true. */
  method ConvertServerErrorCodes(errorCodes: seq<string>) returns (codes: set<Code>)
    ensures codes == CodesOf(errorCodes)
  {
    codes := {};
    for i := 0 to |errorCodes|
      invariant codes == CodesOf(errorCodes[..i])
    {
      assert errorCodes[..i + 1] == errorCodes[..i] + [errorCodes[i]];
      CodesOfSnoc(errorCodes[..i], errorCodes[i]);
      codes := codes + {StringToCode(errorCodes[i])};
    }
    assert errorCodes[..|errorCodes|] == errorCodes;
  }

  /** The two options set the same field. */
  predicate SameKind(a: CircuitBreakerOption, b: CircuitBreakerOption)
  {
    match a
    case WithMaxRequests(_) => b.WithMaxRequests?
    case WithInterval(_) => b.WithInterval?
    case WithTimeout(_) => b.WithTimeout?
    case WithMinRequests(_) => b.WithMinRequests?
    case WithFailureRatio(_) => b.WithFailureRatio?
    case WithServerErrorCodes(_) => b.WithServerErrorCodes?
    case WithName(_) => b.WithName?
  }

  /** The field the option sets holds the value the option carries. */
  predicate Holds(o: Options, opt: CircuitBreakerOption)
  {
    match opt
    case WithMaxRequests(m) => o.maxRequests == m
    case WithInterval(d) => o.interval == d
    case WithTimeout(d) => o.timeout == d
    case WithMinRequests(m) => o.minRequests == m
    case WithFailureRatio(f) => o.failureRatio == f
    case WithServerErrorCodes(names) => o.serverErrorCodes == CodesOf(names)
    case WithName(n) => o.name == n
  }

  /**
   * What applying one option does to the options record: its own field takes
   * the option's value and every field of another kind keeps its value.
   */
  function Apply(o: Options, opt: CircuitBreakerOption): (r: Options)
    ensures Holds(r, opt)
    ensures forall p :: !SameKind(p, opt) ==> (Holds(r, p) <==> Holds(o, p))
  {
    match opt
    case WithMaxRequests(m) => o.(maxRequests := m)
    case WithInterval(d) => o.(interval := d)
    case WithTimeout(d) => o.(timeout := d)
    case WithMinRequests(m) => o.(minRequests := m)
    case WithFailureRatio(f) => o.(failureRatio := f)
    case WithServerErrorCodes(names) => o.(serverErrorCodes := CodesOf(names))
    case WithName(n) => o.(name := n)
  }

  /** The options after applying `opts` from left to right. */
  function ApplyAll(o: Options, opts: seq<CircuitBreakerOption>): Options
    decreases |opts|
  {
    if opts == [] then o else ApplyAll(Apply(o, opts[0]), opts[1..])
  }

  lemma {:induction false} ApplyAllSnoc(o: Options, opts: seq<CircuitBreakerOption>, opt: CircuitBreakerOption)
    ensures ApplyAll(o, opts + [opt]) == Apply(ApplyAll(o, opts), opt)
    decreases |opts|
  {
    if opts != [] {
      assert (opts + [opt])[1..] == opts[1..] + [opt];
      ApplyAllSnoc(Apply(o, opts[0]), opts[1..], opt);
    }
  }

  /** The first lines of `NewCircuitBreakerInterceptor`: defaults, then each option in order. */
  method BuildOptions(opts: seq<CircuitBreakerOption>) returns (options: Options)
    ensures options == ApplyAll(DefaultOptions(), opts)
  {
    options := DefaultOptions();
    for i := 0 to |opts|
      invariant options == ApplyAll(DefaultOptions(), opts[..i])
    {
      ApplyAllSnoc(DefaultOptions(), opts[..i], opts[i]);
      assert opts[..i + 1] == opts[..i] + [opts[i]];
      var opt := opts[i];
      if opt.WithServerErrorCodes? {
        var codes := ConvertServerErrorCodes(opt.errorCodes);
        options := options.(serverErrorCodes := codes);
      } else {
        options := Apply(options, opt);
      }
    }
    assert opts[..|opts|] == opts;
  }

  lemma {:induction false} ApplyAllAppend(o: Options, xs: seq<CircuitBreakerOption>, ys: seq<CircuitBreakerOption>)
    ensures ApplyAll(o, xs + ys) == ApplyAll(ApplyAll(o, xs), ys)
    decreases |xs|
  {
    if xs != [] {
      assert (xs + ys)[1..] == xs[1..] + ys;
      ApplyAllAppend(Apply(o, xs[0]), xs[1..], ys);
    } else {
      assert xs + ys == ys;
    }
  }

  /** A second option of the same kind undoes the first entirely. */
  lemma ApplyOverrides(o: Options, a: CircuitBreakerOption, b: CircuitBreakerOption)
    requires SameKind(a, b)
    ensures Apply(Apply(o, a), b) == Apply(o, b)
  {
  }

  /** Options of different kinds can be applied in either order. */
  lemma ApplyCommutes(o: Options, a: CircuitBreakerOption, b: CircuitBreakerOption)
    requires !SameKind(a, b)
    ensures Apply(Apply(o, a), b) == Apply(Apply(o, b), a)
  {
    match a
    case WithMaxRequests(_) =>
    case WithInterval(_) =>
    case WithTimeout(_) =>
    case WithMinRequests(_) =>
    case WithFailureRatio(_) =>
    case WithServerErrorCodes(_) =>
    case WithName(_) =>
  }

  /** Options of other kinds leave what an option set in place. */
  lemma {:induction false} OtherKindsKeep(o: Options, a: CircuitBreakerOption, rest: seq<CircuitBreakerOption>)
    requires Holds(o, a)
    requires forall k :: 0 <= k < |rest| ==> !SameKind(rest[k], a)
    ensures Holds(ApplyAll(o, rest), a)
    decreases |rest|
  {
    if rest != [] {
      assert !SameKind(a, rest[0]) by {
        assert !SameKind(rest[0], a);
        match a
        case WithMaxRequests(_) =>
        case WithInterval(_) =>
        case WithTimeout(_) =>
        case WithMinRequests(_) =>
        case WithFailureRatio(_) =>
        case WithServerErrorCodes(_) =>
        case WithName(_) =>
      }
      OtherKindsKeep(Apply(o, rest[0]), a, rest[1..]);
    }
  }

  /**
   * Applying any options to two records that differ at most in the field of
   * `a` gives records that still differ at most there.
   */
  lemma {:induction false} ApplyAllKeepsAgreement(x: Options, y: Options, a: CircuitBreakerOption,
                                                  rest: seq<CircuitBreakerOption>)
    requires Apply(x, a) == Apply(y, a)
    ensures Apply(ApplyAll(x, rest), a) == Apply(ApplyAll(y, rest), a)
    decreases |rest|
  {
    if rest != [] {
      var p := rest[0];
      if SameKind(p, a) {
        ApplyOverrides(x, p, a);
        ApplyOverrides(y, p, a);
      } else {
        ApplyCommutes(x, p, a);
        ApplyCommutes(y, p, a);
      }
      ApplyAllKeepsAgreement(Apply(x, p), Apply(y, p), a, rest[1..]);
    }
  }

  /**
   * Options apply left to right, so the last option of each kind decides
   * that field whatever came before it.
   */
  lemma LaterOptionWins(o: Options, opts: seq<CircuitBreakerOption>, a: CircuitBreakerOption,
                        rest: seq<CircuitBreakerOption>)
    requires forall k :: 0 <= k < |rest| ==> !SameKind(rest[k], a)
    ensures Holds(ApplyAll(o, opts + [a] + rest), a)
  {
    ApplyAllAppend(o, opts + [a], rest);
    ApplyAllSnoc(o, opts, a);
    OtherKindsKeep(Apply(ApplyAll(o, opts), a), a, rest);
  }

  /**
   * An option leaves every field of another kind as the options around it
   * make it, and one overridden later by an option of its kind has no effect
   * at all.
   */
  lemma OptionTouchesOnlyItsField(o: Options, opts: seq<CircuitBreakerOption>, a: CircuitBreakerOption,
                                  rest: seq<CircuitBreakerOption>, b: CircuitBreakerOption)
    ensures forall p :: !SameKind(p, a) ==>
      (Holds(ApplyAll(o, opts + [a] + rest), p) <==> Holds(ApplyAll(o, opts + rest), p))
    ensures SameKind(a, b) ==> ApplyAll(o, opts + [a] + rest + [b]) == ApplyAll(o, opts + rest + [b])
  {
    var x := ApplyAll(o, opts);
    ApplyAllAppend(o, opts + [a], rest);
    ApplyAllSnoc(o, opts, a);
    ApplyAllAppend(o, opts, rest);
    ApplyOverrides(x, a, a);
    ApplyAllKeepsAgreement(Apply(x, a), x, a, rest);
    var with := ApplyAll(Apply(x, a), rest);
    var without := ApplyAll(x, rest);
    assert ApplyAll(o, opts + [a] + rest) == with;
    assert ApplyAll(o, opts + rest) == without;
    if SameKind(a, b) {
      ApplyAllSnoc(o, opts + [a] + rest, b);
      ApplyAllSnoc(o, opts + rest, b);
      ApplyOverrides(with, a, b);
      ApplyOverrides(without, a, b);
    }
  }

  /** Options other than WithServerErrorCodes leave the server error codes alone. */
  lemma {:induction false} OtherOptionsKeepCodes(o: Options, opts: seq<CircuitBreakerOption>)
    requires forall i :: 0 <= i < |opts| ==> !opts[i].WithServerErrorCodes?
    ensures ApplyAll(o, opts).serverErrorCodes == o.serverErrorCodes
    decreases |opts|
  {
    if opts != [] {
      OtherOptionsKeepCodes(Apply(o, opts[0]), opts[1..]);
    }
  }

  /** The server error codes are those of the last WithServerErrorCodes option, replacing the defaults entirely. */
  lemma ServerCodesFromLastOption(o: Options, opts: seq<CircuitBreakerOption>, names: seq<string>)
    requires forall i :: 0 <= i < |opts| ==> !opts[i].WithServerErrorCodes?
    ensures ApplyAll(o, [WithServerErrorCodes(names)] + opts).serverErrorCodes == CodesOf(names)
  {
    assert ([WithServerErrorCodes(names)] + opts)[1..] == opts;
    OtherOptionsKeepCodes(Apply(o, WithServerErrorCodes(names)), opts);
  }

  // ---------------------------------------------------------------- trip rule

  /** gobreaker's counters handed to ReadyToTrip. */
  datatype Counts = Counts(requests: uint32, totalFailures: uint32)

  /**
   * The ReadyToTrip closure. With no requests the ratio is 0/0 (NaN, never
   * >= the threshold) or x/0 (+Inf, always >= it); otherwise the ratio is
   * compared exactly (float rounding is not modelled).
   */
  predicate ReadyToTrip(o: Options, c: Counts)
  {
    && c.requests >= o.minRequests
    && (if c.requests == 0 then c.totalFailures > 0
        else (c.totalFailures as real) / (c.requests as real) >= o.failureRatio)
  }

  /** Below MinRequests the breaker never trips; otherwise it trips once failures reach the ratio. */
  lemma ReadyToTripThreshold(o: Options, c: Counts)
    requires c.requests > 0
    ensures ReadyToTrip(o, c) <==>
      c.requests >= o.minRequests && c.totalFailures as real >= o.failureRatio * c.requests as real
  {
    var q := (c.totalFailures as real) / (c.requests as real);
    assert q * c.requests as real == c.totalFailures as real;
  }

  /** More failures over the same requests never un-trip the breaker. */
  lemma ReadyToTripMonotone(o: Options, c: Counts, more: uint32)
    requires c.totalFailures <= more
    ensures ReadyToTrip(o, c) ==> ReadyToTrip(o, Counts(c.requests, more))
  {
    if c.requests > 0 {
      ReadyToTripThreshold(o, c);
      ReadyToTripThreshold(o, Counts(c.requests, more));
    }
  }

  /** With the defaults: at least 40 requests and at least 60% of them failed. */
  lemma DefaultTrip(c: Counts)
    ensures ReadyToTrip(DefaultOptions(), c) <==>
      c.requests >= 40 && 10 * c.totalFailures >= 6 * c.requests
  {
    if c.requests > 0 {
      ReadyToTripThreshold(DefaultOptions(), c);
    }
  }

  // ---------------------------------------------------------------- interceptor

  datatype State = StateClosed | StateHalfOpen | StateOpen

  /** What `cb.Execute` decides before running the request. */
  datatype Admission = Admit | RejectOpen | RejectTooManyRequests

  /** What the breaker records for the request. */
  datatype Report = NotRun | Success | Failure

  datatype CallOutcome = CallOutcome(err: Option<Error>, invoked: bool, report: Report)

  const OpenMessage := "circuit breaker is open"
  const TooManyMessage := "circuit breaker: too many requests"

  /** The error handling after `cb.Execute` returned an error. */
  function TranslateBreakerError(err: Error): (r: Error)
    ensures Is(err, ErrOpenState) ==> r == Status(Unavailable, OpenMessage)
    ensures !Is(err, ErrOpenState) && Is(err, ErrTooManyRequests) ==> r == Status(ResourceExhausted, TooManyMessage)
    ensures !Is(err, ErrOpenState) && !Is(err, ErrTooManyRequests) ==> r == err
  {
    if Is(err, ErrOpenState) then Status(Unavailable, OpenMessage)
    else if Is(err, ErrTooManyRequests) then Status(ResourceExhausted, TooManyMessage)
    else err
  }

  /** Whether the breaker counts a failed call as a failure: no gRPC status, or a configured server code. */
  predicate IsServerError(o: Options, callErr: Error)
  {
    StatusCode(callErr).None? || StatusCode(callErr).value in o.serverErrorCodes
  }

  /**
   * The interceptor for one call: the breaker's reported state, Execute's
   * admission, and the invoker's error if it is called.
   */
  function Intercept(o: Options, state: State, admission: Admission, callErr: Option<Error>): (r: CallOutcome)
    ensures state == StateOpen ==> r == CallOutcome(Some(Status(Unavailable, OpenMessage)), false, NotRun)
    ensures r.invoked <==> state != StateOpen && admission == Admit
    ensures r.err.None? <==> r.invoked && callErr.None?
    ensures r.invoked && callErr.Some? ==>
      (r.report == Failure <==> IsServerError(o, callErr.value))
    ensures r.invoked && callErr.Some? && !IsServerError(o, callErr.value) ==> r.err == callErr
    ensures r.invoked && callErr.Some? && IsServerError(o, callErr.value) ==>
      r.err == Some(TranslateBreakerError(callErr.value))
    ensures !r.invoked ==> r.report == NotRun && r.err.Some? && StatusCode(r.err.value).Some?
    ensures state != StateOpen && admission == RejectOpen ==> r.err == Some(Status(Unavailable, OpenMessage))
    ensures state != StateOpen && admission == RejectTooManyRequests ==>
      r.err == Some(Status(ResourceExhausted, TooManyMessage))
  {
    if state == StateOpen then CallOutcome(Some(Status(Unavailable, OpenMessage)), false, NotRun)
    else match admission
      case RejectOpen => CallOutcome(Some(TranslateBreakerError(Sentinel(ErrOpenState))), false, NotRun)
      case RejectTooManyRequests => CallOutcome(Some(TranslateBreakerError(Sentinel(ErrTooManyRequests))), false, NotRun)
      case Admit =>
        if callErr.None? then CallOutcome(None, true, Success)
        else if IsServerError(o, callErr.value) then
          CallOutcome(Some(TranslateBreakerError(callErr.value)), true, Failure)
        else CallOutcome(callErr, true, Success)
  }

  /**
   * With the default options a client error such as NotFound passes through
   * unchanged and counts as a success, while an Unavailable status counts as a
   * failure and also reaches the caller unchanged.
   */
  lemma DefaultClassification(msg: string)
    ensures Intercept(DefaultOptions(), StateClosed, Admit, Some(Status(NotFound, msg)))
         == CallOutcome(Some(Status(NotFound, msg)), true, Success)
    ensures Intercept(DefaultOptions(), StateClosed, Admit, Some(Status(Unavailable, msg)))
         == CallOutcome(Some(Status(Unavailable, msg)), true, Failure)
    ensures Intercept(DefaultOptions(), StateHalfOpen, RejectTooManyRequests, None)
         == CallOutcome(Some(Status(ResourceExhausted, TooManyMessage)), false, NotRun)
  {
  }
}
