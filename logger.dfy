/**
 * pkg/platform/logger/logger.go: `formatArgs`, which renders slog-style
 * key/value arguments, and `MockLogger`, which records log lines.
 */
module Logger {

  /** A variadic `any` argument: a string, or a value of any other type. */
  datatype Arg = Str(s: string) | Other

  /** What one (key, value) pair contributes: "key=value " when both are strings, nothing otherwise. */
  function Pair(key: Arg, value: Arg): string
  {
    if key.Str? && value.Str? then key.s + "=" + value.s + " " else ""
  }

  /** The rendering of the arguments read two at a time from the front. */
  function Render(args: seq<Arg>): string
    decreases |args|
  {
    if |args| < 2 then "" else Pair(args[0], args[1]) + Render(args[2..])
  }

  lemma {:induction false} RenderSnoc(args: seq<Arg>, key: Arg, value: Arg)
    requires |args| % 2 == 0
    ensures Render(args + [key, value]) == Render(args) + Pair(key, value)
    decreases |args|
  {
    if |args| == 0 {
      assert args + [key, value] == [key, value];
      assert [key, value][2..] == [];
    } else {
      assert (args + [key, value])[2..] == args[2..] + [key, value];
      RenderSnoc(args[2..], key, value);
    }
  }

  lemma RenderStep(args: seq<Arg>, i: nat)
    requires i % 2 == 0 && i + 1 < |args|
    ensures Render(args[..i + 2]) == Render(args[..i]) + Pair(args[i], args[i + 1])
  {
    var pre, key, value := args[..i], args[i], args[i + 1];
    assert args[..i + 2] == pre + [key, value];
    RenderSnoc(pre, key, value);
  }

  /** One iteration of `FormatArgs` on a complete pair extends the rendering by that pair. */
  lemma FormatStep(args: seq<Arg>, i: nat, before: string, after: string)
    requires i % 2 == 0 && i + 1 < |args| && before == Render(args[..i])
    requires after == if args[i].Str? && args[i + 1].Str? then before + (args[i].s + "=" + args[i + 1].s + " ") else before
    ensures after == Render(args[..i + 2])
  {
    RenderStep(args, i);
    if args[i].Str? && args[i + 1].Str? {
      assert Pair(args[i], args[i + 1]) == args[i].s + "=" + args[i + 1].s + " ";
    }
  }

  /** `formatArgs(args...)`: a stepped loop over the pairs. */
  method FormatArgs(args: seq<Arg>) returns (result: string)
    ensures result == Render(args)
  {
    if |args| == 0 {
      return "";
    }
    result := "";
    var i := 0;
    ghost var done := 0;
    while i < |args|
      invariant 0 <= i <= |args| + 1 && i % 2 == 0 && done == (if i <= |args| then i else |args| - 1)
      invariant 0 <= done <= |args| && result == Render(args[..done])
      decreases |args| - i
    {
      if i + 1 < |args| {
        ghost var before := result;
        if args[i].Str? && args[i + 1].Str? {
          result := result + (args[i].s + "=" + args[i + 1].s + " ");
        }
        FormatStep(args, i, before, result);
        done := i + 2;
      } else {
        done := |args| - 1;
      }
      i := i + 2;
    }
    if done == |args| {
      assert args[..done] == args;
    } else {
      OddTrailingIgnored(args);
    }
  }

  /** An odd trailing argument contributes nothing. */
  lemma {:induction false} OddTrailingIgnored(args: seq<Arg>)
    requires |args| % 2 == 1
    ensures Render(args) == Render(args[..|args| - 1])
    decreases |args|
  {
    if |args| > 1 {
      assert args[2..][..|args| - 3] == args[..|args| - 1][2..];
      OddTrailingIgnored(args[2..]);
    }
  }

  /** Rendering an even-length prefix and the rest separately gives the whole rendering. */
  lemma {:induction false} RenderAppend(a: seq<Arg>, b: seq<Arg>)
    requires |a| % 2 == 0
    ensures Render(a + b) == Render(a) + Render(b)
    decreases |a|
  {
    if |a| == 0 {
      assert a + b == b;
    } else {
      assert (a + b)[2..] == a[2..] + b;
      RenderAppend(a[2..], b);
    }
  }

  /** A pair with a non-string element is skipped and does not shift the pairing of the rest. */
  lemma NonStringPairSkipped(key: Arg, value: Arg, rest: seq<Arg>)
    requires !key.Str? || !value.Str?
    ensures Render([key, value] + rest) == Render(rest)
  {
    assert ([key, value] + rest)[2..] == rest;
  }

  /** The contribution of a string pair: its key and value around "=", followed by one blank. */
  lemma StringPairRendered(k: string, v: string, rest: seq<Arg>)
    ensures Render([Str(k), Str(v)] + rest) == k + "=" + v + " " + Render(rest)
  {
    assert ([Str(k), Str(v)] + rest)[2..] == rest;
  }

  /** `MockLogger`: every level call appends one prefixed entry; its arguments are ignored. */
  class MockLogger {
    var Entries: seq<string>

    /** `NewMockLogger()`. */
    constructor ()
      ensures Entries == []
    {
      Entries := [];
    }

    method Debug(msg: string, args: seq<Arg>)
      modifies this
      ensures Entries == old(Entries) + ["DEBUG: " + msg]
    {
      Entries := Entries + ["DEBUG: " + msg];
    }

    method Info(msg: string, args: seq<Arg>)
      modifies this
      ensures Entries == old(Entries) + ["INFO: " + msg]
    {
      Entries := Entries + ["INFO: " + msg];
    }

    method Warn(msg: string, args: seq<Arg>)
      modifies this
      ensures Entries == old(Entries) + ["WARN: " + msg]
    {
      Entries := Entries + ["WARN: " + msg];
    }

    method Error(msg: string, args: seq<Arg>)
      modifies this
      ensures Entries == old(Entries) + ["ERROR: " + msg]
    {
      Entries := Entries + ["ERROR: " + msg];
    }

    /** Unlike the slog logger, the mock's Fatal records the line and returns. */
    method Fatal(msg: string, args: seq<Arg>)
      modifies this
      ensures Entries == old(Entries) + ["FATAL: " + msg]
    {
      Entries := Entries + ["FATAL: " + msg];
    }

    method With(args: seq<Arg>) returns (l: MockLogger)
      ensures l == this
    {
      l := this;
    }

    method DebugContext(msg: string, args: seq<Arg>)
      modifies this
      ensures Entries == old(Entries) + ["DEBUG: " + msg]
    {
      Debug(msg, args);
    }

    method InfoContext(msg: string, args: seq<Arg>)
      modifies this
      ensures Entries == old(Entries) + ["INFO: " + msg]
    {
      Info(msg, args);
    }

    method WarnContext(msg: string, args: seq<Arg>)
      modifies this
      ensures Entries == old(Entries) + ["WARN: " + msg]
    {
      Warn(msg, args);
    }

    method ErrorContext(msg: string, args: seq<Arg>)
      modifies this
      ensures Entries == old(Entries) + ["ERROR: " + msg]
    {
      Error(msg, args);
    }

    method FatalContext(msg: string, args: seq<Arg>)
      modifies this
      ensures Entries == old(Entries) + ["FATAL: " + msg]
    {
      Fatal(msg, args);
    }

    method WithContext() returns (l: MockLogger)
      ensures l == this
    {
      l := this;
    }
  }
}
