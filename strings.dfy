/** The few string operations of Go's `strings` package the model needs. */
module Strings {

  /** `strings.Join(xs, sep)`. */
  function Join(xs: seq<string>, sep: string): string
  {
    if |xs| == 0 then "" else if |xs| == 1 then xs[0] else xs[0] + sep + Join(xs[1..], sep)
  }

  predicate OccursAt(needle: string, hay: string, i: int)
  {
    0 <= i <= |hay| - |needle| && hay[i..i + |needle|] == needle
  }

  /** `strings.Contains(hay, needle)`. */
  predicate Occurs(needle: string, hay: string)
  {
    exists i :: 0 <= i <= |hay| && OccursAt(needle, hay, i)
  }

  /** Text put in front of, or behind, a text that contains a needle still contains it. */
  lemma OccursInContext(needle: string, hay: string, before: string, after: string)
    requires Occurs(needle, hay)
    ensures Occurs(needle, before + hay + after)
  {
    var i: int :| 0 <= i <= |hay| && OccursAt(needle, hay, i);
    assert (before + hay + after)[|before| + i..|before| + i + |needle|] == hay[i..i + |needle|];
    assert OccursAt(needle, before + hay + after, |before| + i);
  }

  /** A text occurs in itself, and whatever occurs in one part of a concatenation occurs in the whole. */
  lemma OccursInConcat(needle: string, a: string, b: string)
    ensures Occurs(a, a) && Occurs(b, b)
    ensures Occurs(needle, a) || Occurs(needle, b) ==> Occurs(needle, a + b)
  {
    assert OccursAt(a, a, 0) && OccursAt(b, b, 0);
    if Occurs(needle, a) {
      OccursInContext(needle, a, "", b);
      assert "" + a + b == a + b;
    } else if Occurs(needle, b) {
      OccursInContext(needle, b, a, "");
      assert a + b + "" == a + b;
    }
  }

  /** Every joined element occurs in the joined text. */
  lemma {:induction false} JoinMentionsAll(xs: seq<string>, sep: string)
    ensures forall k :: 0 <= k < |xs| ==> Occurs(xs[k], Join(xs, sep))
  {
    if |xs| >= 2 {
      JoinMentionsAll(xs[1..], sep);
      var head := xs[0] + sep;
      assert Join(xs, sep) == head + Join(xs[1..], sep) + "";
      forall k | 0 <= k < |xs| ensures Occurs(xs[k], Join(xs, sep)) {
        if k == 0 {
          assert OccursAt(xs[0], Join(xs, sep), 0);
        } else {
          assert xs[k] == xs[1..][k - 1];
          OccursInContext(xs[k], Join(xs[1..], sep), head, "");
        }
      }
    } else if |xs| == 1 {
      assert OccursAt(xs[0], Join(xs, sep), 0);
    }
  }

  /** An operand handed to `fmt.Sprintf`: a string or a slice of strings. */
  datatype Operand = Str(s: string) | Strs(ss: seq<string>)

  /** An operand as the `%!(EXTRA …)` notation prints it: its Go type, `=`, its `%v` form. */
  function Typed(a: Operand): string
  {
    match a
    case Str(s) => "string=" + s
    case Strs(ss) => "[]string=[" + Join(ss, " ") + "]"
  }

  function TypedAll(args: seq<Operand>): (ts: seq<string>)
    ensures |ts| == |args| && forall k :: 0 <= k < |args| ==> ts[k] == Typed(args[k])
  {
    seq(|args|, k requires 0 <= k < |args| => Typed(args[k]))
  }

  /**
   * `fmt.Sprintf(format, args...)` for a format without verbs: the format as
   * written, followed, when operands were given, by one `%!(EXTRA …)` group
   * that lists them all.
   */
  function Sprintf(format: string, args: seq<Operand>): (s: string)
    requires '%' !in format
    ensures |format| <= |s| && s[..|format|] == format
    ensures args == [] <==> s == format
    ensures args != [] ==> OccursAt("%!(EXTRA ", s, |format|) && s[|s| - 1] == ')'
  {
    if args == [] then format
    else format + "%!(EXTRA " + Join(TypedAll(args), ", ") + ")"
  }

  /** Every operand, with its type, can be read back from the formatted text. */
  lemma SprintfMentionsOperands(format: string, args: seq<Operand>)
    requires '%' !in format
    ensures forall k :: 0 <= k < |args| ==> Occurs(Typed(args[k]), Sprintf(format, args))
  {
    if args != [] {
      var ts := TypedAll(args);
      JoinMentionsAll(ts, ", ");
      forall k | 0 <= k < |args| ensures Occurs(Typed(args[k]), Sprintf(format, args)) {
        OccursInContext(ts[k], Join(ts, ", "), format + "%!(EXTRA ", ")");
      }
    }
  }
}
