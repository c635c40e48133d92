/**
 String helpers with the semantics of the JavaScript built-ins the CLI relies on:
 `String.prototype.trim`, `split` on a one-character separator, `Array.prototype.join`,
 `indexOf`, `includes` and `startsWith`.  Strings are sequences of Unicode scalar values.
 */
module Strings {

  import opened Wrappers

  /** ECMAScript WhiteSpace or LineTerminator: the characters `trim` removes. */
  predicate IsSpace(c: char)
  {
    var n := c as int;
    n == 0x09 || n == 0x0A || n == 0x0B || n == 0x0C || n == 0x0D || n == 0x20
    || n == 0xA0 || n == 0x1680 || (0x2000 <= n <= 0x200A) || n == 0x2028 || n == 0x2029
    || n == 0x202F || n == 0x205F || n == 0x3000 || n == 0xFEFF
  }

  predicate AllSpaces(s: string)
  {
    forall i :: 0 <= i < |s| ==> IsSpace(s[i])
  }

  /** Neither the first nor the last character is white space (vacuously true for ""). */
  predicate Bounded(s: string)
  {
    |s| == 0 || (!IsSpace(s[0]) && !IsSpace(s[|s| - 1]))
  }

  /** Number of leading white-space characters. */
  function LeadingSpaces(s: string): (k: nat)
    ensures k <= |s|
    ensures AllSpaces(s[..k])
    ensures k == |s| || !IsSpace(s[k])
  {
    if |s| == 0 || !IsSpace(s[0]) then 0
    else
      var k := 1 + LeadingSpaces(s[1..]);
      assert s[..k] == [s[0]] + s[1..][..k - 1];
      k
  }

  /** Length of `s` without its trailing white space. */
  function TrailingStart(s: string): (k: nat)
    ensures k <= |s|
    ensures AllSpaces(s[k..])
    ensures k == 0 || !IsSpace(s[k - 1])
  {
    if |s| == 0 || !IsSpace(s[|s| - 1]) then |s|
    else
      var k := TrailingStart(s[..|s| - 1]);
      assert s[k..] == s[..|s| - 1][k..] + [s[|s| - 1]];
      k
  }

  /** `String.prototype.trim`. */
  function Trim(s: string): (r: string)
    ensures Bounded(r)
    ensures |r| <= |s|
    ensures AllSpaces(s) <==> r == ""
    ensures forall c :: c in r ==> c in s
  {
    var i := LeadingSpaces(s);
    var j := TrailingStart(s[i..]);
    assert i < |s| ==> j > 0 && s[i..][0] == s[i] by {
      if i < |s| { assert s[i..][0] == s[i]; }
    }
    assert i == |s| ==> s[..i] == s;
    s[i..][..j]
  }

  lemma TrimBounded(s: string)
    requires Bounded(s)
    ensures Trim(s) == s
  {
    assert LeadingSpaces(s) == 0;
    assert TrailingStart(s) == |s|;
  }

  /** Leading and trailing white space around a bounded text is exactly what `trim` removes. */
  lemma {:induction false} TrimAround(w1: string, s: string, w2: string)
    requires AllSpaces(w1) && AllSpaces(w2) && Bounded(s) && s != ""
    ensures Trim(w1 + s + w2) == s
  {
    var t := w1 + s + w2;
    LeadingOf(w1, s + w2);
    assert t == w1 + (s + w2);
    assert t[|w1|..] == s + w2;
    TrailingOf(s, w2);
  }

  lemma {:induction false} LeadingOf(w: string, s: string)
    requires AllSpaces(w) && s != "" && !IsSpace(s[0])
    ensures LeadingSpaces(w + s) == |w|
    decreases |w|
  {
    if |w| > 0 {
      assert (w + s)[1..] == w[1..] + s;
      LeadingOf(w[1..], s);
    } else {
      assert w + s == s;
    }
  }

  lemma {:induction false} TrailingOf(s: string, w: string)
    requires AllSpaces(w) && s != "" && !IsSpace(s[|s| - 1])
    ensures TrailingStart(s + w) == |s|
    decreases |w|
  {
    if |w| > 0 {
      assert (s + w)[..|s + w| - 1] == s + w[..|w| - 1];
      TrailingOf(s, w[..|w| - 1]);
    } else {
      assert s + w == s;
    }
  }

  /** Position of the first occurrence of `c` (JavaScript `indexOf`, with `None` for -1). */
  function IndexOf(s: string, c: char): (r: Option<nat>)
    ensures r.None? <==> c !in s
    ensures r.Some? ==> r.value < |s| && s[r.value] == c && c !in s[..r.value]
  {
    if |s| == 0 then None
    else if s[0] == c then Some(0)
    else match IndexOf(s[1..], c)
      case None => None
      case Some(i) =>
        assert s[..i + 1] == [s[0]] + s[1..][..i];
        Some(i + 1)
  }

  predicate StartsWith(s: string, prefix: string)
  {
    |prefix| <= |s| && s[..|prefix|] == prefix
  }

  /** `Array.prototype.join` of strings. */
  function Join(xs: seq<string>, sep: string): string
  {
    if |xs| == 0 then ""
    else if |xs| == 1 then xs[0]
    else xs[0] + sep + Join(xs[1..], sep)
  }

  /** `String.prototype.split` on a one-character separator: `c` occurs in no piece,
      and joining the pieces back with `c` gives `s`. */
  function Split(s: string, c: char): (r: seq<string>)
    ensures |r| >= 1
    ensures forall i :: 0 <= i < |r| ==> c !in r[i]
    ensures Join(r, [c]) == s
    decreases |s|
  {
    match IndexOf(s, c)
    case None => [s]
    case Some(i) =>
      var rest := Split(s[i + 1..], c);
      assert s == s[..i] + [c] + s[i + 1..];
      [s[..i]] + rest
  }

  /** Splitting a join undoes it when no piece holds the separator. */
  lemma {:induction false} SplitJoin(xs: seq<string>, c: char)
    requires |xs| >= 1
    requires forall i :: 0 <= i < |xs| ==> c !in xs[i]
    ensures Split(Join(xs, [c]), c) == xs
    decreases |xs|
  {
    if |xs| > 1 {
      var s := Join(xs, [c]);
      assert s == xs[0] + [c] + Join(xs[1..], [c]);
      assert s[..|xs[0]|] == xs[0];
      assert s[|xs[0]|] == c;
      IndexOfPrefix(xs[0], c, Join(xs[1..], [c]));
      assert s[|xs[0]| + 1..] == Join(xs[1..], [c]);
      SplitJoin(xs[1..], c);
    } else {
      assert Join(xs, [c]) == xs[0];
    }
  }

  lemma {:induction false} IndexOfPrefix(a: string, c: char, b: string)
    requires c !in a
    ensures IndexOf(a + [c] + b, c) == Some(|a|)
  {
    var s := a + [c] + b;
    assert s[|a|] == c;
    assert s[..|a|] == a;
    assert s[..|a| + 1] == a + [c];
  }

  /** Lower-case mapping restricted to the ASCII letters. */
  function LowerChar(c: char): (r: char)
    ensures 'A' <= c <= 'Z' ==> r as int == c as int + 32
    ensures !('A' <= c <= 'Z') ==> r == c
  {
    if 'A' <= c <= 'Z' then (c as int + 32) as char else c
  }

  function Lower(s: string): (r: string)
    ensures |r| == |s|
    ensures forall i :: 0 <= i < |s| ==> r[i] == LowerChar(s[i])
  {
    seq(|s|, i requires 0 <= i < |s| => LowerChar(s[i]))
  }
}
