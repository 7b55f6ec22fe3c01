/**
 * The JavaScript string primitives the script relies on: `includes`, `endsWith`,
 * `replace` with a string pattern and a replacement without `$`, and the decimal rendering of a count in a
 * template literal.
 */
module Strings {
  import opened Wrappers

  /** `t` sits in `s` starting at position `i`. */
  predicate OccursAt(s: string, t: string, i: nat) {
    i + |t| <= |s| && s[i..i + |t|] == t
  }

  /** Position of the first occurrence of `t` in `s` at or after `from`. */
  function IndexFrom(s: string, t: string, from: nat): (r: Option<nat>)
    requires from <= |s|
    ensures r.Some? ==> from <= r.value && OccursAt(s, t, r.value)
    ensures r.Some? ==> forall j: nat :: from <= j < r.value ==> !OccursAt(s, t, j)
    ensures r.None? ==> forall j: nat :: from <= j ==> !OccursAt(s, t, j)
    decreases |s| - from
  {
    if OccursAt(s, t, from) then Some(from)
    else if from == |s| then None
    else IndexFrom(s, t, from + 1)
  }

  /** `s.indexOf(t)`, with `None` for -1. */
  function IndexOf(s: string, t: string): Option<nat> {
    IndexFrom(s, t, 0)
  }

  /** `s.includes(t)`: true exactly when `t` occurs somewhere in `s`. */
  function Contains(s: string, t: string): (r: bool)
    ensures r <==> exists i: nat :: OccursAt(s, t, i)
  {
    IndexOf(s, t).Some?
  }

  /** `s.endsWith(t)`. */
  predicate EndsWith(s: string, t: string) {
    |t| <= |s| && s[|s| - |t|..] == t
  }

  /** `s.startsWith(t)`. */
  predicate StartsWith(s: string, t: string) {
    |t| <= |s| && s[..|t|] == t
  }

  /**
   * `s.replace(pat, rep)` with a string pattern and a replacement holding no `$`
   * (main.js:19 passes `''`): only the first occurrence is replaced. A `$` pattern
   * in `rep` (`$$`, `$&`, and so on), which JavaScript expands, is taken literally.
   */
  function ReplaceFirst(s: string, pat: string, rep: string): string {
    match IndexOf(s, pat)
    case None => s
    case Some(k) => s[..k] + rep + s[k + |pat|..]
  }

  /** Any occurrence of `t` inside a piece of `s` is an occurrence in `s`, shifted. */
  lemma OccursInside(s: string, t: string, i: nat, u: string, j: nat)
    requires OccursAt(s, u, i) && OccursAt(u, t, j)
    ensures OccursAt(s, t, i + j)
  {
    forall k | 0 <= k < |t|
      ensures s[i + j + k] == t[k]
    {
      assert u[j + k] == t[k];
      assert s[i + (j + k)] == u[j + k];
    }
  }

  /** A replacement without `$` changes the length by exactly the difference of the two strings. */
  lemma ReplaceFirstLength(s: string, pat: string, rep: string)
    ensures Contains(s, pat) ==> |ReplaceFirst(s, pat, rep)| == |s| - |pat| + |rep|
    ensures !Contains(s, pat) ==> ReplaceFirst(s, pat, rep) == s
  {
  }

  /**
   * When `s` is `a + pat + b` and `pat` does not start anywhere inside `a`, the
   * replacement cuts out exactly that `pat`.
   */
  lemma ReplaceFirstSplits(a: string, pat: string, b: string, rep: string)
    requires forall j: nat :: j < |a| ==> !OccursAt(a + pat + b, pat, j)
    ensures ReplaceFirst(a + pat + b, pat, rep) == a + rep + b
  {
    var s := a + pat + b;
    assert s[|a|..|a| + |pat|] == pat;
    assert OccursAt(s, pat, |a|);
    var k := IndexOf(s, pat);
    assert k == Some(|a|);
    assert s[..|a|] == a && s[|a| + |pat|..] == b;
  }

  function DigitChar(d: nat): (c: char)
    requires d < 10
    ensures '0' <= c <= '9' && c as int - '0' as int == d
  {
    "0123456789"[d]
  }

  predicate IsDigits(s: string) {
    forall i :: 0 <= i < |s| ==> '0' <= s[i] <= '9'
  }

  /** A natural number as a template literal renders it: decimal, no leading zero. */
  function NatToString(n: nat): (s: string)
    ensures |s| >= 1 && IsDigits(s)
    ensures s[0] == '0' ==> n == 0
    decreases n
  {
    if n < 10 then [DigitChar(n)] else NatToString(n / 10) + [DigitChar(n % 10)]
  }

  /** Reads a string of decimal digits back as a number. */
  function ParseDecimal(s: string): nat
    requires IsDigits(s)
  {
    if s == [] then 0
    else ParseDecimal(s[..|s| - 1]) * 10 + (s[|s| - 1] as int - '0' as int)
  }

  lemma {:induction false} ParseNatToString(n: nat)
    ensures ParseDecimal(NatToString(n)) == n
    decreases n
  {
    var s := NatToString(n);
    if n >= 10 {
      ParseNatToString(n / 10);
      assert s[..|s| - 1] == NatToString(n / 10);
    }
  }
}
