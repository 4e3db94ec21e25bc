/**
 * ASCII models of the JavaScript string built-ins the generator section relies on:
 * `String.prototype.trim`, `indexOf`, `replace` with a string pattern, the `\s` and
 * `\w` regular-expression classes, and the decimal rendering of a non-negative
 * integer inside a template literal.
 */
module JsStrings {
  import opened Wrappers

  /** ASCII part of ECMAScript WhiteSpace and LineTerminator: space, tab, LF, VT, FF, CR. */
  predicate IsSpace(c: char) {
    c == ' ' || ('\t' <= c <= '\r')
  }

  /** The regular-expression class `\w`: ASCII letters, digits and underscore. */
  predicate IsWord(c: char) {
    ('a' <= c <= 'z') || ('A' <= c <= 'Z') || ('0' <= c <= '9') || c == '_'
  }

  /** A string that `trim` turns into the empty (falsy) string. */
  predicate IsBlank(s: string) {
    forall i :: 0 <= i < |s| ==> IsSpace(s[i])
  }

  /** Drops leading white space. */
  function TrimStart(s: string): (r: string)
    ensures |r| <= |s| && r == s[|s| - |r|..]
    ensures forall k :: 0 <= k < |s| - |r| ==> IsSpace(s[k])
    ensures r == [] || !IsSpace(r[0])
  {
    if s != [] && IsSpace(s[0]) then TrimStart(s[1..]) else s
  }

  /** Drops trailing white space. */
  function TrimEnd(s: string): (r: string)
    ensures |r| <= |s| && r == s[..|r|]
    ensures forall k :: |r| <= k < |s| ==> IsSpace(s[k])
    ensures r == [] || !IsSpace(r[|r| - 1])
  {
    if s != [] && IsSpace(s[|s| - 1]) then TrimEnd(s[..|s| - 1]) else s
  }

  /** `s.trim()`: the text with leading and trailing white space removed. */
  function Trim(s: string): (r: string)
    ensures |r| <= |s|
    ensures r == [] || (!IsSpace(r[0]) && !IsSpace(r[|r| - 1]))
  {
    var t := TrimStart(s);
    var r := TrimEnd(t);
    assert r == [] || r[0] == t[0];
    r
  }

  /** `!s.trim()` holds exactly for the strings made of white space only. */
  lemma TrimEmptyIffBlank(s: string)
    ensures Trim(s) == [] <==> IsBlank(s)
  {
    var t := TrimStart(s);
    var k := |s| - |t|;
    if t == [] {
      assert k == |s|;
    } else {
      assert t[0] == s[k];
    }
  }

  /** `pat` occurs in `s` starting at position `i`. */
  predicate OccursAt(s: string, pat: string, i: nat) {
    i + |pat| <= |s| && s[i..i + |pat|] == pat
  }

  /** `pat` does not occur in `s` at all. */
  ghost predicate Absent(s: string, pat: string) {
    forall i: nat :: !OccursAt(s, pat, i)
  }

  /** Position `i` is the leftmost occurrence of `pat` in `s`. */
  predicate IsFirstOccurrence(s: string, pat: string, i: nat) {
    OccursAt(s, pat, i) && forall j: nat :: j < i ==> !OccursAt(s, pat, j)
  }

  /**
   * `s.indexOf(pat, from)`, with `None` for the result -1. JavaScript clamps a `from`
   * beyond the end (`"ab".indexOf("", 5)` is 2) where this gives `None`; the section
   * only searches from 0.
   */
  function IndexFrom(s: string, pat: string, from: nat): (r: Option<nat>)
    ensures r.Some? ==> from <= r.value && OccursAt(s, pat, r.value)
    ensures r.Some? ==> forall j: nat :: from <= j < r.value ==> !OccursAt(s, pat, j)
    ensures r.None? ==> forall j: nat :: from <= j ==> !OccursAt(s, pat, j)
    decreases |s| - from
  {
    if from + |pat| > |s| then None
    else if s[from..from + |pat|] == pat then Some(from)
    else IndexFrom(s, pat, from + 1)
  }

  /**
   * `s.replace(pat, rep)` with a string pattern: only the leftmost occurrence is replaced.
   * JavaScript also expands `$&`, `$$`, `` $` `` and `$'` in `rep`; this models a
   * replacement without `$`, such as the `"function"` the section uses.
   */
  function ReplaceFirst(s: string, pat: string, rep: string): (r: string)
    ensures Absent(s, pat) ==> r == s
    ensures forall i: nat :: IsFirstOccurrence(s, pat, i) ==> r == s[..i] + rep + s[i + |pat|..]
  {
    match IndexFrom(s, pat, 0)
    case None => s
    case Some(i) => s[..i] + rep + s[i + |pat|..]
  }

  /**
   * Occurrences after the replaced one are kept: one that starts past the end of the
   * first occurrence is found again, shifted by the length difference.
   */
  lemma LaterOccurrencesSurvive(s: string, pat: string, rep: string, i: nat, j: nat)
    requires IsFirstOccurrence(s, pat, i)
    requires OccursAt(s, pat, j) && j >= i + |pat|
    ensures j + |rep| >= |pat|
    ensures OccursAt(ReplaceFirst(s, pat, rep), pat, j + |rep| - |pat|)
  {
    ReplaceFirstAt(s, pat, rep, i);
    OccurrenceAfterSplice(s, pat, rep, i, j);
  }

  /** Splicing `rep` over `s[i..i + |pat|]` keeps an occurrence that starts after the splice. */
  lemma OccurrenceAfterSplice(s: string, pat: string, rep: string, i: nat, j: nat)
    requires OccursAt(s, pat, j) && j >= i + |pat|
    ensures OccursAt(s[..i] + rep + s[i + |pat|..], pat, j + |rep| - |pat|)
  {
    var head, tail := s[..i] + rep, s[i + |pat|..];
    var k := j - (i + |pat|);
    calc {
      (head + tail)[|head| + k..|head| + k + |pat|];
      { SliceAfterPrefix(head, tail, k, |pat|); }
      tail[k..k + |pat|];
      { SliceOfSuffix(s, i + |pat|, k, |pat|); }
      s[j..j + |pat|];
    }
  }

  lemma ReplaceFirstAt(s: string, pat: string, rep: string, i: nat)
    requires IsFirstOccurrence(s, pat, i)
    ensures ReplaceFirst(s, pat, rep) == s[..i] + rep + s[i + |pat|..]
  {
  }

  lemma SliceOfSuffix(s: string, from: nat, k: nat, n: nat)
    requires from + k + n <= |s|
    ensures s[from..][k..k + n] == s[from + k..from + k + n]
  {
  }

  lemma SliceAfterPrefix(a: string, b: string, k: nat, n: nat)
    requires k + n <= |b|
    ensures (a + b)[|a| + k..|a| + k + n] == b[k..k + n]
  {
    var lhs, rhs := (a + b)[|a| + k..|a| + k + n], b[k..k + n];
    forall m | 0 <= m < n ensures lhs[m] == rhs[m] {
      assert (a + b)[|a| + k + m] == b[k + m];
    }
  }

  function DigitChar(d: nat): (c: char)
    requires d < 10
    ensures '0' <= c <= '9' && c as int - '0' as int == d
  {
    ('0' as int + d) as char
  }

  predicate IsDigits(s: string) {
    forall i :: 0 <= i < |s| ==> '0' <= s[i] <= '9'
  }

  /** The decimal text JavaScript produces for a non-negative integer in `${n}`: no leading zero. */
  function Decimal(n: nat): (r: string)
    ensures |r| >= 1 && IsDigits(r)
    ensures |r| == 1 || r[0] != '0'
  {
    if n < 10 then [DigitChar(n)] else Decimal(n / 10) + [DigitChar(n % 10)]
  }

  /** Reads a string of decimal digits back as a number. */
  function DecimalValue(s: string): nat
    requires IsDigits(s)
  {
    if s == [] then 0
    else DecimalValue(s[..|s| - 1]) * 10 + (s[|s| - 1] as int - '0' as int)
  }

  lemma {:induction false} DecimalRoundTrip(n: nat)
    ensures DecimalValue(Decimal(n)) == n
  {
    var r := Decimal(n);
    if n >= 10 {
      DecimalRoundTrip(n / 10);
      assert r[..|r| - 1] == Decimal(n / 10);
    }
  }

  /** A digit string with a non-zero leading digit has a positive value. */
  lemma {:induction false} LeadingDigitPositive(s: string)
    requires |s| >= 1 && IsDigits(s) && s[0] != '0'
    ensures DecimalValue(s) >= 1
  {
    if |s| > 1 {
      LeadingDigitPositive(s[..|s| - 1]);
    }
  }

  /**
   * The converse round trip: a digit string without a leading zero is the text of its
   * value, so `Decimal` is the only such text for a number.
   */
  lemma {:induction false} DecimalCanonical(s: string)
    requires |s| >= 1 && IsDigits(s) && (|s| == 1 || s[0] != '0')
    ensures Decimal(DecimalValue(s)) == s
  {
    var init := s[..|s| - 1];
    var d := s[|s| - 1] as int - '0' as int;
    if |s| == 1 {
      assert DecimalValue(init) == 0;
      assert s == [DigitChar(d)];
    } else {
      assert init[0] == s[0];
      LeadingDigitPositive(init);
      DecimalCanonical(init);
      var v := DecimalValue(s);
      assert v / 10 == DecimalValue(init) && v % 10 == d;
      assert s == init + [DigitChar(d)];
    }
  }

  /** Different numbers render as different texts. */
  lemma DecimalInjective(m: nat, n: nat)
    ensures Decimal(m) == Decimal(n) ==> m == n
  {
    DecimalRoundTrip(m);
    DecimalRoundTrip(n);
  }
}
