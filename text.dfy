/** String operations the JavaScript code relies on: `trim`, ASCII `toLowerCase`,
    `includes`, global literal `replace`, and decimal rendering of numbers. */
module Text {

  datatype Option<T> = None | Some(value: T)

  /** The characters JavaScript's `\s` class and `String.prototype.trim` treat as white space. */
  predicate IsSpace(c: char) {
    c == ' ' || ('\t' <= c <= '\r') || c == '\U{A0}' || c == '\U{1680}'
    || ('\U{2000}' <= c <= '\U{200A}') || c == '\U{2028}' || c == '\U{2029}'
    || c == '\U{202F}' || c == '\U{205F}' || c == '\U{3000}' || c == '\U{FEFF}'
  }

  predicate NoSpace(s: string) {
    forall i | 0 <= i < |s| :: !IsSpace(s[i])
  }

  predicate AllSpace(s: string) {
    forall i | 0 <= i < |s| :: IsSpace(s[i])
  }

  function TrimStart(s: string): (r: string)
    ensures |r| <= |s| && r == s[|s| - |r|..]
    ensures forall i | 0 <= i < |s| - |r| :: IsSpace(s[i])
    ensures r == [] || !IsSpace(r[0])
  {
    if |s| > 0 && IsSpace(s[0]) then
      var r := TrimStart(s[1..]);
      assert s[1..][|s| - 1 - |r|..] == s[|s| - |r|..];
      r
    else s
  }

  function TrimEnd(s: string): (r: string)
    ensures |r| <= |s| && r == s[..|r|]
    ensures forall i | |r| <= i < |s| :: IsSpace(s[i])
    ensures r == [] || !IsSpace(r[|r| - 1])
  {
    if |s| > 0 && IsSpace(s[|s| - 1]) then
      var r := TrimEnd(s[..|s| - 1]);
      assert s[..|s| - 1][..|r|] == s[..|r|];
      r
    else s
  }

  /** `String.prototype.trim`: white space removed at both ends. */
  function Trim(s: string): (r: string)
    ensures |r| <= |s|
    ensures r == [] || (!IsSpace(r[0]) && !IsSpace(r[|r| - 1]))
  {
    TrimEnd(TrimStart(s))
  }

  /** `trim` removes only white space: the input is white space, the result, and
      white space again. */
  lemma TrimRemovesOnlySpace(s: string)
    ensures exists p, q | AllSpace(p) && AllSpace(q) :: s == p + Trim(s) + q
  {
    SpaceAround(s, TrimStart(s), Trim(s));
  }

  /** Cutting white space off the front of `s`, giving `t`, and then off the back of
      `t`, giving `r`, leaves `s` as white space, `r` and white space. */
  lemma SpaceAround(s: string, t: string, r: string)
    requires |t| <= |s| && t == s[|s| - |t|..] && forall i | 0 <= i < |s| - |t| :: IsSpace(s[i])
    requires |r| <= |t| && r == t[..|r|] && forall i | |r| <= i < |t| :: IsSpace(t[i])
    ensures exists p, q | AllSpace(p) && AllSpace(q) :: s == p + r + q
  {
    var p, q := s[..|s| - |t|], t[|r|..];
    assert s == p + t;
    assert t == r + q;
    assert s == p + r + q;
    assert AllSpace(p) && AllSpace(q);
  }

  /** A string without white space is left alone by `trim`. */
  lemma {:induction false} TrimNoSpace(s: string)
    requires NoSpace(s)
    ensures Trim(s) == s
  {
    if |s| > 0 {
      assert !IsSpace(s[0]);
      assert TrimStart(s) == s;
      assert !IsSpace(s[|s| - 1]);
      assert TrimEnd(s) == s;
    }
  }

  /** `toLowerCase` restricted to the ASCII letters. */
  function Lower(c: char): (d: char)
    ensures ('A' <= c <= 'Z') ==> d as int == c as int + 32
    ensures !('A' <= c <= 'Z') ==> d == c
  {
    if 'A' <= c <= 'Z' then (c as int + 32) as char else c
  }

  function ToLower(s: string): (r: string)
    ensures |r| == |s|
    ensures forall i | 0 <= i < |s| :: r[i] == Lower(s[i])
  {
    seq(|s|, i requires 0 <= i < |s| => Lower(s[i]))
  }

  lemma LowerKeepsSpace(s: string)
    requires NoSpace(s)
    ensures NoSpace(ToLower(s))
  {
    forall i | 0 <= i < |s| ensures !IsSpace(ToLower(s)[i]) {
      assert !IsSpace(s[i]);
    }
  }

  /** `s.includes(p)`: `p` occurs in `s` at some position. */
  predicate Contains(s: string, p: string) {
    exists i | 0 <= i <= |s| - |p| :: MatchAt(s, i, p)
  }

  /** A pattern with a character that `s` lacks does not occur in `s`. */
  lemma MissingCharNotContained(s: string, p: string, j: nat)
    requires j < |p| && p[j] !in s
    ensures !Contains(s, p)
  {
    forall i | 0 <= i <= |s| - |p| ensures !MatchAt(s, i, p) {
      assert s[i..i + |p|][j] == s[i + j] && s[i + j] in s;
    }
  }

  /** `s.replace(/pat/g, v)` for a pattern without special characters: every
      occurrence, scanned left to right without overlap, becomes `v`. */
  function ReplaceAll(s: string, pat: string, v: string): string
    requires |pat| > 0
    decreases |s|
  {
    if |s| < |pat| then s
    else if s[..|pat|] == pat then v + ReplaceAll(s[|pat|..], pat, v)
    else [s[0]] + ReplaceAll(s[1..], pat, v)
  }

  predicate MatchAt(s: string, i: nat, pat: string) {
    i + |pat| <= |s| && s[i..i + |pat|] == pat
  }

  /** A prefix `x` at none of whose positions a match begins passes through unchanged. */
  lemma {:induction false} ReplaceSkip(x: string, r: string, pat: string, v: string)
    requires |pat| > 0
    requires forall i | 0 <= i < |x| :: !MatchAt(x + r, i, pat)
    ensures ReplaceAll(x + r, pat, v) == x + ReplaceAll(r, pat, v)
  {
    if |x| == 0 {
      assert x + r == r;
    } else {
      var s := x + r;
      assert !MatchAt(s, 0, pat);
      ReplaceNoMatchFront(s, pat, v);
      assert s[1..] == x[1..] + r;
      forall i | 0 <= i < |x[1..]| ensures !MatchAt(x[1..] + r, i, pat) {
        MatchShift(s, i, pat);
      }
      ReplaceSkip(x[1..], r, pat, v);
      assert [x[0]] + x[1..] == x;
    }
  }

  lemma MatchShift(s: string, i: nat, pat: string)
    requires |s| > 0
    ensures MatchAt(s[1..], i, pat) <==> MatchAt(s, i + 1, pat)
  {
    if i + |pat| <= |s[1..]| {
      assert s[1..][i..i + |pat|] == s[i + 1..i + 1 + |pat|];
    }
  }

  /** Without a match at the front, the first character passes through. */
  lemma ReplaceNoMatchFront(s: string, pat: string, v: string)
    requires |pat| > 0 && |s| > 0 && !MatchAt(s, 0, pat)
    ensures ReplaceAll(s, pat, v) == [s[0]] + ReplaceAll(s[1..], pat, v)
  {
    if |s| < |pat| {
      assert ReplaceAll(s[1..], pat, v) == s[1..];
    }
  }

  /** A match at the front is replaced and scanning resumes after it. */
  lemma ReplaceFront(r: string, pat: string, v: string)
    requires |pat| > 0
    ensures ReplaceAll(pat + r, pat, v) == v + ReplaceAll(r, pat, v)
  {
    assert (pat + r)[..|pat|] == pat;
    assert (pat + r)[|pat|..] == r;
  }

  // ---------------------------------------------------------------- numbers

  function DigitChar(d: nat): (c: char)
    requires d < 10
    ensures '0' <= c <= '9'
  {
    ('0' as int + d) as char
  }

  function DigitValue(c: char): (d: Option<nat>)
    ensures d.Some? <==> '0' <= c <= '9'
    ensures d.Some? ==> d.value < 10
  {
    if '0' <= c <= '9' then Some(c as int - '0' as int) else None
  }

  /** `n.toString()` for a non-negative integer. */
  function NatToString(n: nat): (s: string)
    ensures |s| > 0
    ensures forall i | 0 <= i < |s| :: '0' <= s[i] <= '9'
    decreases n
  {
    if n < 10 then [DigitChar(n)] else NatToString(n / 10) + [DigitChar(n % 10)]
  }

  /** `n.toString()` for any integer. */
  function IntToString(n: int): string {
    if n < 0 then "-" + NatToString(-n) else NatToString(n)
  }

  /** Reads a non-empty run of decimal digits back as a number. */
  function ParseNat(s: string): (r: Option<nat>)
    ensures r.Some? ==> |s| > 0
    decreases |s|
  {
    if |s| == 0 then None
    else match DigitValue(s[|s| - 1])
      case None => None
      case Some(d) =>
        if |s| == 1 then Some(d)
        else match ParseNat(s[..|s| - 1])
          case None => None
          case Some(m) => Some(10 * m + d)
  }

  lemma DigitRoundTrip(d: nat)
    requires d < 10
    ensures DigitValue(DigitChar(d)) == Some(d)
  {
  }

  /** Rendering a number in decimal and reading it back gives the number. */
  lemma {:induction false} ParseNatToString(n: nat)
    ensures ParseNat(NatToString(n)) == Some(n)
  {
    DigitRoundTrip(n % 10);
    if n >= 10 {
      ParseNatToString(n / 10);
      var s := NatToString(n);
      assert s[..|s| - 1] == NatToString(n / 10);
    }
  }

  /** A decimal number followed by text that does not start with a digit reads back
      off the front: the number and the rest are both determined. */
  lemma NumberPrefix(a: nat, x: string, b: nat, y: string)
    requires NatToString(a) + x == NatToString(b) + y
    requires |x| > 0 ==> !('0' <= x[0] <= '9')
    requires |y| > 0 ==> !('0' <= y[0] <= '9')
    ensures a == b && x == y
  {
    var sa, sb := NatToString(a), NatToString(b);
    var s := sa + x;
    assert |x| > 0 ==> s[|sa|] == x[0];
    assert |y| > 0 ==> s[|sb|] == y[0];
    assert |sa| == |sb|;
    assert sa == s[..|sa|] == sb;
    ParseNatToString(a);
    ParseNatToString(b);
    assert x == s[|sa|..] == y;
  }
}
