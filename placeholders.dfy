/** Placeholder substitution as both template engines of the system perform it:
    a chain of global `replace` calls, one per variable, on a template whose
    placeholders are written `{name}` (shame messages) or `{{name}}` (escalation
    messages). A template is described as a list of literal pieces and holes; its
    text is `Render` of that list. The main theorem says the replace chain fills
    every hole whose name is a variable with that variable's value. */
module Placeholders {
  import opened Text

  datatype Segment = Lit(text: string) | Hole(name: string)

  /** Single braces `{name}` or double braces `{{name}}`. */
  datatype Delims = Single | Double

  function Open(d: Delims): (s: string)
    ensures 0 < |s| <= 2 && forall i | 0 <= i < |s| :: s[i] == '{'
  {
    if d == Single then "{" else "{{"
  }

  function Close(d: Delims): (s: string)
    ensures |s| == |Open(d)| && forall i | 0 <= i < |s| :: s[i] == '}'
  {
    if d == Single then "}" else "}}"
  }

  function Token(d: Delims, name: string): string {
    Open(d) + name + Close(d)
  }

  predicate IsBrace(c: char) {
    c == '{' || c == '}'
  }

  predicate BraceFree(s: string) {
    forall i | 0 <= i < |s| :: !IsBrace(s[i])
  }

  function Piece(d: Delims, g: Segment): string {
    match g
    case Lit(t) => t
    case Hole(n) => Token(d, n)
  }

  /** The template text a segment list stands for. */
  function Render(d: Delims, segs: seq<Segment>): string {
    if segs == [] then "" else Piece(d, segs[0]) + Render(d, segs[1..])
  }

  /** Literal text carries no braces and every hole has a non-empty, brace-free name. */
  predicate WellFormed(segs: seq<Segment>) {
    forall j | 0 <= j < |segs| ::
      match segs[j]
      case Lit(t) => BraceFree(t)
      case Hole(n) => |n| > 0 && BraceFree(n)
  }

  function Subst(segs: seq<Segment>, key: string, val: string): (r: seq<Segment>)
    ensures |r| == |segs|
  {
    if segs == [] then []
    else (if segs[0] == Hole(key) then [Lit(val)] else [segs[0]]) + Subst(segs[1..], key, val)
  }

  /** The value of the first variable named `key`. */
  function Lookup(vars: seq<(string, string)>, key: string): Option<string> {
    if vars == [] then None
    else if vars[0].0 == key then Some(vars[0].1)
    else Lookup(vars[1..], key)
  }

  /** The intended result: each hole whose name is a variable becomes that variable's
      value; any other hole stays as its placeholder text. */
  function Fill(d: Delims, segs: seq<Segment>, vars: seq<(string, string)>): string {
    if segs == [] then ""
    else
      var head := match segs[0]
        case Lit(t) => t
        case Hole(n) => (match Lookup(vars, n) case Some(v) => v case None => Token(d, n));
      head + Fill(d, segs[1..], vars)
  }

  predicate KeysUsable(vars: seq<(string, string)>) {
    forall j | 0 <= j < |vars| :: |vars[j].0| > 0 && BraceFree(vars[j].0) && BraceFree(vars[j].1)
  }

  /** Filling a literal segment keeps its text. */
  lemma FillLit(d: Delims, t: string, rest: seq<Segment>, vars: seq<(string, string)>)
    ensures Fill(d, [Lit(t)] + rest, vars) == t + Fill(d, rest, vars)
  {
    assert ([Lit(t)] + rest)[1..] == rest;
  }

  /** Filling a hole whose name is a variable gives that variable's value. */
  lemma FillHole(d: Delims, n: string, v: string, rest: seq<Segment>, vars: seq<(string, string)>)
    requires Lookup(vars, n) == Some(v)
    ensures Fill(d, [Hole(n)] + rest, vars) == v + Fill(d, rest, vars)
  {
    assert ([Hole(n)] + rest)[1..] == rest;
  }

  /** The chain `s.replace(/{k1}/g, v1).replace(/{k2}/g, v2)…`. */
  function ReplaceSeq(d: Delims, s: string, vars: seq<(string, string)>): string
    decreases vars
  {
    if vars == [] then s
    else ReplaceSeq(d, ReplaceAll(s, Token(d, vars[0].0), vars[0].1), vars[1..])
  }

  function HoleNames(segs: seq<Segment>): set<string> {
    set j | 0 <= j < |segs| && segs[j].Hole? :: segs[j].name
  }

  function Keys(vars: seq<(string, string)>): set<string> {
    set j | 0 <= j < |vars| :: vars[j].0
  }

  // ------------------------------------------------------------------ proofs

  lemma TokenChars(d: Delims, n: string)
    ensures |Token(d, n)| == 2 * |Open(d)| + |n|
    ensures forall j | 0 <= j < |Open(d)| :: Token(d, n)[j] == '{'
    ensures forall j | 0 <= j < |n| :: Token(d, n)[|Open(d)| + j] == n[j]
    ensures forall j | |Open(d)| + |n| <= j < |Token(d, n)| :: Token(d, n)[j] == '}'
  {
  }

  /** Where a match begins, the text agrees with the pattern character by character. */
  lemma MatchAtChar(s: string, i: nat, pat: string, j: nat)
    requires j < |pat| && i + j < |s|
    ensures MatchAt(s, i, pat) ==> s[i + j] == pat[j]
  {
    if MatchAt(s, i, pat) {
      assert s[i..i + |pat|][j] == s[i + j];
    }
  }

  lemma NoMatchInText(t: string, r: string, pat: string)
    requires BraceFree(t) && |pat| > 0 && pat[0] == '{'
    ensures forall i | 0 <= i < |t| :: !MatchAt(t + r, i, pat)
  {
    forall i | 0 <= i < |t| ensures !MatchAt(t + r, i, pat) {
      MatchAtChar(t + r, i, pat, 0);
      assert (t + r)[i] == t[i];
    }
  }

  lemma NoMatchInToken(d: Delims, n: string, k: string, r: string)
    requires n != k && BraceFree(n) && BraceFree(k)
    ensures forall i | 0 <= i < |Token(d, n)| :: !MatchAt(Token(d, n) + r, i, Token(d, k))
  {
    var x, pat := Token(d, n), Token(d, k);
    var m := |Open(d)|;
    TokenChars(d, n);
    TokenChars(d, k);
    var s := x + r;
    assert forall j | 0 <= j < |x| :: s[j] == x[j];
    forall i | 0 <= i < |x| ensures !MatchAt(s, i, pat) {
      if i == 0 {
        if |n| == |k| {
          var p :| 0 <= p < |n| && n[p] != k[p];
          MatchAtChar(s, 0, pat, m + p);
        } else if |n| < |k| {
          MatchAtChar(s, 0, pat, m + |n|);
          assert !IsBrace(k[|n|]);
        } else {
          MatchAtChar(s, 0, pat, m + |k|);
          assert !IsBrace(n[|k|]);
        }
      } else if i < m {
        MatchAtChar(s, i, pat, m - i);
        assert |n| > 0 ==> !IsBrace(n[0]);
      } else {
        MatchAtChar(s, i, pat, 0);
        assert i < m + |n| ==> !IsBrace(n[i - m]);
      }
    }
  }

  /** One `replace` of the chain turns the holes named `key` into `val`. */
  lemma {:induction false} ReplaceOne(d: Delims, segs: seq<Segment>, key: string, val: string)
    requires WellFormed(segs) && |key| > 0 && BraceFree(key)
    ensures ReplaceAll(Render(d, segs), Token(d, key), val) == Render(d, Subst(segs, key, val))
  {
    var pat := Token(d, key);
    TokenChars(d, key);
    if segs != [] {
      var rest := Render(d, segs[1..]);
      assert WellFormed(segs[1..]) by {
        forall j | 0 <= j < |segs[1..]| ensures segs[1..][j] == segs[j + 1] { }
      }
      ReplaceOne(d, segs[1..], key, val);
      assert Render(d, segs) == Piece(d, segs[0]) + rest;
      assert Subst(segs, key, val)[1..] == Subst(segs[1..], key, val);
      match segs[0]
      case Lit(t) =>
        assert BraceFree(t);
        NoMatchInText(t, rest, pat);
        ReplaceSkip(t, rest, pat, val);
      case Hole(n) =>
        assert BraceFree(n);
        if n == key {
          ReplaceFront(rest, pat, val);
        } else {
          NoMatchInToken(d, n, key, rest);
          ReplaceSkip(Token(d, n), rest, pat, val);
        }
    }
  }

  lemma {:induction false} SubstWellFormed(segs: seq<Segment>, key: string, val: string)
    requires WellFormed(segs) && BraceFree(val)
    ensures WellFormed(Subst(segs, key, val))
  {
    if segs != [] {
      assert WellFormed(segs[1..]) by {
        forall j | 0 <= j < |segs[1..]| ensures segs[1..][j] == segs[j + 1] { }
      }
      SubstWellFormed(segs[1..], key, val);
      var r := Subst(segs, key, val);
      forall j | 0 <= j < |r|
        ensures match r[j] case Lit(t) => BraceFree(t) case Hole(n) => |n| > 0 && BraceFree(n)
      {
        if j > 0 {
          assert r[j] == Subst(segs[1..], key, val)[j - 1];
        }
      }
    }
  }

  lemma {:induction false} FillSubst(d: Delims, segs: seq<Segment>, key: string, val: string, rest: seq<(string, string)>)
    ensures Fill(d, Subst(segs, key, val), rest) == Fill(d, segs, [(key, val)] + rest)
  {
    if segs != [] {
      assert ([(key, val)] + rest)[1..] == rest;
      FillSubst(d, segs[1..], key, val, rest);
    }
  }

  lemma {:induction false} FillNoVars(d: Delims, segs: seq<Segment>)
    ensures Fill(d, segs, []) == Render(d, segs)
  {
    if segs != [] {
      FillNoVars(d, segs[1..]);
    }
  }

  /** The replace chain computes the intended filling of a well-formed template,
      provided variable names and values carry no braces. */
  lemma {:induction false} ReplaceSeqFills(d: Delims, segs: seq<Segment>, vars: seq<(string, string)>)
    requires WellFormed(segs) && KeysUsable(vars)
    ensures ReplaceSeq(d, Render(d, segs), vars) == Fill(d, segs, vars)
    decreases vars
  {
    if vars == [] {
      FillNoVars(d, segs);
    } else {
      var (k, v) := vars[0];
      assert |k| > 0 && BraceFree(k) && BraceFree(v);
      ReplaceOne(d, segs, k, v);
      SubstWellFormed(segs, k, v);
      assert KeysUsable(vars[1..]) by {
        forall j | 0 <= j < |vars[1..]| ensures vars[1..][j] == vars[j + 1] { }
      }
      ReplaceSeqFills(d, Subst(segs, k, v), vars[1..]);
      FillSubst(d, segs, k, v, vars[1..]);
      assert [(k, v)] + vars[1..] == vars;
    }
  }

  lemma {:induction false} LookupFound(vars: seq<(string, string)>, key: string)
    requires key in Keys(vars)
    ensures Lookup(vars, key).Some?
    ensures exists j | 0 <= j < |vars| :: vars[j] == (key, Lookup(vars, key).value)
  {
    if vars[0].0 != key {
      var j :| 0 <= j < |vars| && vars[j].0 == key;
      assert vars[1..][j - 1] == vars[j];
      assert key in Keys(vars[1..]);
      LookupFound(vars[1..], key);
      var i :| 0 <= i < |vars[1..]| && vars[1..][i] == (key, Lookup(vars[1..], key).value);
      assert vars[i + 1] == vars[1..][i];
    }
  }

  lemma BraceFreeConcat(a: string, b: string)
    requires BraceFree(a) && BraceFree(b)
    ensures BraceFree(a + b)
  {
    assert forall i | 0 <= i < |a + b| :: (a + b)[i] == if i < |a| then a[i] else b[i - |a|];
  }

  /** When every hole names a variable, nothing brace-shaped is left: the filled text
      has no `{` or `}` at all, so in particular no placeholder token. */
  lemma {:induction false} FillLeavesNoPlaceholder(d: Delims, segs: seq<Segment>, vars: seq<(string, string)>)
    requires WellFormed(segs) && KeysUsable(vars)
    requires HoleNames(segs) <= Keys(vars)
    ensures BraceFree(Fill(d, segs, vars))
  {
    if segs != [] {
      assert WellFormed(segs[1..]) by {
        forall j | 0 <= j < |segs[1..]| ensures segs[1..][j] == segs[j + 1] { }
      }
      assert HoleNames(segs[1..]) <= HoleNames(segs) by {
        forall n | n in HoleNames(segs[1..]) ensures n in HoleNames(segs) {
          var j :| 0 <= j < |segs[1..]| && segs[1..][j].Hole? && segs[1..][j].name == n;
          assert segs[j + 1] == segs[1..][j];
        }
      }
      FillLeavesNoPlaceholder(d, segs[1..], vars);
      match segs[0]
      case Lit(t) =>
        BraceFreeConcat(t, Fill(d, segs[1..], vars));
      case Hole(n) =>
        assert n in HoleNames(segs);
        LookupFound(vars, n);
        var j :| 0 <= j < |vars| && vars[j] == (n, Lookup(vars, n).value);
        BraceFreeConcat(vars[j].1, Fill(d, segs[1..], vars));
    }
  }

  lemma BraceFreeHasNoToken(d: Delims, s: string, name: string)
    requires BraceFree(s)
    ensures !Contains(s, Token(d, name))
  {
    var pat := Token(d, name);
    TokenChars(d, name);
    forall i | 0 <= i <= |s| - |pat| ensures !MatchAt(s, i, pat) {
      MatchAtChar(s, i, pat, 0);
      assert !IsBrace(s[i]);
    }
  }
}
