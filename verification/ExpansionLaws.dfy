/** The algebra of `Expand`: it distributes over every cut that no parameter straddles, undoes the
    doubling of dollars, and is the identity exactly where nothing is left to expand. */
module ExpansionLaws {
  import opened GoStrings
  import opened Templates
  import opened TemplateLaws

  // ----- cutting a template

  /** No parameter has bytes on both sides of the cut before byte `n`. */
  ghost predicate CutsNothing(ps: seq<TemplateParameter>, n: nat) {
    forall p :: p in ps ==> !(p.Start < n <= p.End)
  }

  lemma ParameterSurvives(s: string, n: nat, p: TemplateParameter)
    requires n <= |s| && p.End < n && IsParameter(s, p)
    ensures IsParameter(s[..n], p)
  {
    assert forall e :: p.Start <= e <= n ==> s[..n][p.Start..e] == s[p.Start..e];
  }

  lemma NothingSurvives(s: string, n: nat, i: nat)
    requires i <= n <= |s| && StartsNothing(s, i)
    ensures StartsNothing(s[..n], i)
  {
    var t := s[..n];
    assert forall e :: i <= e <= n ==> t[i..e] == s[i..e];
    assert |t[i..]| >= 2 ==> t[i..][..2] == s[i..][..2];
  }

  /** What starts at `i` is not affected by dropping the bytes from `n` on, unless it reaches them. */
  lemma TokenAtTruncated(s: string, i: nat, n: nat)
    requires i < n <= |s|
    requires TokenAt(s, i).Some? ==> TokenAt(s, i).value.End < n
    ensures TokenAt(s[..n], i) == TokenAt(s, i)
  {
    hide TokenAt;
    var t := s[..n];
    TokenAtIsExact(s, i);
    TokenAtIsExact(t, i);
    if TokenAt(s, i).Some? {
      ParameterSurvives(s, n, TokenAt(s, i).value);
      ParameterIsTokenAt(t, TokenAt(s, i).value);
    } else {
      NothingSurvives(s, n, i);
    }
  }

  lemma ExpandEmpty(m: Replacements)
    ensures Expand(m, "") == ""
  {
  }

  lemma CutsRest(s: string, i: nat, n: nat)
    requires i < |s| && TokenAt(s, i).Some? && CutsNothing(Scan(s, i), n)
    ensures CutsNothing(Scan(s, TokenAt(s, i).value.End + 1), n)
  {
    hide TokenAt;
  }

  lemma {:induction false} ExpandSplitAt(m: Replacements, s: string, i: nat, n: nat)
    requires i <= n <= |s|
    requires CutsNothing(Scan(s, i), n)
    ensures Expand(m, s[i..]) == Expand(m, s[i..n]) + Expand(m, s[n..])
    decreases n - i
  {
    hide TokenAt, Expand;
    var t := s[..n];
    assert t[i..] == s[i..n];
    if i == n {
      ExpandEmpty(m);
      assert s[i..n] == "";
    } else {
      ExpandAt(m, s, i);
      if TokenAt(s, i).None? {
        TokenAtTruncated(s, i, n);
        ExpandAt(m, t, i);
        ExpandSplitAt(m, s, i + 1, n);
        assert t[i + 1..] == s[i + 1..n];
        Reassociate([s[i]], Expand(m, s[i + 1..n]), Expand(m, s[n..]));
      } else {
        var p := TokenAt(s, i).value;
        assert p in Scan(s, i);
        CutsRest(s, i, n);
        TokenAtTruncated(s, i, n);
        ExpandAt(m, t, i);
        ExpandSplitAt(m, s, p.End + 1, n);
        assert t[p.End + 1..] == s[p.End + 1..n];
        Reassociate(ValueOf(m, p), Expand(m, s[p.End + 1..n]), Expand(m, s[n..]));
      }
    }
  }

  /** Expansion distributes over a concatenation whose seam lies inside no parameter. */
  lemma ExpandAppend(m: Replacements, a: string, b: string)
    requires CutsNothing(Scan(a + b, 0), |a|)
    ensures Expand(m, a + b) == Expand(m, a) + Expand(m, b)
  {
    hide *;
    var s := a + b;
    assert s[0..] == s && s[0..|a|] == a && s[|a|..] == b;
    ExpandSplitAt(m, s, 0, |a|);
  }

  // ----- separators

  /** The bytes a parameter can be made of. */
  predicate IsTokenByte(c: char) {
    c == '$' || c == '{' || c == '}' || IsKeyChar(c)
  }

  lemma ParameterBytes(s: string, p: TemplateParameter, k: nat)
    requires IsParameter(s, p) && p.Start <= k <= p.End
    ensures IsTokenByte(s[k])
  {
  }

  lemma PlainByte(m: Replacements, s: string)
    requires s != "" && s[0] != '$'
    ensures Expand(m, s) == [s[0]] + Expand(m, s[1..])
  {
  }

  lemma SeparatorCutsNothing(a: string, c: char, b: string)
    requires !IsTokenByte(c)
    ensures CutsNothing(Scan(a + ([c] + b), 0), |a|)
  {
    hide IsParameter, IsTokenByte, StartsNothing, Scan;
    var s := a + ([c] + b);
    ScanListsParameters(s, 0);
    assert s[|a|] == c;
    forall p | p in Scan(s, 0) ensures !(p.Start < |a| <= p.End) {
      if p.Start <= |a| <= p.End {
        ParameterBytes(s, p, |a|);
      }
    }
  }

  /** A byte that no parameter contains separates two expansions. */
  lemma ExpandAround(m: Replacements, a: string, c: char, b: string)
    requires !IsTokenByte(c)
    ensures Expand(m, a + [c] + b) == Expand(m, a) + [c] + Expand(m, b)
  {
    hide TokenAt, Scan;
    SeparatorCutsNothing(a, c, b);
    assert a + [c] + b == a + ([c] + b);
    ExpandAppend(m, a, [c] + b);
    assert ([c] + b)[1..] == b;
    PlainByte(m, [c] + b);
    hide Expand;
    Reassociate(Expand(m, a), [c], Expand(m, b));
  }

  /** A dollar-free prefix is copied. */
  lemma {:induction false} ExpandPlainPrefix(m: Replacements, a: string, b: string)
    requires '$' !in a
    ensures Expand(m, a + b) == a + Expand(m, b)
  {
    hide TokenAt, Expand;
    if a == "" {
      assert a + b == b;
    } else {
      assert a[0] != '$';
      assert (a + b)[1..] == a[1..] + b;
      PlainByte(m, a + b);
      ExpandPlainPrefix(m, a[1..], b);
      assert a == [a[0]] + a[1..];
      Reassociate([a[0]], a[1..], Expand(m, b));
    }
  }

  lemma PrefixSurvives(m: Replacements, s: string, prefix: string)
    requires HasPrefix(s, prefix) && '$' !in prefix
    ensures HasPrefix(Expand(m, s), prefix)
  {
    hide Expand;
    assert s == prefix + s[|prefix|..];
    ExpandPlainPrefix(m, prefix, s[|prefix|..]);
  }

  /** A final byte that no parameter contains stays final. */
  lemma LastByteSurvives(m: Replacements, s: string, c: char)
    requires HasSuffix(s, [c]) && !IsTokenByte(c)
    ensures HasSuffix(Expand(m, s), [c])
  {
    hide Expand;
    var a := s[..|s| - 1];
    assert s == a + [c] + "";
    ExpandAround(m, a, c, "");
    ExpandEmpty(m);
    assert Expand(m, s) == Expand(m, a) + [c];
  }

  // ----- escaping

  /** `s` with every dollar doubled. */
  function EscapeDollars(s: string): string {
    if s == "" then "" else (if s[0] == '$' then "$$" else [s[0]]) + EscapeDollars(s[1..])
  }

  /** Where the doubled dollars of `EscapeDollars(s)` are, when it starts at byte `d`. */
  function EscapesOf(s: string, d: nat): seq<TemplateParameter> {
    if s == "" then []
    else if s[0] == '$' then [TemplateParameter(d, d + 1, "", true)] + EscapesOf(s[1..], d + 2)
    else EscapesOf(s[1..], d + 1)
  }

  lemma {:induction false} EscapesOnePerDollar(s: string, d: nat)
    ensures |EscapesOf(s, d)| == multiset(s)['$']
  {
    if s != "" {
      assert s == [s[0]] + s[1..];
      EscapesOnePerDollar(s[1..], if s[0] == '$' then d + 2 else d + 1);
    }
  }

  /** Escaping is undone by expansion, whatever the replacements. */
  lemma {:induction false} ExpandUndoesEscape(m: Replacements, s: string)
    ensures Expand(m, EscapeDollars(s)) == s
  {
    hide FindValidKeyFromIndex;
    if s != "" {
      ExpandUndoesEscape(m, s[1..]);
      var e := EscapeDollars(s);
      assert e[if s[0] == '$' then 2 else 1..] == EscapeDollars(s[1..]);
      assert s == [s[0]] + s[1..];
    }
  }

  /** The scanner finds nothing else in an escaped string: one escape for each original dollar. */
  lemma {:induction false} ScanOfEscaped(prefix: string, s: string)
    ensures Scan(prefix + EscapeDollars(s), |prefix|) == EscapesOf(s, |prefix|)
    decreases |s|
  {
    hide FindValidKeyFromIndex;
    var t := prefix + EscapeDollars(s);
    if s != "" {
      var head := if s[0] == '$' then "$$" else [s[0]];
      assert t == (prefix + head) + EscapeDollars(s[1..]);
      ScanOfEscaped(prefix + head, s[1..]);
      assert t[|prefix|] == s[0];
    }
  }

  // ----- what is left to expand

  lemma GapAtEnd(m: Replacements, s: string)
    requires Scan(s, 0) == [] && Gap(m, s, 0)
    ensures Expand(m, s[0..]) == s[0..]
  {
  }

  /** A second expansion changes nothing when no parameter is left. */
  lemma {:induction false} ExpandWithoutParameters(m: Replacements, s: string)
    requires Scan(s, 0) == []
    ensures Expand(m, s) == s
  {
    hide *;
    assert s[0..] == s;
    GapBeforeParameter(m, s, 0);
    GapAtEnd(m, s);
  }

  lemma {:induction false} DollarFreeHasNoParameters(s: string, i: nat)
    requires i <= |s| && '$' !in s[i..]
    ensures Scan(s, i) == []
    decreases |s| - i
  {
    if i < |s| {
      assert s[i] == s[i..][0];
      assert s[i..] == [s[i]] + s[i + 1..];
      DollarFreeHasNoParameters(s, i + 1);
    }
  }

  lemma ExpandDollarFree(m: Replacements, s: string)
    requires '$' !in s
    ensures Expand(m, s) == s
  {
  }

  /** From byte `i` on, every dollar of `s` begins a reference, and every reference has a
      dollar-free value. */
  ghost predicate Resolves(m: Replacements, s: string, i: nat) {
    && (forall p :: p in Scan(s, i) ==> !p.Escape && '$' !in Lookup(m, p.Key))
    && (forall k :: i <= k < |s| && s[k] == '$' ==> exists p :: p in Scan(s, i) && p.Start == k)
  }

  lemma ResolvesPastByte(m: Replacements, s: string, i: nat)
    requires i < |s| && TokenAt(s, i).None?
    ensures Resolves(m, s, i) <==> s[i] != '$' && Resolves(m, s, i + 1)
  {
    hide TokenAt, IsParameter, StartsNothing;
    ScanListsParameters(s, i + 1);
    assert Scan(s, i) == Scan(s, i + 1);
    hide Scan;
    assert forall p :: p in Scan(s, i + 1) ==> p.Start != i;
  }

  lemma InnerByte(s: string, p: TemplateParameter, k: nat)
    requires IsParameter(s, p) && !p.Escape && p.Start < k <= p.End
    ensures s[k] != '$'
  {
    var text := s[p.Start..p.End + 1];
    assert s[k] == text[k - p.Start];
  }

  lemma ResolvesPastParameter(m: Replacements, s: string, i: nat)
    requires i < |s| && TokenAt(s, i).Some?
    ensures var p := TokenAt(s, i).value;
            Resolves(m, s, i) <==> '$' !in ValueOf(m, p) && Resolves(m, s, p.End + 1)
  {
    hide TokenAt, IsParameter, StartsNothing;
    var p := TokenAt(s, i).value;
    TokenAtIsExact(s, i);
    ScanListsParameters(s, p.End + 1);
    assert Scan(s, i) == [p] + Scan(s, p.End + 1);
    hide Scan;
    if !p.Escape {
      forall k | i < k <= p.End ensures s[k] != '$' {
        InnerByte(s, p, k);
      }
      if Resolves(m, s, i) {
        forall k | p.End + 1 <= k < |s| && s[k] == '$'
          ensures exists q :: q in Scan(s, p.End + 1) && q.Start == k
        {
          var q :| q in Scan(s, i) && q.Start == k;
        }
      }
      if Resolves(m, s, p.End + 1) {
        assert p in Scan(s, i);
        forall k | i <= k < |s| && s[k] == '$' ensures exists q :: q in Scan(s, i) && q.Start == k {
          if k > p.End {
            var q :| q in Scan(s, p.End + 1) && q.Start == k;
          }
        }
      }
    } else {
      assert "$"[0] == '$';
    }
  }

  lemma NothingToResolve(m: Replacements, s: string)
    ensures Resolves(m, s, |s|)
  {
  }

  /** A result is free of dollars exactly when everything in the template resolved. */
  lemma {:induction false} DollarFreeIffResolves(m: Replacements, s: string, i: nat)
    requires i <= |s|
    ensures '$' !in Expand(m, s[i..]) <==> Resolves(m, s, i)
    decreases |s| - i
  {
    hide TokenAt, Expand, Resolves;
    if i == |s| {
      ExpandEmpty(m);
      assert s[i..] == "";
      assert Resolves(m, s, i) by { NothingToResolve(m, s); }
    } else {
      ExpandAt(m, s, i);
      if TokenAt(s, i).None? {
        ResolvesPastByte(m, s, i);
        DollarFreeIffResolves(m, s, i + 1);
      } else {
        ResolvesPastParameter(m, s, i);
        DollarFreeIffResolves(m, s, TokenAt(s, i).value.End + 1);
      }
    }
  }

  // ----- the length of an expansion

  /** How many bytes longer the values of the parameters are than the parameters. */
  function Growth(m: Replacements, ps: seq<TemplateParameter>): int {
    if ps == [] then 0 else |ValueOf(m, ps[0])| - (ps[0].End + 1 - ps[0].Start) + Growth(m, ps[1..])
  }

  function ExpandedLength(m: Replacements, s: string): int {
    |s| + Growth(m, Scan(s, 0))
  }

  lemma {:induction false} ExpandLength(m: Replacements, s: string, i: nat)
    requires i <= |s|
    ensures |Expand(m, s[i..])| == |s| - i + Growth(m, Scan(s, i))
    decreases |s| - i
  {
    hide TokenAt, Expand, ValueOf;
    if i == |s| {
      ExpandEmpty(m);
      assert s[i..] == "";
    } else {
      ExpandAt(m, s, i);
      if TokenAt(s, i).None? {
        ExpandLength(m, s, i + 1);
      } else {
        var p := TokenAt(s, i).value;
        assert Scan(s, i) == [p] + Scan(s, p.End + 1);
        ExpandLength(m, s, p.End + 1);
      }
    }
  }

  /** The length of an expansion can be read off the parameter list. */
  lemma LengthOfExpansion(m: Replacements, s: string)
    ensures |Expand(m, s)| == ExpandedLength(m, s)
  {
    hide Expand, Scan, Growth;
    assert s[0..] == s;
    ExpandLength(m, s, 0);
  }

  // ----- which entries an expansion depends on

  predicate Extends(n: Replacements, m: Replacements) {
    forall key :: key in m ==> key in n && n[key] == m[key]
  }

  /** Every parameter is an escape or bound. */
  predicate Bound(m: Replacements, s: string) {
    forall p :: p in Scan(s, 0) ==> p.Escape || p.Key in m
  }

  lemma {:induction false} ExpandAgrees(m: Replacements, n: Replacements, s: string, i: nat)
    requires i <= |s| && forall p :: p in Scan(s, i) ==> ValueOf(m, p) == ValueOf(n, p)
    ensures Expand(m, s[i..]) == Expand(n, s[i..])
    decreases |s| - i
  {
    hide TokenAt, Expand, ValueOf;
    if i == |s| {
      ExpandEmpty(m);
      ExpandEmpty(n);
      assert s[i..] == "";
    } else {
      ExpandAt(m, s, i);
      ExpandAt(n, s, i);
      if TokenAt(s, i).None? {
        ExpandAgrees(m, n, s, i + 1);
      } else {
        var p := TokenAt(s, i).value;
        assert Scan(s, i) == [p] + Scan(s, p.End + 1);
        assert p in Scan(s, i);
        ExpandAgrees(m, n, s, p.End + 1);
      }
    }
  }

  lemma {:induction false} GrowthGrows(m: Replacements, n: Replacements, ps: seq<TemplateParameter>)
    requires forall p :: p in ps ==> |ValueOf(m, p)| <= |ValueOf(n, p)|
    ensures Growth(m, ps) <= Growth(n, ps)
    ensures (exists p :: p in ps && |ValueOf(m, p)| < |ValueOf(n, p)|) ==> Growth(m, ps) < Growth(n, ps)
  {
    hide ValueOf;
    if ps != [] {
      GrowthGrows(m, n, ps[1..]);
    }
  }

  lemma UnboundMatters(m: Replacements, s: string, p: TemplateParameter)
    requires p in Scan(s, 0) && !p.Escape && p.Key !in m
    ensures Extends(m[p.Key := "x"], m) && Expand(m[p.Key := "x"], s) != Expand(m, s)
  {
    hide Expand, Scan;
    var n := m[p.Key := "x"];
    GrowthGrows(m, n, Scan(s, 0));
    assert |ValueOf(m, p)| < |ValueOf(n, p)|;
    LengthOfExpansion(m, s);
    LengthOfExpansion(n, s);
  }

  /** No missing key was replaced by the empty string if and only if no further binding makes a
      difference. */
  lemma BoundIff(m: Replacements, s: string)
    ensures Bound(m, s) <==> forall n :: Extends(n, m) ==> Expand(n, s) == Expand(m, s)
  {
    hide Expand, Scan;
    assert s[0..] == s;
    if Bound(m, s) {
      forall n | Extends(n, m) ensures Expand(n, s) == Expand(m, s) {
        ExpandAgrees(n, m, s, 0);
      }
    } else {
      var p :| p in Scan(s, 0) && !p.Escape && p.Key !in m;
      UnboundMatters(m, s, p);
    }
  }

  // ----- expansions that meet

  lemma CancelAround(a: string, x: string, y: string, b: string)
    ensures a + (x + b) == a + (y + b) <==> x == y
  {
    var s, t := a + (x + b), a + (y + b);
    if s == t {
      assert x == s[|a|..|a| + |x|];
      assert y == t[|a|..|a| + |y|];
    }
  }

  /** Two templates that share what stands before and after expand alike if and only if what stands
      between does. */
  lemma ExpansionsMeetIff(m: Replacements, a: string, x: string, y: string, b: string)
    requires CutsNothing(Scan(a + (x + b), 0), |a|) && CutsNothing(Scan(x + b, 0), |x|)
    requires CutsNothing(Scan(a + (y + b), 0), |a|) && CutsNothing(Scan(y + b, 0), |y|)
    ensures Expand(m, a + (x + b)) == Expand(m, a + (y + b)) <==> Expand(m, x) == Expand(m, y)
  {
    hide Expand, Scan, CutsNothing;
    ExpandAppend(m, a, x + b);
    ExpandAppend(m, x, b);
    ExpandAppend(m, a, y + b);
    ExpandAppend(m, y, b);
    CancelAround(Expand(m, a), Expand(m, x), Expand(m, y), Expand(m, b));
  }

  ghost predicate DifferInTextAt(p: string, q: string, n: nat) {
    && n < |p| && n < |q| && p[..n] == q[..n]
    && p[n] != q[n] && p[n] != '$' && q[n] != '$'
    && CutsNothing(Scan(p, 0), n) && CutsNothing(Scan(q, 0), n)
  }

  /** The templates agree up to a byte, which lies in no parameter and begins none, and differ there. */
  ghost predicate DifferInText(p: string, q: string) {
    exists n: nat :: DifferInTextAt(p, q, n)
  }

  lemma NothingBeforeDollars(s: string, n: nat)
    requires n <= |s| && '$' !in s[..n]
    ensures CutsNothing(Scan(s, 0), n)
  {
    ScanListsParameters(s, 0);
    assert forall k :: 0 <= k < n ==> s[k] == s[..n][k];
    forall p | p in Scan(s, 0) ensures p.Start < |s| && s[p.Start] == '$' {
      assert IsParameter(s, p);
      assert s[p.Start] == s[p.Start..p.End + 1][0];
    }
    hide Scan, IsParameter, StartsNothing;
  }

  /** In particular, templates that first differ before any dollar. */
  lemma DifferBeforeDollars(p: string, q: string, n: nat)
    requires n < |p| && n < |q| && p[..n] == q[..n] && p[n] != q[n]
    requires '$' !in p[..n + 1] && '$' !in q[..n + 1]
    ensures DifferInText(p, q)
  {
    hide Scan, CutsNothing;
    assert forall k :: 0 <= k <= n ==> p[k] == p[..n + 1][k] && q[k] == q[..n + 1][k];
    assert p[..n] == p[..n + 1][..n];
    NothingBeforeDollars(p, n);
    NothingBeforeDollars(q, n);
    assert DifferInTextAt(p, q, n);
  }

  lemma SplitAtText(m: Replacements, p: string, n: nat)
    requires n < |p| && p[n] != '$' && CutsNothing(Scan(p, 0), n)
    ensures Expand(m, p) == Expand(m, p[..n]) + ([p[n]] + Expand(m, p[n + 1..]))
  {
    hide Expand, Scan, CutsNothing;
    assert p[0..] == p && p[0..n] == p[..n] && p[n..][1..] == p[n + 1..];
    ExpandSplitAt(m, p, 0, n);
    PlainByte(m, p[n..]);
  }

  /** Such templates never expand alike. */
  lemma TextKeepsApart(m: Replacements, p: string, q: string)
    requires DifferInText(p, q)
    ensures Expand(m, p) != Expand(m, q)
  {
    hide Expand, Scan, CutsNothing;
    var n: nat :| DifferInTextAt(p, q, n);
    SplitAtText(m, p, n);
    SplitAtText(m, q, n);
    var front := Expand(m, p[..n]);
    assert Expand(m, p)[|front|] == p[n] && Expand(m, q)[|front|] == q[n];
  }

  /** Templates that agree but for one parameter each, at the same place. */
  ghost predicate DifferInOneParameter(p: string, q: string, a: TemplateParameter, b: TemplateParameter) {
    && a in Scan(p, 0) && b in Scan(q, 0) && a.Start == b.Start <= a.End < |p| && b.Start <= b.End < |q|
    && p[..a.Start] == q[..b.Start] && p[a.End + 1..] == q[b.End + 1..]
  }

  lemma ParameterIsNotCut(s: string, p: TemplateParameter)
    requires p in Scan(s, 0)
    ensures p.Start <= p.End < |s| && TokenAt(s, p.Start) == Some(p) && CutsNothing(Scan(s, 0), p.Start)
  {
    hide TokenAt;
    ScanListsParameters(s, 0);
    var ps := Scan(s, 0);
    var k :| 0 <= k < |ps| && ps[k] == p;
    assert IsParameter(s, p);
    ParameterIsTokenAt(s, p);
    assert p.Start <= p.End < |s|;
    hide Scan, IsParameter, StartsNothing;
    forall q | q in ps ensures !(q.Start < p.Start <= q.End) {
      var j :| 0 <= j < |ps| && ps[j] == q;
      assert j < k || j == k || k < j;
    }
  }

  lemma SplitAtParameter(m: Replacements, s: string, p: TemplateParameter)
    requires p in Scan(s, 0)
    ensures p.Start <= p.End < |s|
    ensures Expand(m, s) == Expand(m, s[..p.Start]) + (ValueOf(m, p) + Expand(m, s[p.End + 1..]))
  {
    ParameterIsNotCut(s, p);
    hide Expand, Scan, CutsNothing, TokenAt, ValueOf;
    assert s[0..] == s && s[0..p.Start] == s[..p.Start];
    ExpandSplitAt(m, s, 0, p.Start);
    ExpandAt(m, s, p.Start);
  }

  /** They expand alike if and only if the parameters have the same value. */
  lemma OneParameterKeepsApartIff(m: Replacements, p: string, q: string, a: TemplateParameter, b: TemplateParameter)
    requires DifferInOneParameter(p, q, a, b)
    ensures Expand(m, p) == Expand(m, q) <==> ValueOf(m, a) == ValueOf(m, b)
  {
    hide Expand, Scan, ValueOf;
    SplitAtParameter(m, p, a);
    SplitAtParameter(m, q, b);
    CancelAround(Expand(m, p[..a.Start]), ValueOf(m, a), ValueOf(m, b), Expand(m, p[a.End + 1..]));
  }

  // ----- a reference at the beginning

  lemma KeyRunOfKey(key: string, rest: string)
    requires IsKey(key) && (rest == "" || !IsKeyChar(rest[0]))
    ensures KeyRun(key + rest) == |key|
  {
    var s := key + rest;
    assert forall j :: 0 <= j < |key| ==> s[j] == key[j];
    assert rest != "" ==> s[|key|] == rest[0];
    hide KeyRun;
  }

  lemma FirstOfKey(key: string)
    requires IsKey(key)
    ensures |key| > 0 && IsKeyStart(key[0])
  {
  }

  lemma ReferenceIsToken(key: string, rest: string)
    requires IsKey(key) && (rest == "" || !IsKeyChar(rest[0]))
    ensures TokenAt("$" + key + rest, 0) == Some(TemplateParameter(0, |key|, key, false))
  {
    var s := "$" + key + rest;
    KeyRunOfKey(key, rest);
    hide KeyRun, IsKey;
    assert s[0..] == s && s[1..] == key + rest && s[1..1 + |key|] == key;
    assert s[1] == key[0] && IsKeyStart(s[1]) by { FirstOfKey(key); }
    assert s[1] != '$' && s[1] != '{';
  }

  /** An unbraced reference that the next byte does not continue. */
  lemma ReferenceFirst(m: Replacements, key: string, rest: string)
    requires IsKey(key) && (rest == "" || !IsKeyChar(rest[0]))
    ensures var s := "$" + key + rest;
            && Expand(m, s) == Lookup(m, key) + Expand(m, rest)
            && Scan(s, 0) == [TemplateParameter(0, |key|, key, false)] + Scan(s, |key| + 1)
  {
    hide TokenAt, Expand, IsKey, IsKeyChar;
    var s := "$" + key + rest;
    ReferenceIsToken(key, rest);
    ExpandAt(m, s, 0);
    assert s[0..] == s && s[|key| + 1..] == rest;
  }

  // ----- references, letter by letter

  const LETTERS := "ABCDEFGHIJKLMNOPQRSTUVWXYZ_"
  const DIGITS := "0123456789"

  /** `[A-Z_][A-Z0-9_]*`, with the alphabet written out. */
  predicate Spells(key: string) {
    key != "" && key[0] in LETTERS && forall c :: c in key ==> c in LETTERS || c in DIGITS
  }

  lemma KeyAlphabet(c: char)
    ensures IsKeyStart(c) <==> c in LETTERS
    ensures IsKeyChar(c) <==> c in LETTERS || c in DIGITS
  {
  }

  lemma SpellsIsKey(key: string)
    ensures Spells(key) <==> IsKey(key)
  {
    hide IsKeyStart, IsKeyChar;
    if key != "" {
      KeyAlphabet(key[0]);
    }
    forall c | c in key ensures IsKeyChar(c) <==> c in LETTERS || c in DIGITS {
      KeyAlphabet(c);
    }
  }

  lemma BracedIsToken(key: string, rest: string)
    requires IsKey(key)
    ensures TokenAt("${" + key + "}" + rest, 0) == Some(TemplateParameter(0, |key| + 2, key, false))
  {
    var s := "${" + key + "}" + rest;
    KeyRunOfKey(key, "}" + rest);
    hide KeyRun, IsKey;
    assert s[0..] == s && s[2..] == key + ("}" + rest) && s[2..2 + |key|] == key && s[2 + |key|] == '}';
    assert s[2] == key[0] && IsKeyStart(s[2]) by { FirstOfKey(key); }
    assert s[1] == '{';
  }

  lemma BracedFirst(m: Replacements, key: string, rest: string)
    requires IsKey(key)
    ensures Expand(m, "${" + key + "}" + rest) == Lookup(m, key) + Expand(m, rest)
  {
    hide TokenAt, Expand, IsKey, IsKeyChar;
    var s := "${" + key + "}" + rest;
    BracedIsToken(key, rest);
    ExpandAt(m, s, 0);
    assert s[0..] == s && s[|key| + 3..] == rest;
  }

  /** What is replaced: a dollar and a key, in braces or up to the first byte that cannot continue it. */
  lemma ReferenceIsLookedUp(m: Replacements, key: string, rest: string)
    requires Spells(key)
    ensures Expand(m, "${" + key + "}" + rest) == Lookup(m, key) + Expand(m, rest)
    ensures rest == "" || (rest[0] !in LETTERS && rest[0] !in DIGITS) ==>
              Expand(m, "$" + key + rest) == Lookup(m, key) + Expand(m, rest)
  {
    SpellsIsKey(key);
    hide Expand, IsKey, Spells, IsKeyChar;
    BracedFirst(m, key, rest);
    if rest == "" || (rest[0] !in LETTERS && rest[0] !in DIGITS) {
      if rest != "" {
        KeyAlphabet(rest[0]);
      }
      ReferenceFirst(m, key, rest);
    }
  }

  lemma BraceWithoutKey(rest: string)
    requires rest != "" && rest[0] == '{'
    requires forall n :: 1 <= n < |rest| && rest[n] == '}' ==> !Spells(rest[1..n])
    ensures FindValidKeyFromIndex("$" + rest, 0).None?
  {
    hide Spells;
    var s := "$" + rest;
    assert s[0..] == s && s[2..] == rest[1..];
    var n := KeyRun(rest[1..]);
    if n > 0 && IsKeyStart(rest[1]) && 1 + n < |rest| && rest[1 + n] == '}' {
      assert forall j :: 0 <= j < n ==> rest[1..1 + n][j] == rest[1..][j];
      SpellsIsKey(rest[1..1 + n]);
      assert false;
    }
  }

  /** What is not: a last dollar, one before a byte that begins neither an escape nor a key, and one
      before a brace that does not enclose a key. */
  lemma OtherDollarIsCopied(m: Replacements, rest: string)
    requires rest == "" || (rest[0] != '$' && rest[0] != '{' && rest[0] !in LETTERS)
             || (rest[0] == '{' && forall n :: 1 <= n < |rest| && rest[n] == '}' ==> !Spells(rest[1..n]))
    ensures Expand(m, "$" + rest) == "$" + Expand(m, rest)
  {
    var s := "$" + rest;
    assert s[0..] == s && s[1..] == rest;
    if rest != "" {
      KeyAlphabet(rest[0]);
      if rest[0] == '{' {
        BraceWithoutKey(rest);
      }
    }
    assert TokenAt(s, 0).None?;
    hide TokenAt, Expand;
    ExpandAt(m, s, 0);
  }
}
