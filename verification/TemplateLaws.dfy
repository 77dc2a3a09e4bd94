/** What the scanner of subst/subst.go finds, stated without the scanner: which byte ranges are
    parameters, and that the list returned is the only one with that description. */
module TemplateLaws {
  import opened GoStrings
  import opened Templates

  // ----- the regular expression

  /** The bytes Start..End are `$$`, or a reference to Key that no longer prefix extends. */
  ghost predicate IsParameter(s: string, p: TemplateParameter) {
    && p.Start <= p.End < |s|
    && if p.Escape then p.Key == "" && s[p.Start..p.End + 1] == "$$"
       else
         && Refers(s[p.Start..p.End + 1], p.Key)
         && forall e, key :: p.End + 1 < e <= |s| ==> !Refers(s[p.Start..e], key)
  }

  /** Neither an escape nor a reference starts at `i`. */
  ghost predicate StartsNothing(s: string, i: nat)
    requires i <= |s|
  {
    && !HasPrefix(s[i..], "$$")
    && forall e, key :: i <= e <= |s| ==> !Refers(s[i..e], key)
  }

  /** The unbraced reading of the first `n` bytes of `w`. */
  predicate Unbraced(w: string, n: nat, key: string)
    requires n <= |w|
  {
    && 2 <= n && w[0] == '$' && IsKeyStart(w[1])
    && n <= 1 + KeyRun(w[1..]) && key == w[1..n]
  }

  /** The braced reading of the first `n` bytes of `w`. */
  predicate Braced(w: string, n: nat, key: string)
    requires n <= |w|
  {
    && 3 <= n && w[0] == '$' && w[1] == '{' && IsKeyStart(w[2])
    && var run := KeyRun(w[2..]);
    && n == run + 3 && w[run + 2] == '}' && key == w[2..run + 2]
  }

  lemma UnbracedRefers(w: string, n: nat, key: string)
    requires n <= |w|
    ensures IsKey(key) && w[..n] == "$" + key <==> Unbraced(w, n, key)
  {
  }

  lemma BracedRefers(w: string, n: nat, key: string)
    requires n <= |w|
    ensures IsKey(key) && w[..n] == "${" + key + "}" <==> Braced(w, n, key)
  {
    if Braced(w, n, key) {
      assert w[..n] == [w[0], w[1]] + w[2..n - 1] + [w[n - 1]];
      assert forall j :: 0 <= j < |key| ==> key[j] == w[2..][j];
    }
    if IsKey(key) && w[..n] == "${" + key + "}" {
      var t := "${" + key + "}";
      assert |t| == n && t[0] == '$' && t[1] == '{' && t[n - 1] == '}';
      assert forall j :: 0 <= j < |key| ==> w[2..][j] == t[j + 2] == key[j];
      assert w[0] == w[..n][0] && w[1] == w[..n][1] && w[n - 1] == w[..n][n - 1];
      assert w[2..][|key|] == '}';
      assert key == w[2..n - 1];
    }
  }

  /** Which prefixes of `w` are references, and to what. */
  lemma RefersPrefix(w: string, n: nat, key: string)
    requires n <= |w|
    ensures Refers(w[..n], key) <==> Unbraced(w, n, key) || Braced(w, n, key)
  {
    UnbracedRefers(w, n, key);
    BracedRefers(w, n, key);
  }

  /** The match at `i` is the longest reference that starts there, and there is none if it fails. */
  lemma FindValidKeyIsLongestMatch(s: string, i: nat)
    requires i <= |s|
    ensures var p := FindValidKeyFromIndex(s, i);
            match p
            case None => forall n, key :: 0 <= n <= |s| - i ==> !Refers(s[i..][..n], key)
            case Some(p) =>
              && Refers(s[i..][..p.End + 1 - i], p.Key)
              && !p.Escape
              && forall n, key :: p.End + 1 - i < n <= |s| - i ==> !Refers(s[i..][..n], key)
  {
    var w := s[i..];
    var p := FindValidKeyFromIndex(s, i);
    forall n: nat, key | n <= |w| && (p.None? || p.value.End + 1 - i < n)
      ensures !Refers(w[..n], key)
    {
      RefersPrefix(w, n, key);
    }
    if p.Some? {
      RefersPrefix(w, p.value.End + 1 - i, p.value.Key);
    }
  }

  lemma TokenAtIsExact(s: string, i: nat)
    requires i < |s|
    ensures TokenAt(s, i).None? <==> StartsNothing(s, i)
    ensures TokenAt(s, i).Some? ==> IsParameter(s, TokenAt(s, i).value)
  {
    hide FindValidKeyFromIndex;
    FindValidKeyIsLongestMatch(s, i);
    var t := TokenAt(s, i);
    assert forall e :: i <= e <= |s| ==> s[i..e] == s[i..][..e - i];
    var w := s[i..];
    assert HasPrefix(w, "$$") <==> |w| >= 2 && w[0] == '$' && w[1] == '$' by {
      assert |w| >= 2 ==> w[..2] == [w[0], w[1]];
    }
    if t.Some? {
      assert !t.value.Escape ==> Refers(s[i..t.value.End + 1], t.value.Key);
    } else if s[i] != '$' {
      forall e, key | i <= e <= |s| ensures !Refers(s[i..e], key) {
        assert e > i ==> s[i..e][0] != '$';
      }
    }
  }

  /** The second byte tells an escape from a reference. */
  lemma SecondByte(s: string, p: TemplateParameter)
    requires IsParameter(s, p)
    ensures var text := s[p.Start..p.End + 1]; |text| >= 2 && (text[1] == '$' <==> p.Escape)
  {
  }

  lemma NotLonger(s: string, p: TemplateParameter, q: TemplateParameter)
    requires IsParameter(s, p) && !p.Escape && p.Start == q.Start <= q.End < |s|
    requires Refers(s[p.Start..q.End + 1], q.Key)
    ensures q.End <= p.End
  {
  }

  lemma RefersOneKey(text: string, key: string, key': string)
    requires Refers(text, key) && Refers(text, key')
    ensures key == key'
  {
    var n := |text|;
    assert text[..n] == text;
    RefersPrefix(text, n, key);
    RefersPrefix(text, n, key');
  }

  lemma SameParameter(s: string, p: TemplateParameter, q: TemplateParameter)
    requires IsParameter(s, p) && IsParameter(s, q) && p.Start == q.Start
    ensures p == q
  {
    var t, u := s[p.Start..p.End + 1], s[q.Start..q.End + 1];
    SecondByte(s, p);
    SecondByte(s, q);
    assert t[1] == u[1];
    if !p.Escape && !q.Escape {
      NotLonger(s, p, q);
      NotLonger(s, q, p);
      RefersOneKey(t, p.Key, q.Key);
    }
  }

  /** Two parameters that start at the same byte are the same parameter. */
  lemma ParameterIsTokenAt(s: string, p: TemplateParameter)
    requires IsParameter(s, p)
    ensures TokenAt(s, p.Start) == Some(p)
  {
    hide FindValidKeyFromIndex, TokenAt;
    TokenAtIsExact(s, p.Start);
    var text := s[p.Start..p.End + 1];
    assert p.Escape ==> s[p.Start..][..2] == text;
    SameParameter(s, p, TokenAt(s, p.Start).value);
  }

  // ----- the parameter list

  ghost predicate Covered(ps: seq<TemplateParameter>, i: nat) {
    exists k :: 0 <= k < |ps| && ps[k].Start <= i <= ps[k].End
  }

  /** `ps` lists the parameters of `s` from byte `lo` on: in order, disjoint, in bounds, each one a
      parameter, and no byte outside them starts an escape or a reference. */
  ghost predicate ListsParameters(s: string, lo: nat, ps: seq<TemplateParameter>) {
    && (forall k :: 0 <= k < |ps| ==> lo <= ps[k].Start && IsParameter(s, ps[k]))
    && (forall j, k :: 0 <= j < k < |ps| ==> ps[j].End < ps[k].Start)
    && (forall i :: lo <= i < |s| && !Covered(ps, i) ==> StartsNothing(s, i))
  }

  lemma PrependParameter(s: string, p: TemplateParameter, rest: seq<TemplateParameter>)
    requires IsParameter(s, p) && ListsParameters(s, p.End + 1, rest)
    ensures ListsParameters(s, p.Start, [p] + rest)
  {
    hide IsParameter, StartsNothing;
    var ps := [p] + rest;
    assert p.Start <= p.End by { ParameterIsTokenAt(s, p); }
    forall i | p.Start <= i < |s| && !Covered(ps, i) ensures StartsNothing(s, i) {
      assert ps[0] == p;
      assert forall k :: 0 <= k < |rest| ==> ps[k + 1] == rest[k];
    }
  }

  lemma {:induction false} ScanListsParameters(s: string, lo: nat)
    ensures ListsParameters(s, lo, Scan(s, lo))
    decreases |s| - lo
  {
    hide TokenAt, IsParameter, StartsNothing;
    if lo < |s| {
      TokenAtIsExact(s, lo);
      if TokenAt(s, lo).Some? {
        var p := TokenAt(s, lo).value;
        ScanListsParameters(s, p.End + 1);
        PrependParameter(s, p, Scan(s, p.End + 1));
      } else {
        ScanListsParameters(s, lo + 1);
      }
    }
  }

  /** A list that starts at `lo` and does not begin with a parameter at `lo` also starts at `lo + 1`. */
  lemma DropFirst(s: string, lo: nat, ps: seq<TemplateParameter>)
    requires lo < |s| && ListsParameters(s, lo, ps)
    ensures StartsNothing(s, lo) ==> ListsParameters(s, lo + 1, ps)
    ensures !StartsNothing(s, lo) ==>
              ps != [] && ps[0].Start == lo && ListsParameters(s, ps[0].End + 1, ps[1..])
  {
  }

  /** The scanner's result is the only list with that description. */
  lemma {:induction false} ParameterListIsUnique(s: string, lo: nat, ps: seq<TemplateParameter>)
    ensures ListsParameters(s, lo, ps) <==> ps == Scan(s, lo)
    decreases |s| - lo
  {
    hide TokenAt, StartsNothing;
    ScanListsParameters(s, lo);
    if ListsParameters(s, lo, ps) {
      if lo < |s| {
        DropFirst(s, lo, ps);
        TokenAtIsExact(s, lo);
        if StartsNothing(s, lo) {
          ParameterListIsUnique(s, lo + 1, ps);
        } else {
          ParameterIsTokenAt(s, ps[0]);
          ParameterListIsUnique(s, ps[0].End + 1, ps[1..]);
          assert ps == [ps[0]] + ps[1..];
        }
      }
    }
  }
}
