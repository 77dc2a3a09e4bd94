/** Template scanning and expansion (subst/subst.go).
    The scanner reports byte positions and the splicer copies slices between them; `Expand` is the
    one-pass rewrite the two are meant to compute together. */
module Templates {
  import opened GoStrings

  /** A parameter occupies the bytes Start..End of its input, both included. */
  datatype TemplateParameter = TemplateParameter(Start: nat, End: nat, Key: string, Escape: bool)

  predicate IsKeyStart(c: char) {
    'A' <= c <= 'Z' || c == '_'
  }

  predicate IsKeyChar(c: char) {
    IsKeyStart(c) || '0' <= c <= '9'
  }

  /** The language of `[A-Z_][A-Z0-9_]*`. */
  predicate IsKey(key: string) {
    |key| > 0 && IsKeyStart(key[0]) && forall j :: 0 <= j < |key| ==> IsKeyChar(key[j])
  }

  /** `text` is a reference to `key`, braced or not. */
  predicate Refers(text: string, key: string) {
    IsKey(key) && (text == "$" + key || text == "${" + key + "}")
  }

  /** The length of the longest prefix made of key characters. */
  function KeyRun(s: string): (n: nat)
    ensures n <= |s|
    ensures forall j :: 0 <= j < n ==> IsKeyChar(s[j])
    ensures n < |s| ==> !IsKeyChar(s[n])
  {
    if s == "" || !IsKeyChar(s[0]) then 0 else 1 + KeyRun(s[1..])
  }

  /** The regular expression matched at index `i`: the braced form is tried first, both are greedy. */
  function FindValidKeyFromIndex(input: string, i: nat): (p: Option<TemplateParameter>)
    requires i <= |input|
    ensures p.Some? ==> p.value.Start == i < p.value.End < |input|
  {
    var s := input[i..];
    if |s| < 2 || s[0] != '$' then None
    else if s[1] == '{' then
      var n := KeyRun(s[2..]);
      if n > 0 && IsKeyStart(s[2]) && 2 + n < |s| && s[2 + n] == '}'
      then Some(TemplateParameter(i, i + 2 + n, s[2..2 + n], false))
      else None
    else if IsKeyStart(s[1]) then
      var n := KeyRun(s[1..]);
      Some(TemplateParameter(i, i + n, s[1..1 + n], false))
    else None
  }

  /** The parameter that starts at index `i`, if one does. */
  function TokenAt(input: string, i: nat): (p: Option<TemplateParameter>)
    requires i < |input|
    ensures p.Some? ==> p.value.Start == i < p.value.End < |input|
  {
    if input[i] != '$' then None
    else if i + 1 < |input| && input[i + 1] == '$' then Some(TemplateParameter(i, i + 1, "", true))
    else FindValidKeyFromIndex(input, i)
  }

  /** The parameters of `input` from index `i` on. */
  function Scan(input: string, i: nat): (ps: seq<TemplateParameter>)
    decreases |input| - i
  {
    if i >= |input| then []
    else match TokenAt(input, i)
      case Some(p) => [p] + Scan(input, p.End + 1)
      case None => Scan(input, i + 1)
  }

  method FindTemplateParameters(input: string) returns (parameters: seq<TemplateParameter>)
    ensures parameters == Scan(input, 0)
  {
    hide FindValidKeyFromIndex;
    parameters := [];
    var i := 0;
    while i < |input|
      invariant parameters + Scan(input, i) == Scan(input, 0)
    {
      if input[i] == '$' && i < |input| - 1 && input[i + 1] == '$' {
        var p := TemplateParameter(i, i + 1, "", true);
        Reassociate(parameters, [p], Scan(input, i + 2));
        parameters := parameters + [p];
        i := i + 2;
        continue;
      }
      if input[i] == '$' {
        var p := FindValidKeyFromIndex(input, i);
        if p.Some? {
          Reassociate(parameters, [p.value], Scan(input, p.value.End + 1));
          parameters := parameters + [p.value];
          i := p.value.End;
        }
      }
      i := i + 1;
    }
  }

  // ----- the meaning of a template

  type Replacements = map<string, string>

  /** An unbound key stands for the empty string. */
  function Lookup(m: Replacements, key: string): string {
    if key in m then m[key] else ""
  }

  /** What a parameter is replaced by. */
  function ValueOf(m: Replacements, p: TemplateParameter): string {
    if p.Escape then "$" else Lookup(m, p.Key)
  }

  /** The one-pass rewrite: consume a token or a byte, emit its replacement, go on with the rest. */
  function Expand(m: Replacements, s: string): string
    decreases |s|
  {
    if s == "" then ""
    else match TokenAt(s, 0)
      case Some(p) => ValueOf(m, p) + Expand(m, s[p.End + 1..])
      case None => [s[0]] + Expand(m, s[1..])
  }

  function ShiftOne(p: TemplateParameter, d: nat): TemplateParameter {
    p.(Start := p.Start + d, End := p.End + d)
  }

  /** Tokens are found at the same places when a scanned prefix is dropped. */
  lemma TokenAtShift(s: string, i: nat, k: nat)
    requires i + k < |s|
    ensures TokenAt(s, i + k).None? <==> TokenAt(s[i..], k).None?
    ensures TokenAt(s, i + k).Some? ==>
              TokenAt(s, i + k).value == ShiftOne(TokenAt(s[i..], k).value, i)
  {
    assert s[i..][k..] == s[i + k..];
  }

  /** One step of the rewrite, by index. */
  lemma ExpandAt(m: Replacements, s: string, i: nat)
    requires i < |s|
    ensures TokenAt(s, i).None? ==> Expand(m, s[i..]) == [s[i]] + Expand(m, s[i + 1..])
    ensures TokenAt(s, i).Some? ==>
              var p := TokenAt(s, i).value;
              Expand(m, s[i..]) == ValueOf(m, p) + Expand(m, s[p.End + 1..])
  {
    hide TokenAt, FindValidKeyFromIndex;
    TokenAtShift(s, i, 0);
    var t := TokenAt(s[i..], 0);
    if t.None? {
      assert s[i..][1..] == s[i + 1..];
    } else {
      assert s[i..][t.value.End + 1..] == s[i + t.value.End + 1..];
    }
  }

  /** What the splicer needs of the next parameter: between index `i` and it the text is copied, all
      slice bounds are valid, and when no parameter is left the whole rest is copied. */
  ghost predicate Gap(m: Replacements, s: string, i: nat)
    requires i <= |s|
  {
    var ps := Scan(s, i);
    if ps == [] then Expand(m, s[i..]) == s[i..]
    else
      && i <= ps[0].Start <= ps[0].End < |s|
      && ps[1..] == Scan(s, ps[0].End + 1)
      && Expand(m, s[i..]) == s[i..ps[0].Start] + (ValueOf(m, ps[0]) + Expand(m, s[ps[0].End + 1..]))
  }

  lemma GapGrows(m: Replacements, s: string, i: nat)
    requires i < |s| && TokenAt(s, i).None? && Gap(m, s, i + 1)
    requires Expand(m, s[i..]) == [s[i]] + Expand(m, s[i + 1..])
    ensures Gap(m, s, i)
  {
    hide TokenAt, FindValidKeyFromIndex, Expand, ValueOf;
    assert s[i..] == [s[i]] + s[i + 1..];
    var ps := Scan(s, i);
    assert ps == Scan(s, i + 1);
    hide Scan;
    if ps != [] {
      var p := ps[0];
      var tail := ValueOf(m, p) + Expand(m, s[p.End + 1..]);
      assert s[i..p.Start] == [s[i]] + s[i + 1..p.Start];
      assert [s[i]] + (s[i + 1..p.Start] + tail) == ([s[i]] + s[i + 1..p.Start]) + tail;
    }
  }

  lemma {:induction false} GapBeforeParameter(m: Replacements, s: string, i: nat)
    requires i <= |s|
    ensures Gap(m, s, i)
    decreases |s| - i
  {
    hide TokenAt, FindValidKeyFromIndex;
    if i < |s| {
      ExpandAt(m, s, i);
      if TokenAt(s, i).Some? {
        assert s[i..i] == "";
      } else {
        GapBeforeParameter(m, s, i + 1);
        GapGrows(m, s, i);
      }
    }
  }

  method ApplyReplacements(replacements: Replacements, input: string) returns (out: string)
    ensures out == Expand(replacements, input)
  {
    hide TokenAt, FindValidKeyFromIndex, Expand, Scan;
    var parameters := FindTemplateParameters(input);
    out := "";
    var lastEnd := -1;
    assert input[0..] == input && parameters[0..] == parameters;
    for j := 0 to |parameters|
      invariant -1 <= lastEnd < |input|
      invariant parameters[j..] == Scan(input, lastEnd + 1)
      invariant out + Expand(replacements, input[lastEnd + 1..]) == Expand(replacements, input)
    {
      var p := parameters[j];
      assert parameters[j..][0] == p && parameters[j..][1..] == parameters[j + 1..];
      GapBeforeParameter(replacements, input, lastEnd + 1);
      ghost var before := out;
      out := out + input[lastEnd + 1..p.Start];
      var val := if p.Key in replacements then replacements[p.Key] else "";
      if p.Escape {
        val := "$";
      }
      out := out + val;
      ghost var rest := Expand(replacements, input[p.End + 1..]);
      Reassociate(before + input[lastEnd + 1..p.Start], val, rest);
      Reassociate(before, input[lastEnd + 1..p.Start], val + rest);
      lastEnd := p.End;
    }
    GapBeforeParameter(replacements, input, lastEnd + 1);
    out := out + input[lastEnd + 1..];
  }
}
