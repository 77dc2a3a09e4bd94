/** The --substitutions flag (common/common.go, ParseSubstitutionsFlag). `trim` is strings.TrimSpace. */
module Flags {
  import opened GoStrings

  type Pair = (string, string)

  /** `strings.Split(s, string(sep))`: always at least one part. */
  function Split(s: string, sep: char): (parts: seq<string>)
    ensures |parts| > 0
    decreases |s|
  {
    var n := IndexOf(s, sep);
    if n == |s| then [s] else [s[..n]] + Split(s[n + 1..], sep)
  }

  function Join(parts: seq<string>, sep: char): string
    requires |parts| > 0
  {
    if |parts| == 1 then parts[0] else parts[0] + [sep] + Join(parts[1..], sep)
  }

  lemma {:induction false} SplitUndoesJoin(parts: seq<string>, sep: char)
    requires |parts| > 0 && forall p :: p in parts ==> sep !in p
    ensures Split(Join(parts, sep), sep) == parts
  {
    assert parts[0] in parts;
    if |parts| > 1 {
      var rest := Join(parts[1..], sep);
      IndexOfAppend(parts[0], sep, rest);
      var s := parts[0] + [sep] + rest;
      assert s[..|parts[0]|] == parts[0] && s[|parts[0]| + 1..] == rest;
      SplitUndoesJoin(parts[1..], sep);
    }
  }

  /** `strings.SplitN(part, "=", 2)`, both halves trimmed. */
  function PairOf(trim: string -> string, part: string): Pair
    requires '=' in part
  {
    var n := IndexOf(part, '=');
    (trim(part[..n]), trim(part[n + 1..]))
  }

  /** The map a list of pairs stands for: the last value given to a key counts. */
  function LastWins(pairs: seq<Pair>): map<string, string> {
    if pairs == [] then map[]
    else
      var n := |pairs| - 1;
      LastWins(pairs[..n])[pairs[n].0 := pairs[n].1]
  }

  /** Key by key: bound to the value of the last pair with that key. */
  lemma {:induction false} LastWinsLookup(pairs: seq<Pair>, key: string)
    ensures key in LastWins(pairs) <==> exists i :: 0 <= i < |pairs| && pairs[i].0 == key
    ensures forall i :: 0 <= i < |pairs| && pairs[i].0 == key
                        && (forall j :: i < j < |pairs| ==> pairs[j].0 != key)
                        ==> LastWins(pairs)[key] == pairs[i].1
  {
    if pairs != [] {
      var n := |pairs| - 1;
      var init := pairs[..n];
      LastWinsLookup(init, key);
      assert forall i :: 0 <= i < n ==> init[i] == pairs[i];
    }
  }

  function PairsOf(trim: string -> string, parts: seq<string>): (r: seq<Pair>)
    requires forall p :: p in parts ==> '=' in p
    ensures |r| == |parts| && forall i :: 0 <= i < |parts| ==> r[i] == PairOf(trim, parts[i])
  {
    seq(|parts|, i requires 0 <= i < |parts| => PairOf(trim, parts[i]))
  }

  predicate AllHaveEquals(parts: seq<string>) {
    forall p :: p in parts ==> '=' in p
  }

  method ParseSubstitutionsFlag(trim: string -> string, substitutions: string)
    returns (substitutionsMap: map<string, string>, ok: bool)
    ensures ok <==> AllHaveEquals(Split(substitutions, ','))
    ensures ok ==> substitutionsMap == LastWins(PairsOf(trim, Split(substitutions, ',')))
  {
    hide Split, PairOf;
    substitutionsMap := map[];
    var list := Split(substitutions, ',');
    for i := 0 to |list|
      invariant AllHaveEquals(list[..i])
      invariant substitutionsMap == LastWins(PairsOf(trim, list[..i]))
    {
      if '=' !in list[i] {
        assert list[i] in list;
        return substitutionsMap, false;
      }
      var (key, value) := PairOf(trim, list[i]);
      substitutionsMap := substitutionsMap[key := value];
      var pairs := PairsOf(trim, list[..i + 1]);
      assert pairs[..i] == PairsOf(trim, list[..i]);
    }
    assert list[..|list|] == list;
    return substitutionsMap, true;
  }

  // ----- printing a flag and reading it back

  function PrintPairs(pairs: seq<Pair>): (r: seq<string>)
    ensures |r| == |pairs| && forall i :: 0 <= i < |pairs| ==> r[i] == pairs[i].0 + ['='] + pairs[i].1
  {
    seq(|pairs|, i requires 0 <= i < |pairs| => pairs[i].0 + ['='] + pairs[i].1)
  }

  function PrintFlag(pairs: seq<Pair>): string
    requires |pairs| > 0
  {
    Join(PrintPairs(pairs), ',')
  }

  /** A pair the flag syntax can express. */
  predicate Expressible(p: Pair) {
    ',' !in p.0 && '=' !in p.0 && ',' !in p.1
  }

  function TrimPairs(trim: string -> string, pairs: seq<Pair>): (r: seq<Pair>)
    ensures |r| == |pairs| && forall i :: 0 <= i < |pairs| ==> r[i] == (trim(pairs[i].0), trim(pairs[i].1))
  {
    seq(|pairs|, i requires 0 <= i < |pairs| => (trim(pairs[i].0), trim(pairs[i].1)))
  }

  lemma PairOfPrinted(trim: string -> string, p: Pair)
    requires '=' !in p.0
    ensures var part := p.0 + ['='] + p.1;
            '=' in part && PairOf(trim, part) == (trim(p.0), trim(p.1))
  {
    var part := p.0 + ['='] + p.1;
    assert part[|p.0|] == '=';
    IndexOfAppend(p.0, '=', p.1);
    assert part[..|p.0|] == p.0 && part[|p.0| + 1..] == p.1;
  }

  /** A printed flag is accepted, and read as the pairs it was printed from, trimmed. */
  lemma ParseUndoesPrint(trim: string -> string, pairs: seq<Pair>)
    requires |pairs| > 0 && forall p :: p in pairs ==> Expressible(p)
    ensures var parts := Split(PrintFlag(pairs), ',');
            AllHaveEquals(parts) && PairsOf(trim, parts) == TrimPairs(trim, pairs)
    ensures (forall p :: p in pairs ==> trim(p.0) == p.0 && trim(p.1) == p.1) ==>
              PairsOf(trim, Split(PrintFlag(pairs), ',')) == pairs
  {
    hide Split, Join, PairOf;
    var parts := PrintPairs(pairs);
    forall i | 0 <= i < |pairs|
      ensures ',' !in parts[i] && '=' in parts[i]
      ensures PairOf(trim, parts[i]) == (trim(pairs[i].0), trim(pairs[i].1))
    {
      assert pairs[i] in pairs;
      PairOfPrinted(trim, pairs[i]);
    }
    SplitUndoesJoin(parts, ',');
    assert PairsOf(trim, parts) == TrimPairs(trim, pairs);
    if forall p :: p in pairs ==> trim(p.0) == p.0 && trim(p.1) == p.1 {
      assert TrimPairs(trim, pairs) == pairs;
    }
  }
}
