/** Picking the latest object generation (gsutil/gsutil.go, getGeneration): the largest output line in
    Go's string order. */
module Generation {
  import opened GoStrings
  import opened Flags

  /** Go's `a < b` on strings: byte by byte, a proper prefix first. */
  predicate Less(a: string, b: string) {
    b != "" && (a == "" || a[0] < b[0] || (a[0] == b[0] && Less(a[1..], b[1..])))
  }

  lemma {:induction false} LessIsTotal(a: string, b: string)
    ensures Less(a, b) || Less(b, a) || a == b
    ensures !(Less(a, b) && Less(b, a))
    ensures !Less(a, a)
  {
    if a != "" && b != "" {
      LessIsTotal(a[1..], b[1..]);
      assert a == [a[0]] + a[1..] && b == [b[0]] + b[1..];
    }
    if a != "" {
      LessIsTotal(a[1..], a[1..]);
    }
  }

  lemma {:induction false} LessIsTransitive(a: string, b: string, c: string)
    requires Less(a, b) && Less(b, c)
    ensures Less(a, c)
  {
    if a != "" && a[0] == b[0] && b[0] == c[0] {
      LessIsTransitive(a[1..], b[1..], c[1..]);
    }
  }

  /** No line is larger. */
  predicate IsLargest(max: string, lines: seq<string>) {
    forall l :: l in lines ==> !Less(max, l)
  }

  predicate AllEmpty(lines: seq<string>) {
    forall l :: l in lines ==> l == ""
  }

  lemma LargerIsLargest(max: string, l: string, lines: seq<string>)
    requires IsLargest(max, lines) && Less(max, l)
    ensures IsLargest(l, lines + [l])
  {
    hide Less;
    forall k | k in lines + [l] ensures !Less(l, k) {
      if k in lines && Less(l, k) {
        LessIsTransitive(max, l, k);
      }
      LessIsTotal(l, l);
    }
  }

  lemma EmptyIsLeast(l: string)
    ensures l != "" ==> Less("", l)
  {
  }

  lemma SplitOnce(output: string)
    requires '\n' in output
    ensures var n := IndexOf(output, '\n');
            Split(output, '\n') == [output[..n]] + Split(output[n + 1..], '\n')
  {
  }

  lemma NoLines()
    ensures AllEmpty([])
  {
  }

  lemma EmptyFirst(first: string, rest: seq<string>)
    ensures AllEmpty([first] + rest) <==> first == "" && AllEmpty(rest)
  {
    var all := [first] + rest;
    assert all[0] == first && all[1..] == rest;
    assert first in all;
    if AllEmpty(all) {
      forall l | l in rest ensures l == "" {
        assert l in all;
      }
    }
  }

  lemma SplitNothing(output: string)
    requires '\n' !in output
    ensures Split(output, '\n') == [output]
  {
  }

  /** Every line is empty exactly if the output has nothing but line ends. */
  lemma {:induction false} AllEmptyIff(output: string)
    ensures AllEmpty(Split(output, '\n')) <==> forall c :: c in output ==> c == '\n'
    decreases |output|
  {
    hide Split, AllEmpty;
    var n := IndexOf(output, '\n');
    if '\n' in output {
      var first, rest := output[..n], output[n + 1..];
      SplitOnce(output);
      AllEmptyIff(rest);
      EmptyFirst(first, Split(rest, '\n'));
      assert output == first + ['\n'] + rest;
      assert first != "" ==> first[0] in first && first[0] in output && first[0] != '\n';
      assert forall c :: c in rest ==> c in output;
      assert first == "" ==> forall c :: c in output ==> c == '\n' || c in rest;
    } else {
      SplitNothing(output);
      EmptyFirst(output, []);
      assert [output] + [] == [output] && AllEmpty([]) by { NoLines(); }
      assert output != "" ==> output[0] in output && output[0] != '\n';
    }
  }

  method GetGeneration(output: string) returns (r: Option<string>)
    ensures r.None? <==> AllEmpty(Split(output, '\n'))
    ensures r.Some? ==> r.value in Split(output, '\n') && r.value != "" && IsLargest(r.value, Split(output, '\n'))
  {
    hide Less, Split;
    var lines := Split(output, '\n');
    var max := "";
    for i := 0 to |lines|
      invariant max == "" || max in lines[..i]
      invariant IsLargest(max, lines[..i])
    {
      var l := lines[i];
      if Less(max, l) {
        LargerIsLargest(max, l, lines[..i]);
        max := l;
        assert l in lines[..i + 1];
      }
    }
    assert lines[..|lines|] == lines;
    if max == "" {
      forall l | l in lines ensures l == "" {
        EmptyIsLeast(l);
      }
      return None;
    }
    assert max in lines;
    return Some(max);
  }

  // ----- generation numbers

  predicate IsDigit(c: char) {
    '0' <= c <= '9'
  }

  predicate AllDigits(d: string) {
    forall k :: 0 <= k < |d| ==> IsDigit(d[k])
  }

  predicate IsNumeral(d: string) {
    |d| > 0 && AllDigits(d)
  }

  function Digit(c: char): nat
    requires IsDigit(c)
  {
    c as int - '0' as int
  }

  /** The number a string of digits denotes. */
  function NumberOf(d: string): nat
    requires AllDigits(d)
  {
    if d == "" then 0 else 10 * NumberOf(d[..|d| - 1]) + Digit(d[|d| - 1])
  }

  /** Between strings of one length the last byte decides only when all others agree. */
  lemma {:induction false} LessAtTheEnd(a: string, x: char, b: string, y: char)
    requires |a| == |b|
    ensures Less(a + [x], b + [y]) <==> Less(a, b) || (a == b && x < y)
  {
    if a == "" {
      assert a + [x] == [x] && b + [y] == [y] && [x][1..] == "" && [y][1..] == "";
    } else {
      assert (a + [x])[1..] == a[1..] + [x] && (b + [y])[1..] == b[1..] + [y];
      LessAtTheEnd(a[1..], x, b[1..], y);
      assert a == [a[0]] + a[1..] && b == [b[0]] + b[1..];
    }
  }

  /** Numerals of one length are ordered as numbers by the string order. */
  lemma {:induction false} SameLengthOrder(a: string, b: string)
    requires |a| == |b| && AllDigits(a) && AllDigits(b)
    ensures Less(a, b) <==> NumberOf(a) < NumberOf(b)
    ensures a == b <==> NumberOf(a) == NumberOf(b)
    decreases |a|
  {
    if a != "" {
      var n := |a| - 1;
      SameLengthOrder(a[..n], b[..n]);
      assert a == a[..n] + [a[n]] && b == b[..n] + [b[n]];
      LessAtTheEnd(a[..n], a[n], b[..n], b[n]);
      hide Less;
    }
  }

  lemma {:induction false} LessAfterPrefix(prefix: string, a: string, b: string)
    ensures Less(prefix + a, prefix + b) <==> Less(a, b)
  {
    if prefix == "" {
      assert prefix + a == a && prefix + b == b;
    } else {
      assert (prefix + a)[1..] == prefix[1..] + a && (prefix + b)[1..] == prefix[1..] + b;
      LessAfterPrefix(prefix[1..], a, b);
    }
  }

  lemma {:induction false} ShorterNumeralIsSmaller(a: string, b: string)
    requires AllDigits(a) && AllDigits(b) && |a| < |b| && b[0] != '0'
    ensures NumberOf(a) < NumberOf(b)
    decreases |b|
  {
    var m, n := |a| - 1, |b| - 1;
    if n > 0 {
      ShorterNumeralIsSmaller(if a == "" then "" else a[..m], b[..n]);
    }
  }

  /** Generations written without leading zeros. */
  predicate AreGenerations(generations: seq<string>) {
    forall g :: g in generations ==> IsNumeral(g) && g[0] != '0'
  }

  /** Among the longest generations is one that the string order puts after all shorter ones. */
  predicate LongestComesLast(generations: seq<string>) {
    exists top :: top in generations
                  && forall g :: g in generations ==> |g| <= |top| && (|g| < |top| ==> Less(g, top))
  }

  lemma LatestIsLongest(lines: seq<string>, url: string, generations: seq<string>, chosen: string)
    requires AreGenerations(generations) && chosen in generations
    requires forall g :: g in generations ==> url + "#" + g in lines
    requires IsLargest(url + "#" + chosen, lines)
    ensures forall g :: g in generations ==> !Less(chosen, g)
    ensures (forall g :: g in generations ==> NumberOf(g) <= NumberOf(chosen))
            <==> (forall g :: g in generations ==> |g| <= |chosen|)
  {
    hide Less, NumberOf;
    forall g | g in generations
      ensures !Less(chosen, g) && (NumberOf(g) <= NumberOf(chosen) <==> |g| <= |chosen|)
    {
      LessAfterPrefix(url + "#", chosen, g);
      if |g| == |chosen| {
        SameLengthOrder(chosen, g);
      } else if |g| < |chosen| {
        ShorterNumeralIsSmaller(g, chosen);
      } else {
        ShorterNumeralIsSmaller(chosen, g);
      }
    }
  }

  /** The chosen line carries the largest generation number if and only if in the listing the string
      order agrees with the lengths: a condition on the generations alone. */
  lemma LargestLineIsLatest(lines: seq<string>, url: string, generations: seq<string>, chosen: string)
    requires AreGenerations(generations) && chosen in generations
    requires forall g :: g in generations ==> url + "#" + g in lines
    requires IsLargest(url + "#" + chosen, lines)
    ensures (forall g :: g in generations ==> NumberOf(g) <= NumberOf(chosen)) <==> LongestComesLast(generations)
  {
    LatestIsLongest(lines, url, generations, chosen);
    hide Less, NumberOf, AreGenerations, IsLargest;
    if forall g :: g in generations ==> |g| <= |chosen| {
      forall g | g in generations && |g| < |chosen| ensures Less(g, chosen) {
        LessIsTotal(g, chosen);
      }
    }
  }

  /** With numerals of different lengths the string order picks the wrong generation. */
  lemma LongerGenerationIsMissed()
    ensures IsLargest("u#9", ["u#9", "u#10"]) && NumberOf("9") == 9 && NumberOf("10") == 10
  {
    LessAfterPrefix("u#", "9", "10");
    LessAfterPrefix("u#", "9", "9");
    assert "u#" + "9" == "u#9" && "u#" + "10" == "u#10";
  }
}
