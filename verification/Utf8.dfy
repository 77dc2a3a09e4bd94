/** UTF-8 as the Go runtime decodes it (the Unicode Standard, section 3.9, table 3-7), and the test for
    white space of a `range` loop with unicode.IsSpace over a string. A byte that begins no rune is
    decoded alone, to a rune that is not white space. */
module Utf8 {

  predicate In(c: char, low: nat, high: nat) {
    low <= c as int <= high
  }

  predicate IsContinuation(c: char) {
    In(c, 0x80, 0xBF)
  }

  predicate IsAscii(c: char) {
    In(c, 0, 0x7F)
  }

  /** The first two bytes of a rune of three. */
  predicate BeginsThree(c: char, d: char) {
    || (In(c, 0xE0, 0xE0) && In(d, 0xA0, 0xBF))
    || (In(c, 0xE1, 0xEC) && In(d, 0x80, 0xBF))
    || (In(c, 0xED, 0xED) && In(d, 0x80, 0x9F))
    || (In(c, 0xEE, 0xEF) && In(d, 0x80, 0xBF))
  }

  /** The first two bytes of a rune of four. */
  predicate BeginsFour(c: char, d: char) {
    || (In(c, 0xF0, 0xF0) && In(d, 0x90, 0xBF))
    || (In(c, 0xF1, 0xF3) && In(d, 0x80, 0xBF))
    || (In(c, 0xF4, 0xF4) && In(d, 0x80, 0x8F))
  }

  /** The length of the rune that `s` begins with; zero if it begins with none. */
  function RuneLength(s: string): (n: nat)
    ensures n <= |s|
    ensures n == 1 ==> IsAscii(s[0])
    ensures n > 0 ==> !IsContinuation(s[0])
    ensures n > 1 ==> !IsAscii(s[0]) && forall k :: 1 <= k < n ==> IsContinuation(s[k])
  {
    if s == "" then 0
    else if IsAscii(s[0]) then 1
    else if |s| >= 2 && In(s[0], 0xC2, 0xDF) && IsContinuation(s[1]) then 2
    else if |s| >= 3 && BeginsThree(s[0], s[1]) && IsContinuation(s[2]) then 3
    else if |s| >= 4 && BeginsFour(s[0], s[1]) && IsContinuation(s[2]) && IsContinuation(s[3]) then 4
    else 0
  }

  /** `s` is valid UTF-8. */
  predicate Whole(s: string) {
    s == "" || (RuneLength(s) > 0 && Whole(s[RuneLength(s)..]))
  }

  /** The white-space runes: U+0009 to U+000D, U+0020, U+0085, U+00A0, U+1680, U+2000 to U+200A,
      U+2028, U+2029, U+202F, U+205F and U+3000. */
  predicate IsSpace(rune: string) {
    match |rune|
    case 1 => In(rune[0], 9, 13) || In(rune[0], 32, 32)
    case 2 => In(rune[0], 0xC2, 0xC2) && (In(rune[1], 0x85, 0x85) || In(rune[1], 0xA0, 0xA0))
    case 3 =>
      || (In(rune[0], 0xE1, 0xE1) && In(rune[1], 0x9A, 0x9A) && In(rune[2], 0x80, 0x80))
      || (In(rune[0], 0xE2, 0xE2) && In(rune[1], 0x80, 0x80)
          && (In(rune[2], 0x80, 0x8A) || In(rune[2], 0xA8, 0xA9) || In(rune[2], 0xAF, 0xAF)))
      || (In(rune[0], 0xE2, 0xE2) && In(rune[1], 0x81, 0x81) && In(rune[2], 0x9F, 0x9F))
      || (In(rune[0], 0xE3, 0xE3) && In(rune[1], 0x80, 0x80) && In(rune[2], 0x80, 0x80))
    case _ => false
  }

  /** Some rune of `s` is white space. */
  predicate HasSpace(s: string) {
    s != "" &&
    var n := RuneLength(s);
    if n == 0 then HasSpace(s[1..]) else IsSpace(s[..n]) || HasSpace(s[n..])
  }

  method ContainsSpace(s: string) returns (found: bool)
    ensures found <==> HasSpace(s)
  {
    hide RuneLength, IsSpace;
    var i := 0;
    assert s[0..] == s;
    while i < |s|
      invariant i <= |s| && (HasSpace(s) <==> HasSpace(s[i..]))
    {
      var rest := s[i..];
      var n := RuneLength(rest);
      if n == 0 {
        assert rest[1..] == s[i + 1..];
        i := i + 1;
      } else {
        if IsSpace(rest[..n]) {
          return true;
        }
        assert rest[n..] == s[i + n..];
        i := i + n;
      }
    }
    return false;
  }

  // ----- cutting a text

  /** `s` does not begin in the middle of a rune. */
  predicate StartsRune(s: string) {
    s == "" || !IsContinuation(s[0])
  }

  /** A rune does not depend on what follows it, and cannot reach into what starts a rune. */
  lemma RuneLengthBefore(a: string, b: string)
    requires a != "" && (StartsRune(b) || RuneLength(a + b) <= |a|)
    ensures RuneLength(a + b) == RuneLength(a)
  {
    var s := a + b;
    assert forall k :: 0 <= k < |a| ==> s[k] == a[k];
    assert b != "" ==> s[|a|] == b[0];
  }

  /** White space of a concatenation whose seam is no rune's inside is white space of a part. */
  lemma {:induction false} SpaceOfParts(a: string, b: string)
    requires StartsRune(b)
    ensures HasSpace(a + b) <==> HasSpace(a) || HasSpace(b)
    decreases |a|
  {
    hide RuneLength, IsSpace;
    if a == "" {
      assert a + b == b;
    } else {
      RuneLengthBefore(a, b);
      var n := RuneLength(a);
      var step := if n == 0 then 1 else n;
      assert (a + b)[step..] == a[step..] + b;
      assert (a + b)[..n] == a[..n];
      SpaceOfParts(a[step..], b);
    }
  }

  lemma WholeStartsRune(s: string)
    requires Whole(s)
    ensures StartsRune(s)
  {
  }

  /** What follows an ASCII byte in a valid text is valid. */
  lemma {:induction false} WholeAfterAscii(a: string, b: string)
    requires Whole(a + b) && (a == "" || IsAscii(a[|a| - 1]))
    ensures Whole(b)
    decreases |a|
  {
    if a == "" {
      assert a + b == b;
    } else {
      var s := a + b;
      var n := RuneLength(s);
      assert s[|a| - 1] == a[|a| - 1];
      hide RuneLength;
      assert n <= |a|;
      assert s[n..] == a[n..] + b;
      WholeAfterAscii(a[n..], b);
    }
  }

  // ----- runes as numbers

  /** The six bits a continuation byte carries. */
  predicate Carries(c: char) {
    c as int / 64 == 2
  }

  /** The number a rune of two, three or four bytes stands for. */
  function Scalar(s: string, n: nat): int
    requires 2 <= n <= 4 && n <= |s|
  {
    var a, b := s[0] as int, s[1] as int % 64;
    if n == 2 then (a - 0xC0) * 64 + b
    else if n == 3 then (a - 0xE0) * 4096 + b * 64 + s[2] as int % 64
    else (a - 0xF0) * 262144 + b * 4096 + s[2] as int % 64 * 64 + s[3] as int % 64
  }

  /** Runes are the shortest encodings of the numbers up to 0x10FFFF but the surrogates. */
  lemma RuneLengthIff(s: string)
    ensures RuneLength(s) == 1 <==> |s| >= 1 && s[0] as int < 128
    ensures RuneLength(s) == 2 <==>
              |s| >= 2 && s[0] as int / 32 == 6 && Carries(s[1]) && 0x80 <= Scalar(s, 2)
    ensures RuneLength(s) == 3 <==>
              && |s| >= 3 && s[0] as int / 16 == 14 && Carries(s[1]) && Carries(s[2])
              && 0x800 <= Scalar(s, 3) && !(0xD800 <= Scalar(s, 3) <= 0xDFFF)
    ensures RuneLength(s) == 4 <==>
              && |s| >= 4 && s[0] as int / 8 == 30 && Carries(s[1]) && Carries(s[2]) && Carries(s[3])
              && 0x10000 <= Scalar(s, 4) <= 0x10FFFF
  {
  }

  /** The runes that are white space, one by one. */
  lemma SpacesAre(s: string)
    requires RuneLength(s) > 0
    ensures var n := RuneLength(s);
            IsSpace(s[..n]) <==>
              if n == 1 then s[0] as int in {9, 10, 11, 12, 13, 32}
              else Scalar(s, n) in {0x85, 0xA0, 0x1680, 0x2000, 0x2001, 0x2002, 0x2003, 0x2004, 0x2005, 0x2006, 0x2007,
                                    0x2008, 0x2009, 0x200A, 0x2028, 0x2029, 0x202F, 0x205F, 0x3000}
  {
  }
}
