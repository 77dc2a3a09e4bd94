/** Sanitizing the build tags (validate/validate.go, sanitizeBuildTags). `validTag` is the regular
    expression of a docker tag. */
module Tags {
  import opened GoStrings

  const MAX_NUM_TAGS := 64

  /** The tag at `i` is not empty and does not occur before. */
  predicate IsFirst(tags: seq<string>, i: nat)
    requires i < |tags|
  {
    tags[i] != "" && tags[i] !in tags[..i]
  }

  /** The non-empty tags without repetitions, as the loop collects them. */
  function Sanitized(tags: seq<string>): (r: seq<string>)
    ensures forall t :: t in r <==> t in tags && t != ""
  {
    if tags == [] then []
    else
      var n := |tags| - 1;
      assert tags == tags[..n] + [tags[n]];
      Sanitized(tags[..n]) + if IsFirst(tags, n) then [tags[n]] else []
  }

  method SanitizeBuildTags(validTag: string -> bool, tags: seq<string>) returns (r: Option<seq<string>>)
    ensures r.Some? <==> |tags| <= MAX_NUM_TAGS && All(validTag, Sanitized(tags))
    ensures r.Some? ==> r.value == Sanitized(tags)
  {
    if |tags| > MAX_NUM_TAGS {
      return None;
    }
    var uniques: set<string> := {};
    var cp: seq<string> := [];
    for i := 0 to |tags|
      invariant cp == Sanitized(tags[..i])
      invariant forall t :: t in uniques <==> t in cp
    {
      var t := tags[i];
      assert tags[..i + 1][..i] == tags[..i];
      if t != "" && t !in uniques {
        cp := cp + [t];
        uniques := uniques + {t};
      }
    }
    assert tags[..|tags|] == tags;
    for i := 0 to |cp|
      invariant forall t :: t in cp[..i] ==> validTag(t)
    {
      if !validTag(cp[i]) {
        assert cp[i] in cp;
        return None;
      }
    }
    return Some(cp);
  }

  /** The positions the result takes its tags from. */
  function FirstPositions(tags: seq<string>, n: nat): seq<nat>
    requires n <= |tags|
  {
    if n == 0 then []
    else if IsFirst(tags, n - 1) then FirstPositions(tags, n - 1) + [n - 1]
    else FirstPositions(tags, n - 1)
  }

  /** The result is the subsequence of `tags` at exactly the first occurrences of non-empty tags. */
  ghost predicate IsSubsequenceOfFirsts(tags: seq<string>, n: nat, r: seq<string>, at: seq<nat>)
    requires n <= |tags|
  {
    && |at| == |r|
    && (forall k :: 0 <= k < |at| ==> at[k] < n && IsFirst(tags, at[k]) && r[k] == tags[at[k]])
    && (forall j, k :: 0 <= j < k < |at| ==> at[j] < at[k])
    && (forall i :: 0 <= i < n && IsFirst(tags, i) ==> i in at)
  }

  lemma OneMoreTag(tags: seq<string>, n: nat, r: seq<string>, at: seq<nat>)
    requires n < |tags| && IsSubsequenceOfFirsts(tags, n, r, at)
    ensures if IsFirst(tags, n) then IsSubsequenceOfFirsts(tags, n + 1, r + [tags[n]], at + [n])
            else IsSubsequenceOfFirsts(tags, n + 1, r, at)
  {
  }

  lemma SanitizedStep(tags: seq<string>, n: nat)
    requires n < |tags|
    ensures Sanitized(tags[..n + 1])
            == if IsFirst(tags, n) then Sanitized(tags[..n]) + [tags[n]] else Sanitized(tags[..n])
  {
    assert tags[..n + 1][..n] == tags[..n];
  }

  lemma NoTags(tags: seq<string>)
    ensures IsSubsequenceOfFirsts(tags, 0, Sanitized(tags[..0]), FirstPositions(tags, 0))
  {
  }

  lemma {:induction false} SanitizedIsSubsequence(tags: seq<string>, n: nat)
    requires n <= |tags|
    ensures IsSubsequenceOfFirsts(tags, n, Sanitized(tags[..n]), FirstPositions(tags, n))
  {
    hide IsFirst, Sanitized, IsSubsequenceOfFirsts;
    if n == 0 {
      NoTags(tags);
    } else {
      SanitizedIsSubsequence(tags, n - 1);
      OneMoreTag(tags, n - 1, Sanitized(tags[..n - 1]), FirstPositions(tags, n - 1));
      SanitizedStep(tags, n - 1);
    }
  }

  lemma SanitizedHasNoDuplicates(tags: seq<string>)
    ensures NoDuplicates(Sanitized(tags))
  {
    assert tags[..|tags|] == tags;
    SanitizedIsSubsequence(tags, |tags|);
    var at, r := FirstPositions(tags, |tags|), Sanitized(tags);
    hide Sanitized;
    forall j, k | 0 <= j < k < |r| ensures r[j] != r[k] {
      assert IsFirst(tags, at[k]);
      assert tags[at[j]] == tags[..at[k]][at[j]];
    }
  }

  lemma {:induction false} SanitizedStays(r: seq<string>)
    requires NoDuplicates(r) && "" !in r
    ensures Sanitized(r) == r
  {
    if r != [] {
      var n := |r| - 1;
      assert r == r[..n] + [r[n]];
      assert forall k :: 0 <= k < n ==> r[k] != r[n];
      SanitizedStays(r[..n]);
    }
  }

  lemma SanitizedIsShorter(tags: seq<string>)
    ensures |Sanitized(tags)| <= |tags|
  {
  }

  /** Sanitizing twice is sanitizing once, and what was accepted is accepted again. */
  lemma SanitizingIsIdempotent(validTag: string -> bool, tags: seq<string>)
    requires |tags| <= MAX_NUM_TAGS && All(validTag, Sanitized(tags))
    ensures var r := Sanitized(tags);
            Sanitized(r) == r && |r| <= MAX_NUM_TAGS && All(validTag, Sanitized(r))
  {
    SanitizedHasNoDuplicates(tags);
    SanitizedStays(Sanitized(tags));
    SanitizedIsShorter(tags);
  }
}
