/** Validation of the substitution map and of its use in the templates of a build
    (validate/validate.go: CheckSubstitutions, CheckSubstitutionsLoose, CheckSubstitutionTemplate). */
module TemplateCheck {
  import opened GoStrings
  import opened Templates
  import opened BuildModel
  import opened Substitution

  const MAX_NUM_SUBSTITUTIONS := 100
  const MAX_SUBST_KEY_LENGTH := 100
  const MAX_SUBST_VALUE_LENGTH := 4000

  /** The built-in keys; the value says whether the command-line flag may override the key. */
  const VALID_BUILT_IN_SUBSTITUTIONS: map<string, bool> :=
    map["PROJECT_ID" := false,
        "BUILD_ID" := false,
        "REPO_NAME" := true,
        "BRANCH_NAME" := true,
        "TAG_NAME" := true,
        "REVISION_ID" := true,
        "COMMIT_SHA" := true,
        "SHORT_SHA" := true]

  predicate IsBuiltIn(key: string) {
    key in VALID_BUILT_IN_SUBSTITUTIONS
  }

  predicate IsOverridable(key: string) {
    key in VALID_BUILT_IN_SUBSTITUTIONS && VALID_BUILT_IN_SUBSTITUTIONS[key]
  }

  /** `^_[A-Z0-9_]+$` */
  predicate IsUserKey(key: string) {
    |key| >= 2 && key[0] == '_' && forall j :: 1 <= j < |key| ==> IsKeyChar(key[j])
  }

  // ----- the substitution map

  predicate EntryOk(key: string, value: string) {
    && |key| <= MAX_SUBST_KEY_LENGTH
    && (IsUserKey(key) || IsOverridable(key))
    && |value| <= MAX_SUBST_VALUE_LENGTH
  }

  predicate SubstitutionsLooseOk(m: Replacements) {
    |m| <= MAX_NUM_SUBSTITUTIONS && forall key :: key in m ==> EntryOk(key, m[key])
  }

  predicate SubstitutionsOk(m: Replacements) {
    SubstitutionsLooseOk(m) && forall key :: key in m ==> IsUserKey(key)
  }

  method CheckSubstitutionsLoose(m: Replacements) returns (ok: bool)
    ensures ok <==> SubstitutionsLooseOk(m)
  {
    hide IsUserKey, IsOverridable;
    if |m| > MAX_NUM_SUBSTITUTIONS {
      return false;
    }
    var rest := m.Keys;
    while rest != {}
      invariant rest <= m.Keys
      invariant forall key :: key in m.Keys - rest ==> EntryOk(key, m[key])
    {
      var key :| key in rest;
      if |key| > MAX_SUBST_KEY_LENGTH {
        return false;
      }
      if !IsUserKey(key) {
        if !IsOverridable(key) {
          return false;
        }
      }
      if |m[key]| > MAX_SUBST_VALUE_LENGTH {
        return false;
      }
      rest := rest - {key};
    }
    return true;
  }

  method CheckSubstitutions(m: Replacements) returns (ok: bool)
    ensures ok <==> SubstitutionsOk(m)
  {
    hide SubstitutionsLooseOk, IsUserKey;
    ok := CheckSubstitutionsLoose(m);
    if !ok {
      return;
    }
    var rest := m.Keys;
    while rest != {}
      invariant rest <= m.Keys
      invariant forall key :: key in m.Keys - rest ==> IsUserKey(key)
    {
      var key :| key in rest;
      if !IsUserKey(key) {
        return false;
      }
      rest := rest - {key};
    }
  }

  // ----- the keys of a template

  function KeysOf(ps: seq<TemplateParameter>): seq<string> {
    if ps == [] then []
    else if ps[0].Escape then KeysOf(ps[1..])
    else [ps[0].Key] + KeysOf(ps[1..])
  }

  /** The unescaped keys of a template, in order. */
  function Keys(s: string): seq<string> {
    KeysOf(Scan(s, 0))
  }

  function KeysOfAll(fields: seq<string>): seq<string> {
    if fields == [] then [] else Keys(fields[0]) + KeysOfAll(fields[1..])
  }

  lemma {:induction false} KeysOfAppend(a: seq<TemplateParameter>, b: seq<TemplateParameter>)
    ensures KeysOf(a + b) == KeysOf(a) + KeysOf(b)
  {
    if a == [] {
      assert a + b == b;
    } else {
      assert (a + b)[1..] == a[1..] + b;
      KeysOfAppend(a[1..], b);
    }
  }

  lemma {:induction false} KeysOfAllAppend(a: seq<string>, b: seq<string>)
    ensures KeysOfAll(a + b) == KeysOfAll(a) + KeysOfAll(b)
  {
    hide Keys;
    if a == [] {
      assert a + b == b;
    } else {
      assert (a + b)[1..] == a[1..] + b;
      KeysOfAllAppend(a[1..], b);
      Reassociate(Keys(a[0]), KeysOfAll(a[1..]), KeysOfAll(b));
    }
  }

  // ----- what is wrong with a key

  datatype Warning = Unmatched(key: string) | Unused(key: string)

  /** Neither substituted, nor user-defined, nor built-in: an error. */
  predicate IsInvalid(subs: Replacements, key: string) {
    key !in subs && !IsUserKey(key) && !IsBuiltIn(key)
  }

  /** User-defined and not substituted: a warning at each occurrence. */
  predicate IsUnmatched(subs: Replacements, key: string) {
    key !in subs && IsUserKey(key)
  }

  function UnmatchedWarnings(subs: Replacements, keys: seq<string>): seq<Warning> {
    if keys == [] then []
    else (if IsUnmatched(subs, keys[0]) then [Unmatched(keys[0])] else []) + UnmatchedWarnings(subs, keys[1..])
  }

  lemma {:induction false} UnmatchedWarningsAppend(subs: Replacements, a: seq<string>, b: seq<string>)
    ensures UnmatchedWarnings(subs, a + b) == UnmatchedWarnings(subs, a) + UnmatchedWarnings(subs, b)
  {
    hide IsUnmatched;
    if a == [] {
      assert a + b == b;
    } else {
      assert (a + b)[1..] == a[1..] + b;
      UnmatchedWarningsAppend(subs, a[1..], b);
    }
  }

  /** The state of the check after the keys `seen`. */
  ghost predicate Checked(subs: Replacements, seen: seq<string>, warnings: seq<Warning>, used: map<string, bool>) {
    && (forall key :: key in seen ==> !IsInvalid(subs, key))
    && warnings == UnmatchedWarnings(subs, seen)
    && subs.Keys <= used.Keys
    && forall key :: key in used ==>
         !IsUnmatched(subs, key) && (key in subs || key in seen) && (used[key] <==> key in seen)
  }

  lemma CheckedOneMore(subs: Replacements, seen: seq<string>, warnings: seq<Warning>, used: map<string, bool>,
                       key: string)
    requires Checked(subs, seen, warnings, used) && !IsInvalid(subs, key)
    ensures IsUnmatched(subs, key) ==>
              Checked(subs, seen + [key], warnings + [Unmatched(key)], used)
    ensures !IsUnmatched(subs, key) ==> Checked(subs, seen + [key], warnings, used[key := true])
  {
    hide IsInvalid, IsUnmatched;
    UnmatchedWarningsAppend(subs, seen, [key]);
    assert [key][1..] == [];
    assert UnmatchedWarnings(subs, [key]) == if IsUnmatched(subs, key) then [Unmatched(key)] else [];
  }

  // ----- the checker

  lemma KeysOfOne(p: TemplateParameter)
    ensures KeysOf([p]) == if p.Escape then [] else [p.Key]
  {
  }

  method CheckParameters(subs: Replacements, input: string, ghost seen: seq<string>,
                         warningsIn: seq<Warning>, usedIn: map<string, bool>)
    returns (ok: bool, warnings: seq<Warning>, used: map<string, bool>)
    requires Checked(subs, seen, warningsIn, usedIn)
    ensures ok ==> Checked(subs, seen + Keys(input), warnings, used)
    ensures ok <==> forall key :: key in Keys(input) ==> !IsInvalid(subs, key)
  {
    hide Checked, IsUserKey, IsBuiltIn, Scan;
    warnings, used := warningsIn, usedIn;
    var parameters := FindTemplateParameters(input);
    ghost var keys: seq<string> := [];
    assert seen + keys == seen;
    for j := 0 to |parameters|
      invariant keys == KeysOf(parameters[..j])
      invariant Checked(subs, seen + keys, warnings, used)
      invariant forall key :: key in keys ==> !IsInvalid(subs, key)
    {
      var p := parameters[j];
      assert parameters[..j + 1] == parameters[..j] + [p];
      KeysOfAppend(parameters[..j], [p]);
      KeysOfAppend(parameters[..j + 1], parameters[j + 1..]);
      assert parameters[..j + 1] + parameters[j + 1..] == parameters;
      KeysOfOne(p);
      if p.Escape {
        continue;
      }
      if p.Key !in subs && !IsUserKey(p.Key) && !IsBuiltIn(p.Key) {
        assert IsInvalid(subs, p.Key) && p.Key in keys + [p.Key];
        return false, warnings, used;
      }
      CheckedOneMore(subs, seen + keys, warnings, used, p.Key);
      Reassociate(seen, keys, [p.Key]);
      keys := keys + [p.Key];
      if p.Key !in subs && IsUserKey(p.Key) {
        warnings := warnings + [Unmatched(p.Key)];
        continue;
      }
      used := used[p.Key := true];
    }
    assert parameters[..|parameters|] == parameters;
    ok := true;
  }

  lemma KeysOfAllPrefix(fields: seq<string>, j: nat)
    requires j < |fields|
    ensures KeysOfAll(fields[..j + 1]) == KeysOfAll(fields[..j]) + Keys(fields[j])
    ensures forall key :: key in Keys(fields[j]) ==> key in KeysOfAll(fields)
  {
    hide Keys;
    var one := [fields[j]];
    assert fields[..j + 1] == fields[..j] + one;
    KeysOfAllAppend(fields[..j], one);
    assert one[1..] == [] && KeysOfAll(one) == Keys(fields[j]) + [];
    assert fields == fields[..j + 1] + fields[j + 1..];
    KeysOfAllAppend(fields[..j + 1], fields[j + 1..]);
  }

  method CheckFields(subs: Replacements, fields: seq<string>, ghost seen: seq<string>,
                     warningsIn: seq<Warning>, usedIn: map<string, bool>)
    returns (ok: bool, warnings: seq<Warning>, used: map<string, bool>)
    requires Checked(subs, seen, warningsIn, usedIn)
    ensures ok ==> Checked(subs, seen + KeysOfAll(fields), warnings, used)
    ensures ok <==> forall key :: key in KeysOfAll(fields) ==> !IsInvalid(subs, key)
  {
    hide Checked, IsInvalid, Keys;
    ok, warnings, used := true, warningsIn, usedIn;
    ghost var keys: seq<string> := [];
    assert seen + keys == seen;
    for j := 0 to |fields|
      invariant keys == KeysOfAll(fields[..j])
      invariant Checked(subs, seen + keys, warnings, used)
      invariant forall key :: key in keys ==> !IsInvalid(subs, key)
    {
      KeysOfAllPrefix(fields, j);
      ok, warnings, used := CheckParameters(subs, fields[j], seen + keys, warnings, used);
      if !ok {
        return;
      }
      Reassociate(seen, keys, Keys(fields[j]));
      keys := keys + Keys(fields[j]);
    }
    assert fields[..|fields|] == fields;
    ok := true;
  }

  // ----- the templates of a build

  function StepFields(s: StepValue): seq<string> {
    [s.name] + s.args + s.env + [s.dir, s.entrypoint]
  }

  function StepsFields(steps: seq<StepValue>): seq<string> {
    if steps == [] then [] else StepFields(steps[0]) + StepsFields(steps[1..])
  }

  function ObjectFields(o: Option<ObjectsValue>): seq<string> {
    if o.None? then [] else [o.value.location] + o.value.paths
  }

  /** The templates that are scanned, in order. `LogsBucket` is not among them. */
  function ScannedFields(v: BuildValue): seq<string> {
    StepsFields(v.steps) + v.images + v.tags + ObjectFields(v.ArtifactObjects())
  }

  lemma {:induction false} StepsFieldsIff(steps: seq<StepValue>, f: string)
    ensures f in StepsFields(steps) <==> exists s :: s in steps && f in StepFields(s)
  {
    hide StepFields;
    if steps != [] {
      StepsFieldsIff(steps[1..], f);
    }
  }

  /** Which fields are scanned: those that substitution expands, the logs bucket excepted. */
  lemma ScannedFieldsIff(v: BuildValue, f: string)
    ensures f in ScannedFields(v) <==>
              || (exists s :: s in v.steps &&
                              (f == s.name || f in s.args || f in s.env || f == s.dir || f == s.entrypoint))
              || f in v.images || f in v.tags
              || (v.ArtifactObjects().Some? &&
                    (f == v.ArtifactObjects().value.location || f in v.ArtifactObjects().value.paths))
  {
    hide StepsFields;
    StepsFieldsIff(v.steps, f);
  }

  function ScannedKeys(v: BuildValue): seq<string> {
    KeysOfAll(ScannedFields(v))
  }

  function UnusedKeys(v: BuildValue): set<string> {
    set key | key in v.substitutions && key !in ScannedKeys(v)
  }

  /** One warning for each unused key, in some order. */
  ghost predicate ListsUnused(warnings: seq<Warning>, keys: set<string>) {
    && |warnings| == |keys|
    && (forall w :: w in warnings ==> w.Unused? && w.key in keys)
    && (forall key :: key in keys ==> Unused(key) in warnings)
  }

  lemma NoKeys()
    ensures KeysOfAll([]) == []
  {
  }

  lemma {:induction false} StepsFieldsPrefix(steps: seq<StepValue>, i: nat)
    requires i < |steps|
    ensures StepsFields(steps[..i + 1]) == StepsFields(steps[..i]) + StepFields(steps[i])
    ensures StepsFields(steps) == StepsFields(steps[..i + 1]) + StepsFields(steps[i + 1..])
    decreases i
  {
    hide StepFields;
    if i == 0 {
      assert steps[..1] == [steps[0]] && [steps[0]][1..] == [];
    } else {
      StepsFieldsPrefix(steps[1..], i - 1);
      assert steps[..i + 1][1..] == steps[1..][..i] && steps[..i][1..] == steps[1..][..i - 1];
      assert steps[1..][i..] == steps[i + 1..];
      Reassociate(StepFields(steps[0]), StepsFields(steps[1..][..i - 1]), StepFields(steps[i]));
      Reassociate(StepFields(steps[0]), StepsFields(steps[1..][..i]), StepsFields(steps[i + 1..]));
    }
  }

  method CheckSteps(subs: Replacements, steps: seq<StepValue>, usedIn: map<string, bool>)
    returns (ok: bool, warnings: seq<Warning>, used: map<string, bool>)
    requires Checked(subs, [], [], usedIn)
    ensures ok ==> Checked(subs, KeysOfAll(StepsFields(steps)), warnings, used)
    ensures ok <==> forall key :: key in KeysOfAll(StepsFields(steps)) ==> !IsInvalid(subs, key)
  {
    hide Checked, IsInvalid, KeysOfAll, StepFields;
    ok, warnings, used := true, [], usedIn;
    ghost var fields: seq<string> := [];
    assert KeysOfAll([]) == [] by { NoKeys(); }
    for i := 0 to |steps|
      invariant fields == StepsFields(steps[..i])
      invariant Checked(subs, KeysOfAll(fields), warnings, used)
      invariant forall key :: key in KeysOfAll(fields) ==> !IsInvalid(subs, key)
    {
      ok, warnings, used := CheckFields(subs, StepFields(steps[i]), KeysOfAll(fields), warnings, used);
      StepsFieldsPrefix(steps, i);
      KeysOfAllAppend(fields, StepFields(steps[i]));
      KeysOfAllAppend(fields + StepFields(steps[i]), StepsFields(steps[i + 1..]));
      if !ok {
        return;
      }
      fields := fields + StepFields(steps[i]);
    }
    assert steps[..|steps|] == steps;
    ok := true;
  }

  lemma ListOneMoreUnused(warnings: seq<Warning>, keys: set<string>, key: string)
    requires ListsUnused(warnings, keys) && key !in keys
    ensures ListsUnused(warnings + [Unused(key)], keys + {key})
  {
  }

  /** The last loop: which substitutions were never used. */
  method CollectUnused(used: map<string, bool>) returns (warnings: seq<Warning>)
    ensures ListsUnused(warnings, set key | key in used && !used[key])
  {
    warnings := [];
    var rest := used.Keys;
    while rest != {}
      invariant rest <= used.Keys
      invariant ListsUnused(warnings, set key | key in used.Keys - rest && !used[key])
    {
      var key :| key in rest;
      ghost var done := set k | k in used.Keys - rest && !used[k];
      rest := rest - {key};
      if !used[key] {
        ListOneMoreUnused(warnings, done, key);
        warnings := warnings + [Unused(key)];
        assert (set k | k in used.Keys - rest && !used[k]) == done + {key};
      } else {
        assert (set k | k in used.Keys - rest && !used[k]) == done;
      }
    }
    assert (set k | k in used.Keys - rest && !used[k]) == set k | k in used && !used[k];
  }

  /** The list of warnings of a template without invalid keys. */
  ghost predicate WarningsAre(v: BuildValue, warnings: seq<Warning>) {
    var unmatched := UnmatchedWarnings(v.substitutions, ScannedKeys(v));
    && |unmatched| <= |warnings|
    && warnings[..|unmatched|] == unmatched
    && ListsUnused(warnings[|unmatched|..], UnusedKeys(v))
  }

  lemma InitiallyChecked(subs: Replacements, used: map<string, bool>)
    requires used == map key | key in subs :: false
    ensures Checked(subs, [], [], used)
  {
  }

  lemma CheckedMeansWarnings(v: BuildValue, warnings: seq<Warning>, used: map<string, bool>, unused: seq<Warning>)
    requires Checked(v.substitutions, ScannedKeys(v), warnings, used)
    requires ListsUnused(unused, set key | key in used && !used[key])
    ensures WarningsAre(v, warnings + unused)
  {
    hide ListsUnused, KeysOfAll, ScannedFields, UnmatchedWarnings, IsInvalid, IsUnmatched;
    assert (set key | key in used && !used[key]) == UnusedKeys(v);
    assert (warnings + unused)[|warnings|..] == unused;
  }

  method CheckSubstitutionTemplate(v: BuildValue) returns (ok: bool, warnings: seq<Warning>)
    ensures ok <==> forall key :: key in ScannedKeys(v) ==> !IsInvalid(v.substitutions, key)
    ensures ok ==> WarningsAre(v, warnings)
  {
    hide Checked, IsInvalid, KeysOfAll, StepsFields, UnmatchedWarnings, ListsUnused, WarningsAre;
    var subs := v.substitutions;
    var used := map key | key in subs :: false;
    InitiallyChecked(subs, used);
    ok, warnings, used := CheckSteps(subs, v.steps, used);
    ghost var fields := StepsFields(v.steps);
    KeysOfAllAppend(fields, v.images);
    KeysOfAllAppend(fields + v.images, v.tags);
    KeysOfAllAppend(fields + v.images + v.tags, ObjectFields(v.ArtifactObjects()));
    if !ok {
      return;
    }
    ok, warnings, used := CheckFields(subs, v.images, KeysOfAll(fields), warnings, used);
    if !ok {
      return;
    }
    ok, warnings, used := CheckFields(subs, v.tags, KeysOfAll(fields + v.images), warnings, used);
    if !ok {
      return;
    }
    ok, warnings, used := CheckFields(subs, ObjectFields(v.ArtifactObjects()),
                                      KeysOfAll(fields + v.images + v.tags), warnings, used);
    if !ok {
      return;
    }
    var unused := CollectUnused(used);
    CheckedMeansWarnings(v, warnings, used, unused);
    warnings := warnings + unused;
  }

  // ----- consequences

  /** The occurrences of unmatched keys among the first `n` keys. */
  function UnmatchedPositions(subs: Replacements, keys: seq<string>, n: nat): set<nat>
    requires n <= |keys|
  {
    set i: nat | i < n && IsUnmatched(subs, keys[i])
  }

  lemma PositionsGrow(subs: Replacements, keys: seq<string>, n: nat)
    requires n < |keys|
    ensures |UnmatchedPositions(subs, keys, n + 1)|
            == |UnmatchedPositions(subs, keys, n)| + (if IsUnmatched(subs, keys[n]) then 1 else 0)
  {
    hide IsUnmatched;
    var before := UnmatchedPositions(subs, keys, n);
    if IsUnmatched(subs, keys[n]) {
      assert UnmatchedPositions(subs, keys, n + 1) == before + {n};
    } else {
      assert UnmatchedPositions(subs, keys, n + 1) == before;
    }
  }

  lemma UnmatchedOne(subs: Replacements, key: string)
    ensures |UnmatchedWarnings(subs, [key])| == if IsUnmatched(subs, key) then 1 else 0
  {
  }

  lemma {:induction false} UnmatchedCount(subs: Replacements, keys: seq<string>, n: nat)
    requires n <= |keys|
    ensures |UnmatchedWarnings(subs, keys[..n])| == |UnmatchedPositions(subs, keys, n)|
  {
    hide IsUnmatched;
    if n == 0 {
      assert UnmatchedPositions(subs, keys, n) == {};
    } else {
      hide UnmatchedPositions, UnmatchedWarnings;
      UnmatchedCount(subs, keys, n - 1);
      assert keys[..n] == keys[..n - 1] + [keys[n - 1]];
      UnmatchedWarningsAppend(subs, keys[..n - 1], [keys[n - 1]]);
      UnmatchedOne(subs, keys[n - 1]);
      PositionsGrow(subs, keys, n - 1);
    }
  }

  /** How many warnings there are: one for each occurrence of an unmatched key, one for each unused key. */
  lemma WarningCount(v: BuildValue, warnings: seq<Warning>)
    requires WarningsAre(v, warnings)
    ensures var keys := ScannedKeys(v);
            |warnings| == |UnmatchedPositions(v.substitutions, keys, |keys|)| + |UnusedKeys(v)|
  {
    hide UnmatchedPositions, UnmatchedWarnings, ScannedKeys;
    var keys := ScannedKeys(v);
    assert keys[..|keys|] == keys;
    UnmatchedCount(v.substitutions, keys, |keys|);
  }

  lemma {:induction false} UnmatchedAre(subs: Replacements, keys: seq<string>, w: Warning)
    ensures w in UnmatchedWarnings(subs, keys) <==> w.Unmatched? && w.key in keys && IsUnmatched(subs, w.key)
  {
    hide IsUnmatched;
    if keys != [] {
      UnmatchedAre(subs, keys[1..], w);
    }
  }

  /** What is warned of: user-defined keys that are used and not substituted, and substitutions that are
      not used. */
  lemma WarnedOf(v: BuildValue, warnings: seq<Warning>, key: string)
    requires WarningsAre(v, warnings)
    ensures Unmatched(key) in warnings <==> key in ScannedKeys(v) && key !in v.substitutions && IsUserKey(key)
    ensures Unused(key) in warnings <==> key in v.substitutions && key !in ScannedKeys(v)
  {
    hide ScannedKeys, UnmatchedWarnings, IsUserKey;
    var unmatched := UnmatchedWarnings(v.substitutions, ScannedKeys(v));
    assert warnings == unmatched + warnings[|unmatched|..];
    UnmatchedAre(v.substitutions, ScannedKeys(v), Unmatched(key));
    UnmatchedAre(v.substitutions, ScannedKeys(v), Unused(key));
  }

  lemma {:induction false} KeyOfParameter(ps: seq<TemplateParameter>, p: TemplateParameter)
    requires p in ps && !p.Escape
    ensures p.Key in KeysOf(ps)
  {
    if p != ps[0] {
      KeyOfParameter(ps[1..], p);
    }
  }

  lemma FieldKeys(fields: seq<string>, f: string, p: TemplateParameter)
    requires f in fields && p in Scan(f, 0) && !p.Escape
    ensures p.Key in KeysOfAll(fields)
  {
    hide Scan, KeysOfAll;
    var j :| 0 <= j < |fields| && fields[j] == f;
    KeysOfAllPrefix(fields, j);
    KeyOfParameter(Scan(f, 0), p);
  }

  lemma {:induction false} NoWarningsNoUnmatched(subs: Replacements, keys: seq<string>)
    requires UnmatchedWarnings(subs, keys) == []
    ensures forall key :: key in keys ==> !IsUnmatched(subs, key)
  {
    hide IsUnmatched;
    if keys != [] {
      NoWarningsNoUnmatched(subs, keys[1..]);
    }
  }

  lemma BuiltInsAreBound(v: BuildValue, key: string)
    requires IsBuiltIn(key)
    ensures key in ReplacementsOf(v)
  {
  }

  /** In a template that passes without warnings every parameter is an escape or a bound key, so that
      expanding a scanned field never falls back on the empty string for a missing key. */
  lemma NoSilentBlanks(v: BuildValue, f: string, p: TemplateParameter)
    requires forall key :: key in ScannedKeys(v) ==> !IsInvalid(v.substitutions, key)
    requires WarningsAre(v, [])
    requires f in ScannedFields(v) && p in Scan(f, 0)
    ensures p.Escape || p.Key in ReplacementsOf(v)
  {
    hide ScannedFields, Scan, BuiltIns, IsUserKey, IsBuiltIn, ListsUnused, KeysOfAll;
    if !p.Escape {
      FieldKeys(ScannedFields(v), f, p);
      NoWarningsNoUnmatched(v.substitutions, ScannedKeys(v));
      if p.Key !in v.substitutions {
        BuiltInsAreBound(v, p.Key);
      }
    }
  }
}
