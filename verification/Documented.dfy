/** Acceptance as the comments, the regular expressions and the error messages of validate/validate.go put
    it: limits as numbers, names by their alphabets, uniqueness and matching by positions. It is written
    without the predicates the checkers are proved against, and shown to say the same. */
module Documented {
  import opened GoStrings
  import opened Utf8
  import opened Templates
  import opened ExpansionLaws
  import opened BuildModel
  import opened TemplateCheck
  import opened ArtifactsCheck
  import opened Steps
  import opened Volumes
  import opened Secrets
  import opened Tags
  import opened Pipeline
  import opened PipelineLaws

  /** At most `count` items, none longer than `length`. */
  predicate AtMost(items: seq<string>, count: nat, length: nat) {
    |items| <= count && forall k :: 0 <= k < |items| ==> |items[k]| <= length
  }

  predicate AllDistinct(items: seq<string>) {
    forall j, k :: 0 <= j < |items| && 0 <= k < |items| && j != k ==> items[j] != items[k]
  }

  // ----- steps and environments

  /** A duration from zero to 24 hours, if one is given. */
  predicate UpToADay(t: Option<Duration>) {
    t.Some? ==> t.value.Nanos? && 0 <= t.value.n <= 86_400_000_000_000
  }

  /** A positive build timeout bounds the timeout of a step; no timeout, and zero, do not. */
  predicate WithinBuild(t: Option<Duration>, build: Option<Duration>) {
    t.Some? && t.value.Nanos? && build.Some? && build.value.Nanos? && build.value.n != 0 ==> t.value.n <= build.value.n
  }

  predicate StepAsDocumented(v: BuildValue, i: nat)
    requires i < |v.steps|
  {
    var s := v.steps[i];
    && s.name != "" && |s.name| <= 1000
    && AtMost(s.args, 100, 4000)
    && |s.dir| <= 1000
    && AtMost(s.env, 100, 1000)
    && (forall k :: 0 <= k < |s.env| ==> '=' in s.env[k])
    && UpToADay(s.timeout) && WithinBuild(s.timeout, v.timeout)
    && (s.id == "" || (s.id != "-" && forall j :: 0 <= j < i ==> v.steps[j].id != s.id))
    && forall k :: 0 <= k < |s.waitFor| ==>
         || s.waitFor[k] == "-"
         || (s.waitFor[k] != "" && exists j :: 0 <= j < i && v.steps[j].id == s.waitFor[k])
  }

  predicate StepsAsDocumented(v: BuildValue) {
    && UpToADay(v.timeout)
    && 1 <= |v.steps| <= 100
    && (forall i :: 0 <= i < |v.steps| ==> StepAsDocumented(v, i))
    && AtMost(v.options.env, 100, 1000)
  }

  lemma AtMostIff(items: seq<string>, count: nat, length: nat)
    ensures AtMost(items, count, length) <==> |items| <= count && forall s :: s in items ==> |s| <= length
  {
    assert forall k :: 0 <= k < |items| ==> items[k] in items;
  }

  lemma TimeoutIff(t: Option<Duration>, build: Option<Duration>)
    requires BuildTimeoutOk(build)
    ensures TimeoutOk(t, StepLimit(BuildTimeout(build))) <==> UpToADay(t) && WithinBuild(t, build)
  {
  }

  lemma StepIff(v: BuildValue, i: nat)
    requires i < |v.steps| && BuildTimeoutOk(v.timeout)
    ensures StepOk(v.steps, i, StepLimit(BuildTimeout(v.timeout))) && EnvsOk(v.steps[i].env)
            <==> StepAsDocumented(v, i)
  {
    hide AtMost, TimeoutOk, StepLimit, BuildTimeout, UpToADay, WithinBuild, BuildTimeoutOk;
    var s := v.steps[i];
    TimeoutIff(s.timeout, v.timeout);
    AtMostIff(s.args, 100, 4000);
    AtMostIff(s.env, 100, 1000);
    assert forall k :: 0 <= k < |s.env| ==> s.env[k] in s.env;
    assert forall k :: 0 <= k < |s.waitFor| ==> s.waitFor[k] in s.waitFor;
  }

  lemma EnvsIff(envs: seq<string>)
    ensures AtMost(envs, 100, 1000) <==> EnvsOk(envs)
  {
    AtMostIff(envs, 100, 1000);
  }

  /** The limits on steps, timeouts and environments are the documented ones. */
  lemma StepsIff(v: BuildValue)
    ensures StepsAsDocumented(v)
            <==> BuildTimeoutOk(v.timeout) && StepsOk(v.steps, BuildTimeout(v.timeout)) && EnvVarsOk(v.options, v.steps)
  {
    hide AtMost, StepOk, StepAsDocumented, EnvsOk, BuildTimeout;
    if BuildTimeoutOk(v.timeout) {
      forall i | 0 <= i < |v.steps|
        ensures StepOk(v.steps, i, StepLimit(BuildTimeout(v.timeout))) && EnvsOk(v.steps[i].env)
                <==> StepAsDocumented(v, i)
      {
        StepIff(v, i);
      }
      EnvsIff(v.options.env);
    }
  }

  // ----- substitutions

  /** `^_[A-Z0-9_]+$` */
  predicate IsUserName(key: string) {
    |key| >= 2 && key[0] == '_' && forall c :: c in key[1..] ==> c in LETTERS || c in DIGITS
  }

  /** The keys the command-line flag may set; the build's own two names are not among them. */
  const SOURCE_NAMES := {"REPO_NAME", "BRANCH_NAME", "TAG_NAME", "REVISION_ID", "COMMIT_SHA", "SHORT_SHA"}
  const OWN_NAMES := {"PROJECT_ID", "BUILD_ID"}

  predicate SubstitutionsAsDocumented(m: Replacements, fromFlag: bool) {
    && |m| <= 100
    && forall key :: key in m ==>
         && |key| <= 100 && |m[key]| <= 4000
         && (IsUserName(key) || (fromFlag && key in SOURCE_NAMES))
  }

  lemma UserNameIff(key: string)
    ensures IsUserName(key) <==> IsUserKey(key)
  {
    hide IsKeyChar;
    forall c ensures IsKeyChar(c) <==> c in LETTERS || c in DIGITS {
      KeyAlphabet(c);
    }
    assert |key| >= 1 ==> forall j :: 1 <= j < |key| ==> key[1..][j - 1] == key[j];
  }

  lemma BuiltInsIff(key: string)
    ensures IsBuiltIn(key) <==> key in SOURCE_NAMES + OWN_NAMES
    ensures IsOverridable(key) <==> key in SOURCE_NAMES
  {
  }

  /** The keys that may be set, and the limits, are the documented ones. */
  lemma SubstitutionsIff(m: Replacements)
    ensures SubstitutionsAsDocumented(m, true) <==> SubstitutionsLooseOk(m)
    ensures SubstitutionsAsDocumented(m, false) <==> SubstitutionsOk(m)
  {
    hide IsUserName, IsUserKey, IsOverridable;
    forall key ensures (IsUserName(key) <==> IsUserKey(key)) && (key in SOURCE_NAMES <==> IsOverridable(key)) {
      UserNameIff(key);
      BuiltInsIff(key);
    }
  }

  // ----- templates

  /** The fields whose parameters are checked. */
  predicate IsTemplate(v: BuildValue, f: string) {
    || (exists s :: s in v.steps && (f == s.name || f in s.args || f in s.env || f == s.dir || f == s.entrypoint))
    || f in v.images || f in v.tags
    || (v.ArtifactObjects().Some? &&
          (f == v.ArtifactObjects().value.location || f in v.ArtifactObjects().value.paths))
  }

  /** A field refers to `key`. */
  ghost predicate Mentions(v: BuildValue, key: string) {
    exists f, p :: IsTemplate(v, f) && p in Scan(f, 0) && !p.Escape && p.Key == key
  }

  /** Every key mentioned is a substitution or the name of a built-in one, and every substitution is
      mentioned. With ALLOW_LOOSE a user-defined key need not be a substitution, nor a substitution be
      mentioned. */
  ghost predicate TemplateAsDocumented(v: BuildValue) {
    && (forall key :: Mentions(v, key) ==>
          || key in v.substitutions || key in SOURCE_NAMES + OWN_NAMES
          || (v.options.allowLoose && IsUserName(key)))
    && (v.options.allowLoose || forall key :: key in v.substitutions ==> Mentions(v, key))
  }

  lemma {:induction false} ParameterOfKey(ps: seq<TemplateParameter>, key: string)
    requires key in KeysOf(ps)
    ensures exists p :: p in ps && !p.Escape && p.Key == key
  {
    if !ps[0].Escape && ps[0].Key == key {
      assert ps[0] in ps;
    } else {
      ParameterOfKey(ps[1..], key);
      var p :| p in ps[1..] && !p.Escape && p.Key == key;
      assert p in ps;
    }
  }

  lemma {:induction false} FieldOfKey(fields: seq<string>, key: string)
    requires key in KeysOfAll(fields)
    ensures exists f, p :: f in fields && p in Scan(f, 0) && !p.Escape && p.Key == key
  {
    hide Scan, KeysOf;
    if key in Keys(fields[0]) {
      ParameterOfKey(Scan(fields[0], 0), key);
      var p :| p in Scan(fields[0], 0) && !p.Escape && p.Key == key;
      assert fields[0] in fields;
    } else {
      FieldOfKey(fields[1..], key);
      var f, p :| f in fields[1..] && p in Scan(f, 0) && !p.Escape && p.Key == key;
      assert f in fields;
    }
  }

  lemma TemplateFields(v: BuildValue, f: string)
    ensures IsTemplate(v, f) <==> f in ScannedFields(v)
  {
    hide ScannedFields;
    ScannedFieldsIff(v, f);
  }

  lemma MentionsIff(v: BuildValue, key: string)
    ensures Mentions(v, key) <==> key in ScannedKeys(v)
  {
    hide Scan, KeysOfAll, ScannedFields, IsTemplate;
    forall f ensures IsTemplate(v, f) <==> f in ScannedFields(v) {
      TemplateFields(v, f);
    }
    if Mentions(v, key) {
      var f, p :| IsTemplate(v, f) && p in Scan(f, 0) && !p.Escape && p.Key == key;
      FieldKeys(ScannedFields(v), f, p);
    }
    if key in ScannedKeys(v) {
      FieldOfKey(ScannedFields(v), key);
    }
  }

  lemma {:induction false} NoWarningsIff(subs: Replacements, keys: seq<string>)
    ensures UnmatchedWarnings(subs, keys) == [] <==> forall key :: key in keys ==> !IsUnmatched(subs, key)
  {
    hide IsUnmatched;
    if keys != [] {
      NoWarningsIff(subs, keys[1..]);
    }
  }

  lemma BuiltInIsNoUserName(key: string)
    requires key in SOURCE_NAMES + OWN_NAMES
    ensures !IsUserName(key)
  {
    hide LETTERS, DIGITS;
  }

  /** Templates are refused exactly as documented, and let pass by ALLOW_LOOSE exactly as documented. */
  lemma TemplateIff(v: BuildValue)
    ensures TemplateAsDocumented(v) <==> TemplateOk(v)
  {
    hide Mentions, ScannedKeys, IsUserName, IsUserKey, IsBuiltIn;
    forall key
      ensures (Mentions(v, key) <==> key in ScannedKeys(v)) && (IsUserName(key) <==> IsUserKey(key))
      ensures IsBuiltIn(key) <==> key in SOURCE_NAMES + OWN_NAMES
      ensures !(IsUserKey(key) && IsBuiltIn(key))
    {
      MentionsIff(v, key);
      UserNameIff(key);
      BuiltInsIff(key);
      if key in SOURCE_NAMES + OWN_NAMES {
        BuiltInIsNoUserName(key);
      }
    }
    NoWarningsIff(v.substitutions, ScannedKeys(v));
    assert UnusedKeys(v) == {} <==> forall key :: key in v.substitutions ==> key in ScannedKeys(v);
  }

  // ----- artifacts

  predicate ArtifactsAsDocumented(v: BuildValue) {
    && (v.images != [] && v.ArtifactImages() != [] ==> v.images == v.ArtifactImages())
    && AtMost(v.images, 100, 1000) && AtMost(v.ArtifactImages(), 100, 1000)
    && (v.ArtifactObjects().Some? ==>
          var o := v.ArtifactObjects().value;
          && "gs://" <= o.location
          && 1 <= |o.paths| <= 100 && AllDistinct(o.paths)
          && forall k :: 0 <= k < |o.paths| ==> !HasSpace(o.paths[k]))
  }

  lemma PathsIff(paths: seq<string>)
    ensures PathsOk(paths) <==> AllDistinct(paths) && forall k :: 0 <= k < |paths| ==> !HasSpace(paths[k])
  {
    hide HasSpace;
    assert forall k :: 0 <= k < |paths| ==> paths[k] in paths;
  }

  lemma ArtifactsIff(v: BuildValue)
    ensures ArtifactsAsDocumented(v) <==> ArtifactsOk(v)
  {
    hide AtMost, PathsOk, AllDistinct, HasSpace;
    AtMostIff(v.images, 100, 1000);
    AtMostIff(v.ArtifactImages(), 100, 1000);
    if v.ArtifactObjects().Some? {
      PathsIff(v.ArtifactObjects().value.paths);
    }
  }

  // ----- volumes

  const LOWER := "abcdefghijklmnopqrstuvwxyz"
  const UPPER := "ABCDEFGHIJKLMNOPQRSTUVWXYZ"

  predicate IsLetterOrDigit(c: char) {
    c in LOWER || c in UPPER || c in DIGITS
  }

  /** `^[a-zA-Z0-9][a-zA-Z0-9_.-]+$`, an absolute path, and none that is reserved. */
  predicate VolumeAsDocumented(clean: string -> string, vol: Volume) {
    var path := clean(vol.path);
    && |vol.name| >= 2 && IsLetterOrDigit(vol.name[0])
    && (forall c :: c in vol.name[1..] ==> IsLetterOrDigit(c) || c == '_' || c == '.' || c == '-')
    && clean(path) != "" && clean(path)[0] == '/'
    && path != "/workspace" && path != "/builder/home" && path != "/var/run/docker.sock"
    && !("/cloudbuild/" <= path)
  }

  predicate VolumeListAsDocumented(clean: string -> string, vs: seq<Volume>) {
    && (forall k :: 0 <= k < |vs| ==> VolumeAsDocumented(clean, vs[k]))
    && forall j, k :: 0 <= j < |vs| && 0 <= k < |vs| && j != k ==>
         vs[j].name != vs[k].name && clean(vs[j].path) != clean(vs[k].path)
  }

  predicate Mounts(s: StepValue, name: string) {
    exists w :: w in s.volumes && w.name == name
  }

  /** A local volume has neither the name nor the path, as given, of a global one, and another step than
      the `i`th mounts it too. */
  predicate LocalAsDocumented(v: BuildValue, i: nat, vol: Volume) {
    && (forall g :: g in v.options.volumes ==> g.name != vol.name && g.path != vol.path)
    && exists j :: 0 <= j < |v.steps| && j != i && Mounts(v.steps[j], vol.name)
  }

  /** Global volumes need two steps. */
  predicate VolumesAsDocumented(clean: string -> string, v: BuildValue) {
    && (v.options.volumes != [] ==> |v.steps| >= 2)
    && VolumeListAsDocumented(clean, v.options.volumes)
    && (forall i :: 0 <= i < |v.steps| ==> VolumeListAsDocumented(clean, v.steps[i].volumes))
    && forall i, vol :: 0 <= i < |v.steps| && vol in v.steps[i].volumes ==> LocalAsDocumented(v, i, vol)
  }

  lemma AlphaNumericIff(c: char)
    ensures IsAlphaNumeric(c) <==> IsLetterOrDigit(c)
  {
  }

  lemma OtherNameByte(c: char)
    ensures c in "_.-" <==> c == '_' || c == '.' || c == '-'
  {
  }

  lemma VolumeIff(clean: string -> string, vol: Volume)
    ensures VolumeAsDocumented(clean, vol) <==> VolumeOk(clean, vol)
  {
    hide IsAlphaNumeric, IsLetterOrDigit;
    forall c
      ensures IsAlphaNumeric(c) <==> IsLetterOrDigit(c)
      ensures c in "_.-" <==> c == '_' || c == '.' || c == '-'
    {
      AlphaNumericIff(c);
      OtherNameByte(c);
    }
    assert |vol.name| >= 1 ==> forall k :: 1 <= k < |vol.name| ==> vol.name[1..][k - 1] == vol.name[k];
    var path := clean(vol.path);
    assert HasPrefix(clean(path), "/") <==> clean(path) != "" && clean(path)[0] == '/';
    assert HasPrefix(path, "/cloudbuild/") <==> "/cloudbuild/" <= path;
  }

  lemma VolumeListIff(clean: string -> string, vs: seq<Volume>)
    ensures VolumeListAsDocumented(clean, vs) <==> VolumeListOk(clean, vs)
  {
    hide VolumeAsDocumented, VolumeOk;
    forall k | 0 <= k < |vs| ensures VolumeAsDocumented(clean, vs[k]) <==> VolumeOk(clean, vs[k]) {
      VolumeIff(clean, vs[k]);
    }
  }

  lemma MountsIff(s: StepValue, name: string)
    ensures Mounts(s, name) <==> Uses(s, name)
  {
  }

  lemma UsedTwiceIff(steps: seq<StepValue>, i: nat, name: string)
    requires i < |steps| && Uses(steps[i], name)
    ensures UsedTwice(steps, name) <==> exists j :: 0 <= j < |steps| && j != i && Mounts(steps[j], name)
  {
    hide Uses, Mounts;
    forall j | 0 <= j < |steps| ensures Mounts(steps[j], name) <==> Uses(steps[j], name) {
      MountsIff(steps[j], name);
    }
    if UsedTwice(steps, name) {
      var j, k :| 0 <= j < k < |steps| && Uses(steps[j], name) && Uses(steps[k], name);
      assert j != i || k != i;
    }
    if j :| 0 <= j < |steps| && j != i && Uses(steps[j], name) {
      assert j < i || i < j;
    }
  }

  lemma LocalIff(v: BuildValue, i: nat, vol: Volume)
    requires i < |v.steps| && vol in v.steps[i].volumes
    ensures LocalAsDocumented(v, i, vol)
            <==> && (forall g :: g in v.options.volumes ==> vol.name != g.name && vol.path != g.path)
                 && UsedTwice(v.steps, vol.name)
  {
    hide Mounts, UsedTwice;
    assert Uses(v.steps[i], vol.name);
    hide Uses;
    UsedTwiceIff(v.steps, i, vol.name);
  }

  lemma LocalsIff(v: BuildValue)
    ensures (forall i, vol :: 0 <= i < |v.steps| && vol in v.steps[i].volumes ==> LocalAsDocumented(v, i, vol))
            <==> && (forall i :: 0 <= i < |v.steps| ==> NoConflict(v.options.volumes, v.steps[i]))
                 && forall name :: (exists i :: 0 <= i < |v.steps| && Uses(v.steps[i], name)) ==>
                      UsedTwice(v.steps, name)
  {
    hide LocalAsDocumented, UsedTwice;
    forall i, vol | 0 <= i < |v.steps| && vol in v.steps[i].volumes
      ensures Uses(v.steps[i], vol.name)
      ensures LocalAsDocumented(v, i, vol)
              <==> && (forall g :: g in v.options.volumes ==> vol.name != g.name && vol.path != g.path)
                   && UsedTwice(v.steps, vol.name)
    {
      LocalIff(v, i, vol);
    }
  }

  /** The conditions on volumes are the documented ones. */
  lemma VolumesIff(clean: string -> string, v: BuildValue)
    ensures VolumesAsDocumented(clean, v) <==> VolumesOk(clean, v.options.volumes, v.steps)
  {
    LocalsIff(v);
    hide VolumeListAsDocumented, VolumeListOk, UsedTwice, Uses, NoConflict, LocalAsDocumented;
    VolumeListIff(clean, v.options.volumes);
    forall i | 0 <= i < |v.steps|
      ensures VolumeListAsDocumented(clean, v.steps[i].volumes) <==> VolumeListOk(clean, v.steps[i].volumes)
    {
      VolumeListIff(clean, v.steps[i].volumes);
    }
  }

  // ----- secrets

  /** Step `i`, or every step, uses the secret variable. */
  predicate IsUsed(v: BuildValue, name: string) {
    name in v.options.secretEnv || exists i :: 0 <= i < |v.steps| && name in v.steps[i].secretEnv
  }

  predicate IsDefined(v: BuildValue, name: string) {
    exists k :: 0 <= k < |v.secrets| && name in v.secrets[k].secretEnv
  }

  /** A step uses no name twice, by itself or because all steps do. */
  predicate UsesOnce(v: BuildValue, i: nat)
    requires i < |v.steps|
  {
    && AllDistinct(v.steps[i].secretEnv)
    && forall name :: name in v.steps[i].secretEnv ==> name !in v.options.secretEnv
  }

  /** Every secret defines something, nothing larger than 64 KiB, and no two secrets have the same key or
      define the same name. */
  predicate DefinesOnce(secrets: seq<Secret>) {
    && (forall k :: 0 <= k < |secrets| ==>
          && |secrets[k].secretEnv| > 0
          && forall name :: name in secrets[k].secretEnv ==> |secrets[k].secretEnv[name]| <= 65536)
    && forall j, k :: 0 <= j < |secrets| && 0 <= k < |secrets| && j != k ==>
         && secrets[j].kmsKeyName != secrets[k].kmsKeyName
         && forall name :: name in secrets[j].secretEnv ==> name !in secrets[k].secretEnv
  }

  /** The names used are the names defined, at most 100. */
  ghost predicate SecretsAsDocumented(v: BuildValue) {
    && AllDistinct(v.options.secretEnv)
    && (forall i :: 0 <= i < |v.steps| ==> UsesOnce(v, i))
    && DefinesOnce(v.secrets)
    && (forall name :: IsUsed(v, name) <==> IsDefined(v, name))
    && |set k, name | 0 <= k < |v.secrets| && name in v.secrets[k].secretEnv :: name| <= 100
  }

  /** No environment entry a step runs with sets a secret variable it uses; the name is what stands before
      the first `=`. */
  predicate NoEntrySetsSecret(v: BuildValue, i: nat)
    requires i < |v.steps|
  {
    var s := v.steps[i];
    forall e, name :: e in v.options.env + s.env && name in v.options.secretEnv + s.secretEnv ==>
      '=' in name || !(name + "=" <= e)
  }

  lemma EntrySetsIff(e: string, name: string)
    requires '=' in e
    ensures EnvKey(e) == name <==> '=' !in name && name + "=" <= e
  {
    var n := IndexOf(e, '=');
    assert ['='] == "=";
    if '=' !in name && name + "=" <= e {
      assert e == name + ['='] + e[|name| + 1..];
      IndexOfAppend(name, '=', e[|name| + 1..]);
    }
    if EnvKey(e) == name {
      assert e[..n + 1] == e[..n] + [e[n]];
    }
  }

  lemma ClashIff(v: BuildValue, i: nat)
    requires i < |v.steps| && KeysOk(v.options, v.steps[i])
    ensures NoEntrySetsSecret(v, i) <==> NoClash(v.options, v.steps[i])
  {
    hide EnvKey;
    var s := v.steps[i];
    forall e, name | e in v.options.env + s.env
      ensures EnvKey(e) == name <==> '=' !in name && name + "=" <= e
    {
      EntrySetsIff(e, name);
    }
  }

  lemma DistinctIff(items: seq<string>)
    ensures AllDistinct(items) <==> NoDuplicates(items)
  {
  }

  lemma DefinesOnceIff(secrets: seq<Secret>)
    ensures DefinesOnce(secrets)
            <==> DistinctSecrets(secrets) && forall k :: 0 <= k < |secrets| ==> SizesOk(secrets[k])
  {
    forall k | 0 <= k < |secrets| ensures |secrets[k].secretEnv| > 0 <==> secrets[k].secretEnv != map[] {
      assert |secrets[k].secretEnv| == 0 ==> secrets[k].secretEnv == map[];
    }
  }

  lemma UsedNamesIff(v: BuildValue, name: string)
    ensures name in UsedNames(v.options.secretEnv, v.steps, |v.steps|) <==> IsUsed(v, name)
  {
  }

  lemma DefinedNamesIff(v: BuildValue)
    ensures forall name :: name in DefinedNames(v.secrets, |v.secrets|) <==> IsDefined(v, name)
    ensures (set k, name | 0 <= k < |v.secrets| && name in v.secrets[k].secretEnv :: name)
            == DefinedNames(v.secrets, |v.secrets|)
  {
  }

  lemma SecretNamesIff(v: BuildValue)
    ensures SecretsAsDocumented(v) <==> NamesOk(v.options.secretEnv, v.steps, v.secrets)
  {
    hide AllDistinct, NoDuplicates, DefinesOnce, DistinctSecrets, SizesOk, UsedNames, DefinedNames, IsUsed, IsDefined;
    DistinctIff(v.options.secretEnv);
    forall i | 0 <= i < |v.steps| ensures UsesOnce(v, i) <==> StepSecretsOk(v.options.secretEnv, v.steps[i]) {
      DistinctIff(v.steps[i].secretEnv);
    }
    hide UsesOnce, StepSecretsOk;
    DefinesOnceIff(v.secrets);
    DefinedNamesIff(v);
    var used, defined := UsedNames(v.options.secretEnv, v.steps, |v.steps|), DefinedNames(v.secrets, |v.secrets|);
    forall name ensures name in used <==> IsUsed(v, name) {
      UsedNamesIff(v, name);
    }
    assert used == defined <==> forall name :: name in used <==> name in defined;
  }

  predicate EntriesHaveKeys(v: BuildValue) {
    && (forall e :: e in v.options.env ==> '=' in e)
    && forall i, e :: 0 <= i < |v.steps| && e in v.steps[i].env ==> '=' in e
  }

  lemma EntriesIff(v: BuildValue)
    requires v.steps != []
    ensures EntriesHaveKeys(v) <==> forall i :: 0 <= i < |v.steps| ==> KeysOk(v.options, v.steps[i])
  {
    if forall i :: 0 <= i < |v.steps| ==> KeysOk(v.options, v.steps[i]) {
      assert KeysOk(v.options, v.steps[0]);
      forall e | e in v.options.env ensures '=' in e {
        assert e in v.options.env + v.steps[0].env;
      }
      forall i, e | 0 <= i < |v.steps| && e in v.steps[i].env ensures '=' in e {
        assert e in v.options.env + v.steps[i].env;
      }
    }
  }

  /** The conditions on secrets are the documented ones, for a build with at least one step. */
  lemma SecretsIff(v: BuildValue)
    requires v.steps != []
    ensures SecretsOk(v.options, v.steps, v.secrets)
            <==> && SecretsAsDocumented(v) && EntriesHaveKeys(v)
                 && forall i :: 0 <= i < |v.steps| ==> NoEntrySetsSecret(v, i)
  {
    hide SecretsAsDocumented, NamesOk, NoEntrySetsSecret, NoClash;
    SecretNamesIff(v);
    assert EntriesHaveKeys(v) <==> forall i :: 0 <= i < |v.steps| ==> KeysOk(v.options, v.steps[i]) by {
      EntriesIff(v);
    }
    hide KeysOk, EntriesHaveKeys;
    forall i | 0 <= i < |v.steps| && KeysOk(v.options, v.steps[i])
      ensures NoEntrySetsSecret(v, i) <==> NoClash(v.options, v.steps[i])
    {
      ClashIff(v, i);
    }
  }

  // ----- the pipeline

  /** After substitution: valid names of steps and images, and at most 64 tags, valid or empty. */
  predicate ResultAsDocumented(lib: Library, v: BuildValue) {
    && (forall i :: 0 <= i < |v.steps| ==> lib.imageTag(v.steps[i].name))
    && (forall i :: 0 <= i < |v.images| ==> lib.imageTag(v.images[i]))
    && |v.tags| <= 64
    && forall i :: 0 <= i < |v.tags| ==> v.tags[i] == "" || lib.buildTag(v.tags[i])
  }

  lemma ResultIff(lib: Library, v: BuildValue)
    ensures ResultAsDocumented(lib, v) <==> AfterOk(lib, v)
  {
    hide Sanitized;
    assert forall t :: t in Sanitized(v.tags) <==> t in v.tags && t != "";
    assert forall i :: 0 <= i < |v.tags| ==> v.tags[i] in v.tags;
    assert forall i :: 0 <= i < |v.images| ==> v.images[i] in v.images;
  }

  ghost predicate BuildAsDocumented(lib: Library, v: BuildValue) {
    && StepsAsDocumented(v)
    && SubstitutionsAsDocumented(v.substitutions, true)
    && ArtifactsAsDocumented(v)
    && TemplateAsDocumented(Normalized(v))
    && VolumesAsDocumented(lib.clean, v)
    && SecretsAsDocumented(v) && EntriesHaveKeys(v)
    && forall i :: 0 <= i < |v.steps| ==> NoEntrySetsSecret(v, i)
  }

  lemma BuildIff(lib: Library, v: BuildValue)
    ensures BuildAsDocumented(lib, v) <==> BuildOk(lib, v)
  {
    hide Normalized, StepOk, EnvsOk, StepAsDocumented, AtMost, UpToADay, SubstitutionsAsDocumented,
         SubstitutionsLooseOk, ArtifactsAsDocumented, ArtifactsOk, TemplateAsDocumented, TemplateOk,
         VolumesAsDocumented, VolumesOk,
         SecretsAsDocumented, SecretsOk, EntriesHaveKeys, NoEntrySetsSecret, BuildTimeout, BuildTimeoutOk;
    StepsIff(v);
    SubstitutionsIff(v.substitutions);
    ArtifactsIff(v);
    TemplateIff(Normalized(v));
    VolumesIff(lib.clean, v);
    if v.steps != [] {
      SecretsIff(v);
    }
  }

  /** The pipeline accepts exactly the builds that meet the documented conditions: the substitutions of the
      build and of the flag, the merged build, and the build after substitution. */
  lemma AcceptedAsDocumented(lib: Library, v: BuildValue, flags: Replacements)
    ensures PipelineAccepts(lib, v, flags)
            <==> && SubstitutionsAsDocumented(v.substitutions, false)
                 && SubstitutionsAsDocumented(flags, true)
                 && BuildAsDocumented(lib, v.(substitutions := v.substitutions + flags))
                 && ResultAsDocumented(lib, Processed(v, flags))
  {
    hide SubstitutionsAsDocumented, SubstitutionsOk, SubstitutionsLooseOk, BuildAsDocumented, BuildOk,
         ResultAsDocumented, AfterOk, Processed;
    SubstitutionsIff(v.substitutions);
    SubstitutionsIff(flags);
    BuildIff(lib, Merged(v, flags));
    ResultIff(lib, Processed(v, flags));
  }

  /** The pipeline panics exactly on a build that gets past all checks before the last and has a global
      environment entry without `=`. */
  lemma PanicsAsDocumented(lib: Library, v: BuildValue)
    ensures BuildPanics(lib, v)
            <==> && StepsAsDocumented(v)
                 && SubstitutionsAsDocumented(v.substitutions, true)
                 && ArtifactsAsDocumented(v)
                 && TemplateAsDocumented(Normalized(v))
                 && VolumesAsDocumented(lib.clean, v)
                 && SecretsAsDocumented(v)
                 && exists e :: e in v.options.env && '=' !in e
  {
    BuildPanicsIff(lib, v);
    hide Normalized, StepOk, EnvsOk, StepAsDocumented, AtMost, UpToADay, SubstitutionsAsDocumented,
         SubstitutionsLooseOk, ArtifactsAsDocumented, ArtifactsOk, TemplateAsDocumented, TemplateOk,
         VolumesAsDocumented, VolumesOk,
         SecretsAsDocumented, NamesOk, BuildTimeout, BuildTimeoutOk, BuildPanics;
    StepsIff(v);
    SubstitutionsIff(v.substitutions);
    ArtifactsIff(v);
    TemplateIff(Normalized(v));
    VolumesIff(lib.clean, v);
    SecretNamesIff(v);
  }
}
