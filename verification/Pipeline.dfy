/** The whole pipeline (common/common.go, SubstituteAndValidate, with CheckBuild and
    CheckBuildAfterSubstitutions of validate/validate.go): merge the flags, validate and normalize,
    substitute in place, validate again. */
module Pipeline {
  import opened GoStrings
  import opened Templates
  import opened BuildModel
  import opened Substitution
  import opened TemplateCheck
  import opened ArtifactsCheck
  import opened Steps
  import opened Volumes
  import opened Secrets
  import opened Tags

  const MAX_NUM_ENVS := 100
  const MAX_ENV_LENGTH := 1000

  /** Library functions whose code is not part of the repository: path.Clean and the regular
      expressions of an image name and of a tag. */
  datatype Library = Library(
    clean: string -> string,
    imageTag: string -> bool,
    buildTag: string -> bool)

  // ----- acceptance before substitution

  predicate EnvsOk(envs: seq<string>) {
    |envs| <= MAX_NUM_ENVS && forall e :: e in envs ==> |e| <= MAX_ENV_LENGTH
  }

  predicate EnvVarsOk(o: Options, steps: seq<StepValue>) {
    EnvsOk(o.env) && forall i :: 0 <= i < |steps| ==> EnvsOk(steps[i].env)
  }

  predicate BuildTimeoutOk(t: Option<Duration>) {
    t.Some? ==> t.value.Nanos? && 0 <= t.value.n <= MAX_TIMEOUT
  }

  /** The build timeout handed to the step check; zero when none is given. */
  function BuildTimeout(t: Option<Duration>): int {
    if t.Some? && t.value.Nanos? then t.value.n else 0
  }

  /** No key is invalid, and nothing deserves a warning unless warnings are allowed. */
  ghost predicate TemplateOk(v: BuildValue) {
    && (forall key :: key in ScannedKeys(v) ==> !IsInvalid(v.substitutions, key))
    && (v.options.allowLoose
        || (UnmatchedWarnings(v.substitutions, ScannedKeys(v)) == [] && UnusedKeys(v) == {}))
  }

  /** The checks up to the environment, on the build as given. */
  ghost predicate FrontOk(lib: Library, v: BuildValue) {
    && BuildTimeoutOk(v.timeout)
    && SubstitutionsLooseOk(v.substitutions)
    && ArtifactsOk(v)
    && StepsOk(v.steps, BuildTimeout(v.timeout))
    && TemplateOk(Normalized(v))
    && VolumesOk(lib.clean, v.options.volumes, v.steps)
    && EnvVarsOk(v.options, v.steps)
  }

  ghost predicate BuildOk(lib: Library, v: BuildValue) {
    FrontOk(lib, v) && SecretsOk(v.options, v.steps, v.secrets)
  }

  ghost predicate BuildPanics(lib: Library, v: BuildValue) {
    FrontOk(lib, v) && SecretsPanic(v.options, v.steps, v.secrets)
  }

  method CheckEnvs(envs: seq<string>) returns (ok: bool)
    ensures ok <==> EnvsOk(envs)
  {
    ok := CheckLengths(envs, MAX_ENV_LENGTH);
    ok := ok && |envs| <= MAX_NUM_ENVS;
  }

  method CheckEnvVars(o: Options, steps: seq<StepValue>) returns (ok: bool)
    ensures ok <==> EnvVarsOk(o, steps)
  {
    hide EnvsOk;
    ok := CheckEnvs(o.env);
    if !ok {
      return;
    }
    for i := 0 to |steps|
      invariant forall k :: 0 <= k < i ==> EnvsOk(steps[k].env)
    {
      ok := CheckEnvs(steps[i].env);
      if !ok {
        return;
      }
    }
    ok := true;
  }

  lemma NoWarnings(v: BuildValue, warnings: seq<Warning>)
    requires WarningsAre(v, warnings)
    ensures warnings == [] <==> UnmatchedWarnings(v.substitutions, ScannedKeys(v)) == [] && UnusedKeys(v) == {}
  {
  }

  method CheckTemplate(v: BuildValue) returns (ok: bool)
    ensures ok <==> TemplateOk(v)
  {
    hide WarningsAre, IsInvalid, ScannedKeys, UnusedKeys, UnmatchedWarnings;
    var missingSubs;
    ok, missingSubs := CheckSubstitutionTemplate(v);
    if ok {
      NoWarnings(v, missingSubs);
      ok := |missingSubs| == 0 || v.options.allowLoose;
    }
  }

  /** The checks that follow the normalization: they only read. */
  method CheckNormalized(lib: Library, v: BuildValue) returns (outcome: Outcome)
    ensures outcome.Accepted? || outcome.Panicked? <==>
              && StepsOk(v.steps, BuildTimeout(v.timeout)) && TemplateOk(v)
              && VolumesOk(lib.clean, v.options.volumes, v.steps) && EnvVarsOk(v.options, v.steps)
              && (SecretsOk(v.options, v.steps, v.secrets) || SecretsPanic(v.options, v.steps, v.secrets))
    ensures outcome.Accepted? ==> SecretsOk(v.options, v.steps, v.secrets)
    ensures outcome.Panicked? ==> SecretsPanic(v.options, v.steps, v.secrets)
  {
    hide StepsOk, TemplateOk, VolumesOk, EnvVarsOk, SecretsOk, SecretsPanic;
    var ok := CheckBuildSteps(v.steps, BuildTimeout(v.timeout));
    if !ok {
      return Rejected;
    }
    ok := CheckTemplate(v);
    if !ok {
      return Rejected;
    }
    ok := CheckVolumes(lib.clean, v.options.volumes, v.steps);
    if !ok {
      return Rejected;
    }
    ok := CheckEnvVars(v.options, v.steps);
    if !ok {
      return Rejected;
    }
    outcome := CheckSecrets(v.options, v.steps, v.secrets);
  }

  lemma AcceptsOrPanics(o: Options, steps: seq<StepValue>, secrets: seq<Secret>)
    ensures !(SecretsOk(o, steps, secrets) && SecretsPanic(o, steps, secrets))
  {
  }

  method CheckBuildTimeout(t: Option<Duration>) returns (ok: bool)
    ensures ok <==> BuildTimeoutOk(t)
  {
    match t
    case None => return true;
    case Some(InvalidDuration) => return false;
    case Some(Nanos(n)) => return !(n > MAX_TIMEOUT || n < 0);
  }

  method CheckHeader(t: Option<Duration>, substitutions: Replacements) returns (ok: bool)
    ensures ok <==> BuildTimeoutOk(t) && SubstitutionsLooseOk(substitutions)
  {
    hide SubstitutionsLooseOk;
    ok := CheckBuildTimeout(t);
    if ok {
      ok := CheckSubstitutionsLoose(substitutions);
    }
  }

  /** Normalization touches the images and the object location only. */
  lemma NormalizedKeeps(v: BuildValue)
    ensures var n := Normalized(v);
            && n.steps == v.steps && n.timeout == v.timeout && n.options == v.options && n.secrets == v.secrets
            && n.substitutions == v.substitutions && n.tags == v.tags && n.logsBucket == v.logsBucket
            && n.id == v.id && n.projectId == v.projectId && n.source == v.source && n.resolved == v.resolved
  {
  }

  method CheckBuild(lib: Library, b: Build) returns (outcome: Outcome)
    modifies b`Images, b`Artifacts, if b.Artifacts == null then {} else {b.Artifacts}
    modifies if b.Artifacts == null || b.Artifacts.Objects == null then {} else {b.Artifacts.Objects}
    ensures outcome.Accepted? <==> BuildOk(lib, old(b.Value()))
    ensures outcome.Panicked? <==> BuildPanics(lib, old(b.Value()))
    ensures outcome.Accepted? ==> b.Value() == Normalized(old(b.Value()))
    ensures outcome.Accepted? && b.Images.Length > 0 ==> b.SharesImages()
    ensures b.ImageArrays() <= old(b.ImageArrays())
    ensures b.ArtifactObjectsFootprint() == old(b.ArtifactObjectsFootprint())
  {
    hide SubstitutionsLooseOk, ArtifactsOk, StepsOk, TemplateOk, VolumesOk, EnvVarsOk, SecretsOk, SecretsPanic,
         StepValues, StepArrays, Normalized, BuildTimeoutOk, BuildTimeout;
    ghost var v := b.Value();
    var ok := CheckHeader(b.Timeout, b.Substitutions);
    ValueFrame(b);
    if !ok {
      return Rejected;
    }
    ok := CheckArtifacts(b);
    if !ok {
      return Rejected;
    }
    outcome := CheckNormalized(lib, b.Value());
    NormalizedKeeps(v);
    AcceptsOrPanics(v.options, v.steps, v.secrets);
  }

  // ----- acceptance after substitution

  predicate NamesAreImages(lib: Library, steps: seq<StepValue>) {
    forall i :: 0 <= i < |steps| ==> lib.imageTag(steps[i].name)
  }

  predicate AfterOk(lib: Library, v: BuildValue) {
    && NamesAreImages(lib, v.steps)
    && |v.tags| <= MAX_NUM_TAGS && All(lib.buildTag, Sanitized(v.tags))
    && All(lib.imageTag, v.images)
  }

  method CheckStepNames(lib: Library, steps: seq<BuildStep>) returns (ok: bool)
    ensures ok <==> NamesAreImages(lib, StepValues(steps))
  {
    for i := 0 to |steps|
      invariant forall k :: 0 <= k < i ==> lib.imageTag(steps[k].Name)
    {
      if !lib.imageTag(steps[i].Name) {
        assert StepValues(steps)[i].name == steps[i].Name;
        return false;
      }
    }
    return true;
  }

  method CheckImageNames(lib: Library, images: array<string>) returns (ok: bool)
    ensures ok <==> All(lib.imageTag, images[..])
  {
    for i := 0 to images.Length
      invariant forall k :: 0 <= k < i ==> lib.imageTag(images[k])
    {
      if !lib.imageTag(images[i]) {
        assert images[i] in images[..];
        return false;
      }
    }
    return true;
  }

  method ArrayOf(items: seq<string>) returns (a: array<string>)
    ensures fresh(a) && a[..] == items
  {
    a := new string[|items|](i requires 0 <= i < |items| => items[i]);
    assert a[..] == items;
  }

  /** The tags are replaced by the sanitized ones, or dropped when they are refused. */
  method ReplaceTags(lib: Library, b: Build) returns (ok: bool)
    modifies b`Tags
    ensures ok <==> |old(b.Tags[..])| <= MAX_NUM_TAGS && All(lib.buildTag, Sanitized(old(b.Tags[..])))
    ensures ok ==> b.Tags[..] == Sanitized(old(b.Tags[..]))
    ensures !ok ==> b.Tags[..] == []
  {
    hide Sanitized, All;
    var tags := SanitizeBuildTags(lib.buildTag, b.Tags[..]);
    b.Tags := ArrayOf(if tags.Some? then tags.value else []);
    ok := tags.Some?;
  }

  method CheckBuildAfterSubstitutions(lib: Library, b: Build) returns (ok: bool)
    modifies b`Tags
    ensures ok <==> AfterOk(lib, old(b.Value()))
    ensures ok ==> b.Value() == old(b.Value()).(tags := Sanitized(old(b.Tags[..])))
  {
    hide Sanitized, All, NamesAreImages, StepValues, StepArrays;
    ok := CheckStepNames(lib, b.Steps);
    ValueFrame(b);
    if !ok {
      return;
    }
    ok := ReplaceTags(lib, b);
    StepValuesFrame(b.Steps);
    if !ok {
      return;
    }
    ok := CheckImageNames(lib, b.Images);
  }

  // ----- the pipeline

  function Merged(v: BuildValue, flags: Replacements): BuildValue {
    v.(substitutions := v.substitutions + flags)
  }

  /** The build after normalization and substitution: both image lists are one slice by then. */
  function Processed(v: BuildValue, flags: Replacements): BuildValue {
    Substituted(Normalized(Merged(v, flags)), true)
  }

  function Result(v: BuildValue, flags: Replacements): BuildValue {
    var p := Processed(v, flags);
    p.(tags := Sanitized(p.tags))
  }

  ghost predicate PipelineAccepts(lib: Library, v: BuildValue, flags: Replacements) {
    && SubstitutionsOk(v.substitutions)
    && SubstitutionsLooseOk(flags)
    && BuildOk(lib, Merged(v, flags))
    && AfterOk(lib, Processed(v, flags))
  }

  /** Without images it makes no difference whether the empty lists are one. */
  lemma SharingNoImages(v: BuildValue, shared: bool)
    requires v.images == [] && v.ArtifactImages() == []
    ensures Substituted(v, shared) == Substituted(v, true)
  {
  }

  method MergeSubstitutions(b: Build, flags: Replacements)
    modifies b`Substitutions
    ensures b.Substitutions == old(b.Substitutions) + flags
  {
    var rest := flags.Keys;
    while rest != {}
      invariant rest <= flags.Keys
      invariant b.Substitutions == old(b.Substitutions) + (flags - rest)
    {
      var k :| k in rest;
      b.Substitutions := b.Substitutions[k := flags[k]];
      rest := rest - {k};
    }
    assert flags - {} == flags;
  }

  lemma NormalizedWithoutImages(v: BuildValue)
    ensures Normalized(v).images == [] ==> Normalized(v).ArtifactImages() == []
  {
  }

  /** Validation and, if it succeeds, substitution. */
  method CheckAndSubstitute(lib: Library, b: Build) returns (outcome: Outcome)
    requires b.Separate()
    modifies b, if b.Artifacts == null then {} else {b.Artifacts}
    modifies b.Tags, b.ImageArrays(), b.ArtifactObjectsFootprint(), b.Steps, StepArrays(b.Steps)
    ensures outcome.Accepted? <==> BuildOk(lib, old(b.Value()))
    ensures outcome.Panicked? <==> BuildPanics(lib, old(b.Value()))
    ensures outcome.Accepted? ==> b.Value() == Substituted(Normalized(old(b.Value())), true)
  {
    hide BuildOk, BuildPanics, Normalized, Substituted, StepValues, StepArrays, SeparateSteps;
    outcome := CheckBuild(lib, b);
    if outcome.Accepted? {
      ghost var n := b.Value();
      NormalizedWithoutImages(old(b.Value()));
      SubstituteBuildFields(b);
      if !b.SharesImages() {
        SharingNoImages(n, false);
      }
    }
  }

  /** SubstituteAndValidate: merge, validate, substitute, validate again. */
  method SubstituteAndValidate(lib: Library, b: Build, substMap: Replacements) returns (outcome: Outcome)
    requires b.Separate()
    modifies b, if b.Artifacts == null then {} else {b.Artifacts}
    modifies b.Tags, b.ImageArrays(), b.ArtifactObjectsFootprint(), b.Steps, StepArrays(b.Steps)
    ensures outcome.Accepted? <==> PipelineAccepts(lib, old(b.Value()), substMap)
    ensures outcome.Accepted? ==> b.Value() == Result(old(b.Value()), substMap)
    ensures outcome.Panicked? <==>
              && SubstitutionsOk(old(b.Substitutions)) && SubstitutionsLooseOk(substMap)
              && BuildPanics(lib, Merged(old(b.Value()), substMap))
  {
    hide BuildOk, BuildPanics, Normalized, Substituted, StepValues, StepArrays, SeparateSteps, SubstitutionsOk,
         SubstitutionsLooseOk, AfterOk, Sanitized;
    ghost var v := b.Value();
    var ok := CheckSubstitutions(b.Substitutions);
    if !ok {
      return Rejected;
    }
    ok := CheckSubstitutionsLoose(substMap);
    if !ok {
      return Rejected;
    }
    ValueFrame(b);
    MergeSubstitutions(b, substMap);
    StepValuesFrame(b.Steps);
    assert b.Value() == Merged(v, substMap);
    outcome := CheckAndSubstitute(lib, b);
    if outcome.Accepted? {
      ok := CheckBuildAfterSubstitutions(lib, b);
      if !ok {
        outcome := Rejected;
      }
    }
  }
}
