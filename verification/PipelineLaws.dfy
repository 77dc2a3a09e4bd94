/** What the pipeline of SubstituteAndValidate guarantees, and where it does not: facts that span the
    validator, the substituter and the executor. */
module PipelineLaws {
  import opened GoStrings
  import opened Utf8
  import opened Templates
  import opened TemplateLaws
  import opened ExpansionLaws
  import opened BuildModel
  import opened Substitution
  import opened TemplateCheck
  import opened ArtifactsCheck
  import opened Steps
  import opened Scheduler
  import opened Executor
  import opened Secrets
  import opened Tags
  import opened Pipeline

  /** The replacement table of a run. */
  function Table(v: BuildValue, flags: Replacements): Replacements {
    ReplacementsOf(Merged(v, flags))
  }

  lemma TableOfNormalized(v: BuildValue, flags: Replacements)
    ensures ReplacementsOf(Normalized(Merged(v, flags))) == Table(v, flags)
  {
  }

  // ----- images

  /** Both image loops run over the one list, so that every image is expanded twice. */
  lemma ImagesAreExpandedTwice(v: BuildValue, flags: Replacements)
    ensures var m, r := Table(v, flags), Result(v, flags);
            && r.images == ExpandAll(m, ExpandAll(m, AllImages(v)))
            && r.ArtifactImages() == r.images
  {
    hide Expand, ExpandAll, ExpandSteps, ExpandObjects, BuiltIns, Sanitized;
    TableOfNormalized(v, flags);
    NormalizedWithoutImages(Merged(v, flags));
  }

  ghost predicate RejectsDollars(imageTag: string -> bool) {
    forall s :: imageTag(s) ==> '$' !in s
  }

  /** Once is enough where the first expansion leaves no dollar. */
  lemma SecondExpansionIsIdle(m: Replacements, x: string)
    requires '$' !in Expand(m, x)
    ensures Expand(m, Expand(m, x)) == Expand(m, x)
  {
    hide Expand;
    ExpandDollarFree(m, Expand(m, x));
  }

  lemma AcceptedImages(lib: Library, v: BuildValue, flags: Replacements)
    requires PipelineAccepts(lib, v, flags)
    ensures All(lib.imageTag, Result(v, flags).images)
  {
    hide BuildOk, Processed, Sanitized;
  }

  /** In an accepted build an image comes out as if expanded once exactly when every dollar in it
      begins a reference whose value has no dollar. */
  lemma ImageIsExpandedOnceIff(lib: Library, v: BuildValue, flags: Replacements, i: nat)
    requires PipelineAccepts(lib, v, flags) && RejectsDollars(lib.imageTag)
    requires i < |AllImages(v)|
    ensures |Result(v, flags).images| == |AllImages(v)|
    ensures var m, x := Table(v, flags), AllImages(v)[i];
            Result(v, flags).images[i] == Expand(m, x) <==> Resolves(m, x, 0)
  {
    hide Expand, Resolves, BuildOk, SubstitutionsOk, SubstitutionsLooseOk, AllImages, Table;
    var m, x := Table(v, flags), AllImages(v)[i];
    ImagesAreExpandedTwice(v, flags);
    var images := Result(v, flags).images;
    AcceptedImages(lib, v, flags);
    hide Result, PipelineAccepts;
    assert images[i] == Expand(m, Expand(m, x));
    assert images[i] in images;
    assert x[0..] == x;
    DollarFreeIffResolves(m, x, 0);
    if Resolves(m, x, 0) {
      SecondExpansionIsIdle(m, x);
    }
  }

  // ----- facts that survive substitution

  lemma SlashKeepsPrefix(location: string)
    requires HasPrefix(location, GS_PREFIX)
    ensures HasPrefix(WithSlash(location), GS_PREFIX) && HasSuffix(WithSlash(location), "/")
  {
  }

  /** The object location is still a bucket directory after substitution. */
  lemma LocationSurvives(lib: Library, v: BuildValue, flags: Replacements)
    requires PipelineAccepts(lib, v, flags) && v.ArtifactObjects().Some?
    ensures var r := Result(v, flags).ArtifactObjects();
            && r.Some?
            && HasPrefix(r.value.location, GS_PREFIX)
            && HasSuffix(r.value.location, "/")
  {
    hide Expand, HasPrefix, HasSuffix, StepsOk, SubstitutionsOk, SubstitutionsLooseOk, SecretsOk, AfterOk,
         ExpandAll, ExpandSteps, BuiltIns, Sanitized, TemplateOk, AllImages;
    var m, location := Table(v, flags), v.ArtifactObjects().value.location;
    assert HasPrefix(location, GS_PREFIX);
    TableOfNormalized(v, flags);
    assert Result(v, flags).ArtifactObjects().value.location == Expand(m, WithSlash(location));
    hide PipelineAccepts, Result;
    SlashKeepsPrefix(location);
    PrefixSurvives(m, WithSlash(location), GS_PREFIX);
    assert ['/'] == "/";
    LastByteSurvives(m, WithSlash(location), '/');
  }

  /** An environment entry is split by its first `=` before substitution as after: the value never
      moves that sign. */
  lemma EnvEntryExpands(m: Replacements, e: string)
    requires '=' in e
    ensures var n := IndexOf(e, '=');
            Expand(m, e) == Expand(m, EnvKey(e)) + "=" + Expand(m, e[n + 1..])
    ensures '=' in Expand(m, e)
  {
    hide Expand;
    var n := IndexOf(e, '=');
    assert e == e[..n] + ['='] + e[n + 1..];
    ExpandAround(m, e[..n], '=', e[n + 1..]);
    var k, val := Expand(m, e[..n]), Expand(m, e[n + 1..]);
    assert ['='] == "=";
    assert (k + "=" + val)[|k|] == '=';
  }

  lemma EnvEntriesSurvive(lib: Library, v: BuildValue, flags: Replacements, i: nat, e: string)
    requires PipelineAccepts(lib, v, flags)
    requires i < |Result(v, flags).steps| && e in Result(v, flags).steps[i].env
    ensures '=' in e
  {
    hide Expand, SubstitutionsOk, SubstitutionsLooseOk, SecretsOk, AfterOk, BuiltIns, Sanitized, TemplateOk,
         ArtifactsOk, DependenciesOk, IdOk;
    var m := Table(v, flags);
    TableOfNormalized(v, flags);
    NormalizedKeeps(Merged(v, flags));
    assert Result(v, flags).steps == ExpandSteps(m, v.steps);
    assert StepOk(v.steps, i, StepLimit(BuildTimeout(v.timeout)));
    hide PipelineAccepts, Result;
    var k :| 0 <= k < |v.steps[i].env| && e == Expand(m, v.steps[i].env[k]);
    assert v.steps[i].env[k] in v.steps[i].env;
    EnvEntryExpands(m, v.steps[i].env[k]);
  }

  /** The step executor sees the dependencies that were validated: its plan is that of the build as
      given, and that build's steps were accepted. */
  lemma PlanSurvives(lib: Library, v: BuildValue, flags: Replacements)
    requires PipelineAccepts(lib, v, flags)
    ensures StepsOk(v.steps, BuildTimeout(v.timeout))
    ensures PlanOf(Result(v, flags).steps) == PlanOf(v.steps)
  {
    hide Expand, SubstitutionsOk, SubstitutionsLooseOk, SecretsOk, AfterOk, BuiltIns, Sanitized, TemplateOk,
         ArtifactsOk, StepsOk, WaitChansForStep;
    var m, steps := Table(v, flags), Result(v, flags).steps;
    TableOfNormalized(v, flags);
    NormalizedKeeps(Merged(v, flags));
    assert steps == ExpandSteps(m, v.steps);
    hide Result, PipelineAccepts;
    forall i: nat | i < |steps| ensures WaitChansForStep(steps, i) == WaitChansForStep(v.steps, i) {
      SameNamesSamePlan(steps, v.steps, i);
    }
  }

  /** What the executor makes of the steps that SubstituteAndValidate hands it: no deadlock, and success
      unless a step fails, somebody cancels or an image is missing. */
  lemma PipelineResultCompletes(lib: Library, v: BuildValue, flags: Replacements, events: seq<Event>)
    requires PipelineAccepts(lib, v, flags)
    requires IsRun(PlanOf(Result(v, flags).steps), START, events)
    requires Stuck(PlanOf(Result(v, flags).steps), After(PlanOf(Result(v, flags).steps), START, events))
    ensures var s := After(PlanOf(Result(v, flags).steps), START, events);
            s.main.Returned? && (Undisturbed(events) ==> s.main == Returned(true))
  {
    hide PipelineAccepts, Result, IsRun, After, Stuck, StepsOk;
    PlanSurvives(lib, v, flags);
    AcceptedBuildCompletes(v.steps, BuildTimeout(v.timeout), events);
  }

  // ----- the replacement table

  lemma AcceptedKeys(lib: Library, v: BuildValue, flags: Replacements, key: string)
    requires PipelineAccepts(lib, v, flags) && key in Merged(v, flags).substitutions
    ensures IsUserKey(key) || IsOverridable(key)
  {
    hide StepsOk, SecretsOk, AfterOk, TemplateOk, ArtifactsOk, IsUserKey, IsOverridable;
    var subs := Merged(v, flags).substitutions;
    assert EntryOk(key, subs[key]);
  }

  lemma NotOverridable()
    ensures !IsUserKey("PROJECT_ID") && !IsOverridable("PROJECT_ID")
    ensures !IsUserKey("BUILD_ID") && !IsOverridable("BUILD_ID")
  {
  }

  /** The project and the build keep their own names, and the configuration gives way to the flags. */
  lemma TableOfAcceptedBuild(lib: Library, v: BuildValue, flags: Replacements)
    requires PipelineAccepts(lib, v, flags)
    ensures var m := Table(v, flags);
            && Lookup(m, "PROJECT_ID") == v.projectId && Lookup(m, "BUILD_ID") == v.id
            && (forall key :: key in flags ==> m[key] == flags[key])
            && (forall key :: key in v.substitutions && key !in flags ==> m[key] == v.substitutions[key])
  {
    hide BuiltIns;
    forall key | key in Merged(v, flags).substitutions ensures IsUserKey(key) || IsOverridable(key) {
      AcceptedKeys(lib, v, flags, key);
    }
    NotOverridable();
    hide PipelineAccepts, IsUserKey, IsOverridable;
    OwnNames(Merged(v, flags));
  }

  lemma NotUserKeys()
    ensures !IsUserKey("REPO_NAME") && !IsUserKey("BRANCH_NAME") && !IsUserKey("TAG_NAME")
    ensures !IsUserKey("REVISION_ID") && !IsUserKey("COMMIT_SHA") && !IsUserKey("SHORT_SHA")
  {
  }

  /** Unless a flag overrides it, the name of the repository is that of the source; a build of a branch
      has its name and no tag, a build of a tag its name and no branch, and others have neither. */
  lemma SourceOfAcceptedBuild(lib: Library, v: BuildValue, flags: Replacements)
    requires PipelineAccepts(lib, v, flags)
    requires "REPO_NAME" !in flags && "BRANCH_NAME" !in flags && "TAG_NAME" !in flags
    ensures var m := Table(v, flags);
            var repo, branch, tag := Lookup(m, "REPO_NAME"), Lookup(m, "BRANCH_NAME"), Lookup(m, "TAG_NAME");
            match v.source
            case None => repo == branch == tag == ""
            case Some(RepoSource(name, BranchName(b))) => repo == name && branch == b && tag == ""
            case Some(RepoSource(name, TagName(t))) => repo == name && branch == "" && tag == t
            case Some(RepoSource(name, _)) => repo == name && branch == tag == ""
  {
    hide BuildOk, AfterOk, SubstitutionsLooseOk, IsUserKey, Processed;
    NotUserKeys();
  }

  /** Unless a flag overrides it, every name of the commit is that of the resolved commit, the short one
      being its first seven bytes, or all of it; a build file cannot override them. */
  lemma CommitOfAcceptedBuild(lib: Library, v: BuildValue, flags: Replacements)
    requires PipelineAccepts(lib, v, flags)
    requires "REVISION_ID" !in flags && "COMMIT_SHA" !in flags && "SHORT_SHA" !in flags
    ensures var m := Table(v, flags);
            var revision, sha, short := Lookup(m, "REVISION_ID"), Lookup(m, "COMMIT_SHA"), Lookup(m, "SHORT_SHA");
            match v.resolved
            case Some(RepoSource(_, CommitSha(c))) =>
              revision == c && sha == c && short <= c && |short| == if |c| < 7 then |c| else 7
            case _ => revision == sha == short == ""
  {
    hide BuildOk, AfterOk, SubstitutionsLooseOk, IsUserKey, Processed;
    NotUserKeys();
  }

  lemma NothingListed(n: BuildValue)
    requires UnmatchedWarnings(n.substitutions, ScannedKeys(n)) == [] && UnusedKeys(n) == {}
    ensures WarningsAre(n, [])
  {
  }

  /** Without ALLOW_LOOSE every parameter of a scanned field is an escape or bound. */
  lemma AcceptedBuildHasNoBlanks(lib: Library, v: BuildValue, flags: Replacements, f: string, p: TemplateParameter)
    requires PipelineAccepts(lib, v, flags) && !v.options.allowLoose
    requires f in ScannedFields(Normalized(Merged(v, flags))) && p in Scan(f, 0)
    ensures p.Escape || p.Key in Table(v, flags)
  {
    hide StepsOk, SecretsOk, AfterOk, ArtifactsOk, SubstitutionsOk, SubstitutionsLooseOk, ScannedFields,
         ScannedKeys, IsInvalid, Scan, UnmatchedWarnings, UnusedKeys, BuiltIns;
    var n := Normalized(Merged(v, flags));
    NormalizedKeeps(Merged(v, flags));
    TableOfNormalized(v, flags);
    assert TemplateOk(n);
    hide PipelineAccepts, Normalized;
    assert WarningsAre(n, []) by { NothingListed(n); }
    NoSilentBlanks(n, f, p);
  }

  /** The logs bucket is substituted but never scanned: acceptance before substitution does not depend
      on it, so a parameter in it may well be unbound and come out blank. */
  lemma LogsBucketIsNotScanned(lib: Library, v: BuildValue, logsBucket: string)
    ensures BuildOk(lib, v.(logsBucket := logsBucket)) <==> BuildOk(lib, v)
    ensures ScannedFields(v.(logsBucket := logsBucket)) == ScannedFields(v)
  {
    hide StepsOk, SecretsOk, SubstitutionsLooseOk, StepsFields, ObjectFields, ImagesOk, ObjectsOk, IsInvalid,
         KeysOfAll, UnmatchedWarnings;
    var w := v.(logsBucket := logsBucket);
    assert Normalized(w) == Normalized(v).(logsBucket := logsBucket);
    assert ScannedFields(Normalized(w)) == ScannedFields(Normalized(v));
    assert UnusedKeys(Normalized(w)) == UnusedKeys(Normalized(v));
  }

  // ----- secrets after substitution

  /** What is left of an expanded environment key once an `=` in it is taken for the separator. */
  function ExpandedKey(m: Replacements, e: string): string {
    EnvKey(Expand(m, EnvKey(e)))
  }

  lemma FirstCut(k: string, rest: string)
    ensures EnvKey(k + "=" + rest) == EnvKey(k)
  {
    var n := IndexOf(k, '=');
    var a := k[..n];
    if n < |k| {
      var b := k[n + 1..] + "=" + rest;
      assert k + "=" + rest == a + ['='] + b;
      IndexOfAppend(a, '=', b);
    } else {
      assert k + "=" + rest == a + ['='] + rest;
      IndexOfAppend(a, '=', rest);
    }
    assert (k + "=" + rest)[..n] == a;
  }

  lemma KeyOfExpandedEntry(m: Replacements, e: string)
    requires '=' in e
    ensures EnvKey(Expand(m, e)) == ExpandedKey(m, e)
  {
    hide Expand;
    EnvEntryExpands(m, e);
    FirstCut(Expand(m, EnvKey(e)), Expand(m, e[IndexOf(e, '=') + 1..]));
  }

  /** Substitution can give an environment variable the name of a secret. It does not exactly when the
      expanded keys of the step, and the global keys, which are not expanded, avoid the secrets. */
  lemma NoClashAfterSubstitutionIff(m: Replacements, o: Options, s: StepValue)
    requires KeysOk(o, s)
    ensures NoClash(o, ExpandStep(m, s))
            <==> forall se :: se in o.secretEnv + s.secretEnv ==>
                   && (forall e :: e in o.env ==> EnvKey(e) != se)
                   && (forall e :: e in s.env ==> ExpandedKey(m, e) != se)
  {
    hide Expand, EnvKey, ExpandedKey;
    var t := ExpandStep(m, s);
    forall k | 0 <= k < |s.env| ensures EnvKey(t.env[k]) == ExpandedKey(m, s.env[k]) {
      assert s.env[k] in o.env + s.env;
      KeyOfExpandedEntry(m, s.env[k]);
    }
    if NoClash(o, t) {
      forall se, e | se in o.secretEnv + s.secretEnv && e in s.env ensures ExpandedKey(m, e) != se {
        var k :| 0 <= k < |s.env| && s.env[k] == e;
        assert t.env[k] in o.env + t.env;
      }
    }
  }

  // ----- checks that are not repeated after substitution

  /** The expansion of `x` is within the limit, read off its parameters. */
  predicate Fits(m: Replacements, x: string, limit: nat) {
    ExpandedLength(m, x) <= limit
  }

  lemma LengthsFitIff(m: Replacements, items: seq<string>, limit: nat)
    ensures (forall y :: y in ExpandAll(m, items) ==> |y| <= limit) <==> forall x :: x in items ==> Fits(m, x, limit)
  {
    hide Expand, ExpandedLength;
    var r := ExpandAll(m, items);
    forall k | 0 <= k < |items| ensures |r[k]| <= limit <==> Fits(m, items[k], limit) {
      LengthOfExpansion(m, items[k]);
    }
    if forall y :: y in r ==> |y| <= limit {
      forall k | 0 <= k < |items| ensures Fits(m, items[k], limit) {
        assert r[k] in r;
      }
    }
  }

  predicate FieldsFit(m: Replacements, s: StepValue) {
    && 0 < ExpandedLength(m, s.name) <= MAX_STEP_NAME_LENGTH
    && (forall a :: a in s.args ==> Fits(m, a, MAX_ARG_LENGTH))
    && Fits(m, s.dir, MAX_DIR_LENGTH)
  }

  lemma FieldsOkAgainIff(m: Replacements, s: StepValue, limit: int)
    requires FieldsOk(s, limit)
    ensures FieldsOk(ExpandStep(m, s), limit) <==> FieldsFit(m, s)
  {
    hide Expand, ExpandedLength;
    LengthOfExpansion(m, s.name);
    LengthOfExpansion(m, s.dir);
    LengthsFitIff(m, s.args, MAX_ARG_LENGTH);
    hide Fits;
    forall k | 0 <= k < |s.env| ensures '=' in Expand(m, s.env[k]) {
      EnvEntryExpands(m, s.env[k]);
    }
  }

  lemma StepOkAgainIff(m: Replacements, steps: seq<StepValue>, i: nat, limit: int)
    requires i < |steps| && StepOk(steps, i, limit)
    ensures StepOk(ExpandSteps(m, steps), i, limit) <==> FieldsFit(m, steps[i])
  {
    hide FieldsOk, FieldsFit, Expand, ExpandAll;
    FieldsOkAgainIff(m, steps[i], limit);
    var ts := ExpandSteps(m, steps);
    hide ExpandSteps;
    forall d ensures IsIdBefore(ts, i, d) <==> IsIdBefore(steps, i, d) {
      if IsIdBefore(steps, i, d) {
        var j :| 0 <= j < i && steps[j].id == d;
        assert ts[j].id == d;
      }
    }
  }

  lemma ResultSteps(lib: Library, v: BuildValue, flags: Replacements)
    requires PipelineAccepts(lib, v, flags)
    ensures StepsOk(v.steps, BuildTimeout(v.timeout)) && EnvVarsOk(v.options, v.steps)
    ensures Result(v, flags).steps == ExpandSteps(Table(v, flags), v.steps)
  {
    hide Expand, SubstitutionsOk, SubstitutionsLooseOk, SecretsOk, AfterOk, BuiltIns, Sanitized, TemplateOk,
         ArtifactsOk, StepsOk, EnvVarsOk;
    TableOfNormalized(v, flags);
    NormalizedKeeps(Merged(v, flags));
  }

  lemma StepsOkAgain(m: Replacements, steps: seq<StepValue>, buildTimeout: int)
    requires StepsOk(steps, buildTimeout)
    ensures StepsOk(ExpandSteps(m, steps), buildTimeout)
            <==> forall i :: 0 <= i < |steps| ==> FieldsFit(m, steps[i])
  {
    hide StepOk, FieldsFit, ExpandSteps;
    forall i | 0 <= i < |steps|
      ensures StepOk(ExpandSteps(m, steps), i, StepLimit(buildTimeout)) <==> FieldsFit(m, steps[i])
    {
      StepOkAgainIff(m, steps, i, StepLimit(buildTimeout));
    }
  }

  /** The steps of an accepted build would pass their check again after substitution if and only if no
      name, argument or directory outgrows its limit, and no name vanishes. */
  lemma StepsOkAgainIff(lib: Library, v: BuildValue, flags: Replacements)
    requires PipelineAccepts(lib, v, flags)
    ensures StepsOk(Result(v, flags).steps, BuildTimeout(v.timeout))
            <==> forall i :: 0 <= i < |v.steps| ==> FieldsFit(Table(v, flags), v.steps[i])
  {
    ResultSteps(lib, v, flags);
    hide *;
    StepsOkAgain(Table(v, flags), v.steps, BuildTimeout(v.timeout));
  }

  predicate EnvFits(m: Replacements, s: StepValue) {
    forall e :: e in s.env ==> Fits(m, e, MAX_ENV_LENGTH)
  }

  lemma EnvVarsOkAgain(m: Replacements, o: Options, steps: seq<StepValue>)
    requires EnvVarsOk(o, steps)
    ensures EnvVarsOk(o, ExpandSteps(m, steps)) <==> forall i :: 0 <= i < |steps| ==> EnvFits(m, steps[i])
  {
    hide ExpandAll, Expand, ExpandSteps, Fits;
    forall i | 0 <= i < |steps| ensures EnvsOk(ExpandSteps(m, steps)[i].env) <==> EnvFits(m, steps[i]) {
      LengthsFitIff(m, steps[i].env, MAX_ENV_LENGTH);
    }
    hide EnvsOk, EnvFits;
  }

  /** The same of the environments. */
  lemma EnvVarsOkAgainIff(lib: Library, v: BuildValue, flags: Replacements)
    requires PipelineAccepts(lib, v, flags)
    ensures EnvVarsOk(v.options, Result(v, flags).steps)
            <==> forall i :: 0 <= i < |v.steps| ==> EnvFits(Table(v, flags), v.steps[i])
  {
    ResultSteps(lib, v, flags);
    hide *;
    EnvVarsOkAgain(Table(v, flags), v.options, v.steps);
  }

  predicate FitsTwice(m: Replacements, x: string, limit: nat) {
    ExpandedLength(m, x) + Growth(m, Scan(Expand(m, x), 0)) <= limit
  }

  lemma FitsTwiceIff(m: Replacements, x: string, limit: nat)
    ensures FitsTwice(m, x, limit) <==> Fits(m, Expand(m, x), limit)
  {
    hide Expand, Scan, Growth;
    LengthOfExpansion(m, x);
  }

  lemma AcceptedImagesFit(lib: Library, v: BuildValue, flags: Replacements)
    requires PipelineAccepts(lib, v, flags)
    ensures |AllImages(v)| <= MAX_NUM_IMAGES
  {
    hide SubstitutionsOk, SubstitutionsLooseOk, SecretsOk, AfterOk, TemplateOk, StepsOk, EnvVarsOk, ObjectsOk;
    assert AllImages(Merged(v, flags)) == AllImages(v);
    hide AllImages;
  }

  lemma ImagesOkAgain(m: Replacements, images: seq<string>)
    requires |images| <= MAX_NUM_IMAGES
    ensures ImagesOk(ExpandAll(m, ExpandAll(m, images)))
            <==> forall x :: x in images ==> FitsTwice(m, x, MAX_IMAGE_LENGTH)
  {
    hide Expand, Fits, FitsTwice;
    var once := ExpandAll(m, images);
    LengthsFitIff(m, once, MAX_IMAGE_LENGTH);
    forall k | 0 <= k < |images|
      ensures Fits(m, once[k], MAX_IMAGE_LENGTH) <==> FitsTwice(m, images[k], MAX_IMAGE_LENGTH)
    {
      FitsTwiceIff(m, images[k], MAX_IMAGE_LENGTH);
    }
    assert forall k :: 0 <= k < |images| ==> once[k] in once && images[k] in images;
  }

  /** The same of the images, which are expanded twice. */
  lemma ImagesOkAgainIff(lib: Library, v: BuildValue, flags: Replacements)
    requires PipelineAccepts(lib, v, flags)
    ensures ImagesOk(Result(v, flags).images)
            <==> forall x :: x in AllImages(v) ==> FitsTwice(Table(v, flags), x, MAX_IMAGE_LENGTH)
  {
    AcceptedImagesFit(lib, v, flags);
    ImagesAreExpandedTwice(v, flags);
    hide *;
    ImagesOkAgain(Table(v, flags), AllImages(v));
  }

  predicate ValuesStartRunes(m: Replacements) {
    forall key :: key in m ==> StartsRune(m[key])
  }

  lemma ValueStartsRune(m: Replacements, p: TemplateParameter)
    requires ValuesStartRunes(m)
    ensures StartsRune(ValueOf(m, p))
  {
  }

  lemma StartOfParts(a: string, b: string)
    requires StartsRune(a) && StartsRune(b)
    ensures StartsRune(a + b)
  {
  }

  /** A parameter is ASCII at both ends. */
  lemma ParameterEnds(s: string, p: TemplateParameter)
    requires IsParameter(s, p)
    ensures p.Start <= p.End < |s| && s[p.Start] == '$' && IsAscii(s[p.Start]) && IsAscii(s[p.End])
  {
    ParameterBytes(s, p, p.End);
    assert s[p.Start] == s[p.Start..p.End + 1][0];
  }

  lemma NextParameter(m: Replacements, s: string, i: nat)
    requires i <= |s| && Scan(s, i) != []
    ensures var ps := Scan(s, i);
            && Gap(m, s, i) && i <= ps[0].Start <= ps[0].End < |s| && IsParameter(s, ps[0])
            && ps[1..] == Scan(s, ps[0].End + 1)
  {
    GapBeforeParameter(m, s, i);
    ScanListsParameters(s, i);
    hide IsParameter, StartsNothing, Expand, Scan, ValueOf;
  }

  lemma SpaceOfThree(a: string, text: string, b: string)
    requires text != "" && IsAscii(text[0]) && StartsRune(b)
    ensures HasSpace(a + (text + b)) <==> HasSpace(a) || HasSpace(text) || HasSpace(b)
  {
    hide HasSpace;
    assert (text + b)[0] == text[0];
    SpaceOfParts(a, text + b);
    SpaceOfParts(text, b);
  }

  lemma TextIsAscii(s: string, p: TemplateParameter)
    requires IsParameter(s, p)
    ensures p.Start <= p.End < |s|
    ensures var text := s[p.Start..p.End + 1]; text != "" && IsAscii(text[0]) && IsAscii(text[|text| - 1])
  {
    ParameterEnds(s, p);
    hide IsParameter;
  }

  lemma WholeParts(a: string, text: string, b: string)
    requires Whole(a + (text + b)) && text != "" && IsAscii(text[|text| - 1])
    ensures StartsRune(a) && Whole(b) && StartsRune(b)
  {
    hide Whole;
    assert a + (text + b) == (a + text) + b;
    assert (a + text)[|a + text| - 1] == text[|text| - 1];
    WholeStartsRune(a + (text + b));
    assert a != "" ==> a[0] == (a + (text + b))[0];
    WholeAfterAscii(a + text, b);
    WholeStartsRune(b);
  }

  /** The text around the next parameter: both sides start a rune, and the right one is valid. */
  lemma AroundParameter(s: string, i: nat, p: TemplateParameter)
    requires i <= p.Start && IsParameter(s, p) && Whole(s[i..])
    ensures p.Start <= p.End < |s|
    ensures StartsRune(s[i..p.Start]) && Whole(s[p.End + 1..]) && StartsRune(s[p.End + 1..])
    ensures HasSpace(s[i..]) <==> HasSpace(s[i..p.Start]) || HasSpace(s[p.Start..p.End + 1]) || HasSpace(s[p.End + 1..])
  {
    hide *;
    TextIsAscii(s, p);
    var a, text, b := s[i..p.Start], s[p.Start..p.End + 1], s[p.End + 1..];
    assert s[i..] == a + (text + b);
    WholeParts(a, text, b);
    SpaceOfThree(a, text, b);
  }

  /** An expansion has white space only where a value brings it. */
  lemma {:induction false} SpaceIsFromValues(m: Replacements, s: string, i: nat)
    requires i <= |s| && Whole(s[i..]) && !HasSpace(s[i..]) && ValuesStartRunes(m)
    ensures StartsRune(Expand(m, s[i..]))
    ensures HasSpace(Expand(m, s[i..])) <==> exists p :: p in Scan(s, i) && HasSpace(ValueOf(m, p))
    decreases |s| - i
  {
    hide Expand, Scan, IsParameter, HasSpace, Whole, ValueOf, StartsRune, ValuesStartRunes;
    var ps := Scan(s, i);
    if ps == [] {
      GapBeforeParameter(m, s, i);
      WholeStartsRune(s[i..]);
    } else {
      var p := ps[0];
      NextParameter(m, s, i);
      AroundParameter(s, i, p);
      SpaceIsFromValues(m, s, p.End + 1);
      ValueStartsRune(m, p);
      var a, value, rest := s[i..p.Start], ValueOf(m, p), Expand(m, s[p.End + 1..]);
      StartOfParts(value, rest);
      StartOfParts(a, value + rest);
      SpaceOfParts(a, value + rest);
      SpaceOfParts(value, rest);
      assert ps == [p] + ps[1..];
    }
  }

  predicate NoSpaceInValues(m: Replacements, s: string) {
    forall p :: p in Scan(s, 0) ==> !HasSpace(ValueOf(m, p))
  }

  lemma SpaceInPath(m: Replacements, x: string)
    requires Whole(x) && !HasSpace(x) && ValuesStartRunes(m)
    ensures HasSpace(Expand(m, x)) <==> !NoSpaceInValues(m, x)
  {
    hide Expand, Scan, ValuesStartRunes, Whole, HasSpace;
    assert x[0..] == x;
    SpaceIsFromValues(m, x, 0);
  }

  /** What it takes for two paths to stay apart: nothing if they differ in text first; another value if
      they differ in one parameter; only else must they be expanded to tell. */
  ghost predicate StayApart(m: Replacements, p: string, q: string) {
    || DifferInText(p, q)
    || (if exists a, b :: DifferInOneParameter(p, q, a, b)
        then exists a, b :: DifferInOneParameter(p, q, a, b) && ValueOf(m, a) != ValueOf(m, b)
        else Expand(m, p) != Expand(m, q))
  }

  lemma StayApartIff(m: Replacements, p: string, q: string)
    ensures StayApart(m, p, q) <==> Expand(m, p) != Expand(m, q)
  {
    hide Expand, DifferInText, DifferInOneParameter, ValueOf;
    if DifferInText(p, q) {
      TextKeepsApart(m, p, q);
    } else {
      forall a, b | DifferInOneParameter(p, q, a, b)
        ensures Expand(m, p) == Expand(m, q) <==> ValueOf(m, a) == ValueOf(m, b)
      {
        OneParameterKeepsApartIff(m, p, q, a, b);
      }
    }
  }

  lemma PathsOkAgain(m: Replacements, paths: seq<string>)
    requires PathsOk(paths) && All(Whole, paths) && ValuesStartRunes(m)
    ensures PathsOk(ExpandAll(m, paths))
            <==> && (forall j, k :: 0 <= j < k < |paths| ==> StayApart(m, paths[j], paths[k]))
                 && (forall x :: x in paths ==> NoSpaceInValues(m, x))
  {
    hide Expand, NoSpaceInValues, StayApart, Whole, HasSpace, ValuesStartRunes;
    var r := ExpandAll(m, paths);
    forall j, k | 0 <= j < k < |paths| ensures StayApart(m, paths[j], paths[k]) <==> r[j] != r[k] {
      StayApartIff(m, paths[j], paths[k]);
    }
    forall k | 0 <= k < |paths| ensures HasSpace(r[k]) <==> !NoSpaceInValues(m, paths[k]) {
      SpaceInPath(m, paths[k]);
    }
    if forall y :: y in r ==> !HasSpace(y) {
      forall k | 0 <= k < |paths| ensures NoSpaceInValues(m, paths[k]) {
        assert r[k] in r;
      }
    }
  }

  lemma ResultPaths(lib: Library, v: BuildValue, flags: Replacements)
    requires PipelineAccepts(lib, v, flags) && v.ArtifactObjects().Some?
    ensures PathsOk(v.ArtifactObjects().value.paths)
    ensures Result(v, flags).ArtifactObjects().Some?
    ensures Result(v, flags).ArtifactObjects().value.paths
            == ExpandAll(Table(v, flags), v.ArtifactObjects().value.paths)
  {
    hide Expand, ExpandAll, ExpandSteps, PathsOk, StepsOk, EnvVarsOk, SubstitutionsOk, SubstitutionsLooseOk,
         SecretsOk, AfterOk, TemplateOk, BuiltIns, Sanitized, ImagesOk;
    TableOfNormalized(v, flags);
  }

  /** The same of the artifact paths, when they are valid UTF-8 and no value starts inside a rune: no
      value may bring white space, and the paths must stay apart. */
  lemma PathsOkAgainIff(lib: Library, v: BuildValue, flags: Replacements)
    requires PipelineAccepts(lib, v, flags) && v.ArtifactObjects().Some?
    requires All(Whole, v.ArtifactObjects().value.paths) && ValuesStartRunes(Table(v, flags))
    ensures Result(v, flags).ArtifactObjects().Some?
    ensures var m, paths := Table(v, flags), v.ArtifactObjects().value.paths;
            PathsOk(Result(v, flags).ArtifactObjects().value.paths)
            <==> && (forall j, k :: 0 <= j < k < |paths| ==> StayApart(m, paths[j], paths[k]))
                 && (forall x :: x in paths ==> NoSpaceInValues(m, x))
  {
    ResultPaths(lib, v, flags);
    hide *;
    PathsOkAgain(Table(v, flags), v.ArtifactObjects().value.paths);
  }

  /** Whatever the table, the paths of an accepted build stay distinct if any two differ in text first. */
  lemma PathsStayDistinct(lib: Library, v: BuildValue, flags: Replacements)
    requires PipelineAccepts(lib, v, flags) && v.ArtifactObjects().Some?
    requires var paths := v.ArtifactObjects().value.paths;
             forall j, k :: 0 <= j < k < |paths| ==> DifferInText(paths[j], paths[k])
    ensures Result(v, flags).ArtifactObjects().Some?
    ensures NoDuplicates(Result(v, flags).ArtifactObjects().value.paths)
  {
    ResultPaths(lib, v, flags);
    hide PipelineAccepts, Result, Expand, DifferInText, Table;
    var m, paths := Table(v, flags), v.ArtifactObjects().value.paths;
    forall j, k | 0 <= j < k < |paths| ensures Expand(m, paths[j]) != Expand(m, paths[k]) {
      TextKeepsApart(m, paths[j], paths[k]);
    }
  }

  /** Two paths of an accepted build that differ in one parameter meet if and only if its values do. */
  lemma PathsMeetIff(lib: Library, v: BuildValue, flags: Replacements, j: nat, k: nat,
                     a: TemplateParameter, b: TemplateParameter)
    requires PipelineAccepts(lib, v, flags) && v.ArtifactObjects().Some?
    requires j < |v.ArtifactObjects().value.paths| && k < |v.ArtifactObjects().value.paths|
    requires DifferInOneParameter(v.ArtifactObjects().value.paths[j], v.ArtifactObjects().value.paths[k], a, b)
    ensures Result(v, flags).ArtifactObjects().Some?
    ensures var paths := Result(v, flags).ArtifactObjects().value.paths;
            && |paths| == |v.ArtifactObjects().value.paths|
            && (paths[j] == paths[k] <==> ValueOf(Table(v, flags), a) == ValueOf(Table(v, flags), b))
  {
    ResultPaths(lib, v, flags);
    hide PipelineAccepts, Result, Expand, DifferInOneParameter, ValueOf, Table;
    var paths := v.ArtifactObjects().value.paths;
    OneParameterKeepsApartIff(Table(v, flags), paths[j], paths[k], a, b);
  }

  /** The second expansion of an image, which no check precedes, replaces no missing key by the empty
      string if and only if every parameter left by the first one is an escape or bound. */
  lemma SecondExpansionIsBoundIff(v: BuildValue, flags: Replacements, i: nat)
    requires i < |AllImages(v)|
    ensures |Result(v, flags).images| == |AllImages(v)|
    ensures var m, x := Table(v, flags), AllImages(v)[i];
            Bound(m, Expand(m, x))
            <==> forall n :: Extends(n, m) ==> Expand(n, Expand(m, x)) == Result(v, flags).images[i]
  {
    hide Expand, Bound, AllImages, Table, Extends;
    var m, x := Table(v, flags), AllImages(v)[i];
    ImagesAreExpandedTwice(v, flags);
    hide Result;
    BoundIff(m, Expand(m, x));
  }

  // ----- tags

  /** Sanitized tags of an accepted build are distinct, not empty, valid, and stay as they are. */
  lemma AcceptedTagsAreSane(lib: Library, v: BuildValue, flags: Replacements)
    requires PipelineAccepts(lib, v, flags)
    ensures var tags := Result(v, flags).tags;
            && NoDuplicates(tags) && "" !in tags && |tags| <= MAX_NUM_TAGS && All(lib.buildTag, tags)
            && Sanitized(tags) == tags
  {
    hide BuildOk, SubstitutionsOk, SubstitutionsLooseOk, Processed, Sanitized;
    var p := Processed(v, flags);
    SanitizedHasNoDuplicates(p.tags);
    SanitizingIsIdempotent(lib.buildTag, p.tags);
  }

  // ----- names after substitution

  /** Every step of the result runs an image with a valid name, which substitution has put there. */
  lemma AcceptedStepNames(lib: Library, v: BuildValue, flags: Replacements, i: nat)
    requires PipelineAccepts(lib, v, flags) && i < |v.steps|
    ensures |Result(v, flags).steps| == |v.steps|
    ensures Result(v, flags).steps[i].name == Expand(Table(v, flags), v.steps[i].name)
    ensures lib.imageTag(Result(v, flags).steps[i].name)
  {
    ResultSteps(lib, v, flags);
    hide BuildOk, SubstitutionsOk, SubstitutionsLooseOk, Processed, Sanitized, Expand, Table, StepsOk;
  }

  // ----- panics

  /** The only way for the pipeline to panic is a global environment entry without `=`, which no check
      before that of the secrets looks for. */
  lemma BuildPanicsIff(lib: Library, v: BuildValue)
    ensures BuildPanics(lib, v) <==>
              && FrontOk(lib, v) && NamesOk(v.options.secretEnv, v.steps, v.secrets)
              && exists e :: e in v.options.env && '=' !in e
  {
    hide NamesOk, TemplateOk, ArtifactsOk, SubstitutionsLooseOk, DependenciesOk, IdOk, NoClash;
    var steps := v.steps;
    if FrontOk(lib, v) {
      assert StepsOk(steps, BuildTimeout(v.timeout));
      hide FrontOk;
      forall i | 0 <= i < |steps| ensures KeysOk(v.options, steps[i]) <==> forall e :: e in v.options.env ==> '=' in e {
        assert StepOk(steps, i, StepLimit(BuildTimeout(v.timeout)));
        assert forall e :: e in v.options.env ==> e in v.options.env + steps[i].env;
      }
      hide StepsOk, KeysOk;
      if exists e :: e in v.options.env && '=' !in e {
        assert !KeysOk(v.options, steps[0]);
      }
    }
  }
}
