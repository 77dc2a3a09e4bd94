/** Builds at which the pipeline shows what it does not guarantee: each is accepted, or panics, and has
    the property that was checked before substitution no longer. The plain one is accepted and kept. */
module PipelineWitnesses {
  import opened GoStrings
  import opened Utf8
  import opened Templates
  import opened ExpansionLaws
  import opened BuildModel
  import opened Substitution
  import opened TemplateCheck
  import opened ArtifactsCheck
  import opened Steps
  import opened Volumes
  import opened VolumeLaws
  import opened Secrets
  import opened Tags
  import opened Pipeline
  import opened PipelineLaws

  // ----- a build that passes

  lemma {:induction false} NoKeysWithoutDollars(fields: seq<string>)
    requires forall f :: f in fields ==> '$' !in f
    ensures KeysOfAll(fields) == []
  {
    hide Scan;
    if fields != [] {
      assert fields[0] in fields && fields[0][0..] == fields[0];
      DollarFreeHasNoParameters(fields[0], 0);
      NoKeysWithoutDollars(fields[1..]);
    }
  }

  /** One step that runs an image and nothing else. */
  function PlainBuild(name: string): BuildValue {
    BuildValue("b", "p", None, None, None, Options([], [], [], false), [], map[],
               [StepValue(name, [], [], "", "", "", [], [], [], None)], [name], [], "", None)
  }

  lemma DollarFreeTemplateIsOk(n: BuildValue)
    requires n.substitutions == map[] && forall f :: f in ScannedFields(n) ==> '$' !in f
    ensures TemplateOk(n)
  {
    NoKeysWithoutDollars(ScannedFields(n));
    hide ScannedFields, KeysOfAll;
  }

  lemma PlainTemplateIsOk(name: string, o: Options)
    requires '$' !in name
    ensures TemplateOk(Normalized(PlainBuild(name).(options := o)))
  {
    var n := Normalized(PlainBuild(name).(options := o));
    assert n.steps[1..] == [];
    forall f | f in ScannedFields(n) ensures '$' !in f {
      ScannedFieldsIff(n, f);
    }
    hide ScannedFields;
    DollarFreeTemplateIsOk(n);
  }

  lemma NoNamesAreOk(steps: seq<StepValue>)
    requires forall i :: 0 <= i < |steps| ==> steps[i].secretEnv == []
    ensures NamesOk([], steps, [])
  {
    assert UsedNames([], steps, |steps|) == {};
    assert DefinedNames([], 0) == {};
    hide UsedNames, DefinedNames;
  }

  lemma NoSecretsAreOk(o: Options, steps: seq<StepValue>)
    requires o.secretEnv == [] && o.env == []
    requires forall i :: 0 <= i < |steps| ==> steps[i].secretEnv == [] && steps[i].env == []
    ensures SecretsOk(o, steps, [])
  {
    NoNamesAreOk(steps);
    hide NamesOk;
  }

  lemma PlainStepsAreOk(name: string)
    requires 0 < |name| <= MAX_IMAGE_LENGTH
    ensures StepsOk(PlainBuild(name).steps, 0)
  {
  }

  lemma PlainVolumesAreOk(lib: Library, name: string)
    ensures VolumesOk(lib.clean, [], PlainBuild(name).steps)
  {
  }

  lemma PlainFieldsAreOk(lib: Library, name: string)
    requires 0 < |name| <= MAX_IMAGE_LENGTH
    ensures var v := PlainBuild(name);
            && BuildTimeoutOk(v.timeout) && BuildTimeout(v.timeout) == 0
            && SubstitutionsLooseOk(v.substitutions)
            && ArtifactsOk(v) && EnvVarsOk(v.options, v.steps)
  {
  }

  lemma PlainBuildPasses(lib: Library, name: string)
    requires '$' !in name && 0 < |name| <= MAX_IMAGE_LENGTH
    ensures BuildOk(lib, PlainBuild(name))
  {
    PlainTemplateIsOk(name, PlainBuild(name).options);
    NoSecretsAreOk(PlainBuild(name).options, PlainBuild(name).steps);
    PlainStepsAreOk(name);
    PlainVolumesAreOk(lib, name);
    PlainFieldsAreOk(lib, name);
    hide TemplateOk, SecretsOk, Normalized, StepsOk, VolumesOk, BuildTimeoutOk, BuildTimeout,
         SubstitutionsLooseOk, ArtifactsOk, EnvVarsOk;
  }

  lemma PlainBuildStays(name: string)
    requires '$' !in name
    ensures var p := Processed(PlainBuild(name), map[]);
            p.images == [name] && p.tags == [] && |p.steps| == 1 && p.steps[0].name == name
  {
    hide Expand, BuiltIns;
    var v := PlainBuild(name);
    assert Merged(v, map[]) == v;
    var m := ReplacementsOf(Normalized(v));
    ExpandDollarFree(m, name);
    assert ExpandAll(m, [name]) == [name];
  }

  lemma PlainBuildIsFine(lib: Library, name: string)
    requires '$' !in name && lib.imageTag(name)
    ensures AfterOk(lib, Processed(PlainBuild(name), map[]))
  {
    PlainBuildStays(name);
    hide Processed;
  }

  lemma MergingNothing(v: BuildValue)
    ensures Merged(v, map[]) == v && SubstitutionsLooseOk(map[])
  {
    hide EntryOk;
    assert v.substitutions + map[] == v.substitutions;
  }

  lemma NoTags()
    ensures Sanitized([]) == []
  {
  }

  /** The conditions can be met: any image name without dollars makes an accepted build. */
  lemma PlainBuildIsAccepted(lib: Library, name: string)
    requires '$' !in name && 0 < |name| <= MAX_IMAGE_LENGTH && lib.imageTag(name)
    ensures PipelineAccepts(lib, PlainBuild(name), map[])
    ensures Result(PlainBuild(name), map[]).images == [name]
  {
    PlainBuildPasses(lib, name);
    PlainBuildStays(name);
    PlainBuildIsFine(lib, name);
    MergingNothing(PlainBuild(name));
    hide BuildOk, Processed, AfterOk, SubstitutionsLooseOk, IsUserKey;
  }

  // ----- a build whose step name decides

  /** The plain build without its image. */
  function NamedStep(name: string): BuildValue {
    PlainBuild(name).(images := [])
  }

  lemma NamedTemplateIsOk(name: string)
    requires '$' !in name
    ensures TemplateOk(Normalized(NamedStep(name)))
  {
    var n := Normalized(NamedStep(name));
    assert n.steps[1..] == [];
    forall f | f in ScannedFields(n) ensures '$' !in f {
      ScannedFieldsIff(n, f);
    }
    hide ScannedFields;
    DollarFreeTemplateIsOk(n);
  }

  lemma NamedFieldsAreOk(name: string)
    ensures ArtifactsOk(NamedStep(name))
  {
  }

  lemma NamedStepPasses(lib: Library, name: string)
    requires '$' !in name && 0 < |name| <= MAX_STEP_NAME_LENGTH
    ensures BuildOk(lib, NamedStep(name)) && SubstitutionsOk(NamedStep(name).substitutions)
  {
    PlainBuildPasses(lib, name);
    NamedTemplateIsOk(name);
    NamedFieldsAreOk(name);
    hide TemplateOk, SecretsOk, Normalized, StepsOk, VolumesOk, ArtifactsOk, EnvVarsOk;
  }

  lemma NamedStepStays(name: string)
    requires '$' !in name
    ensures var p := Processed(NamedStep(name), map[]);
            p.images == [] && p.tags == [] && |p.steps| == 1 && p.steps[0].name == name
  {
    hide Expand, BuiltIns;
    MergingNothing(NamedStep(name));
    var m := ReplacementsOf(Normalized(NamedStep(name)));
    ExpandDollarFree(m, name);
  }

  lemma NamedStepIsFineIff(lib: Library, name: string)
    requires '$' !in name
    ensures AfterOk(lib, Processed(NamedStep(name), map[])) <==> lib.imageTag(name)
  {
    NamedStepStays(name);
    NoTags();
    hide Processed, Sanitized;
  }

  /** A build that passes every other check is accepted if and only if the name of its step is valid. */
  lemma StepNameDecides(lib: Library, name: string)
    requires '$' !in name && 0 < |name| <= MAX_STEP_NAME_LENGTH
    ensures BuildOk(lib, NamedStep(name))
    ensures PipelineAccepts(lib, NamedStep(name), map[]) <==> lib.imageTag(name)
  {
    NamedStepPasses(lib, name);
    NamedStepIsFineIff(lib, name);
    MergingNothing(NamedStep(name));
    hide BuildOk, Processed, AfterOk, SubstitutionsOk, SubstitutionsLooseOk, Merged, NamedStep;
  }

  // ----- a build that makes validation panic

  /** The plain build with a global environment entry that has no `=`. */
  function MissingSeparator(name: string): BuildValue {
    PlainBuild(name).(options := Options(["X"], [], [], false))
  }

  lemma MissingSeparatorPasses(lib: Library, name: string)
    requires '$' !in name && 0 < |name| <= MAX_IMAGE_LENGTH
    ensures FrontOk(lib, MissingSeparator(name)) && SubstitutionsOk(MissingSeparator(name).substitutions)
  {
    PlainTemplateIsOk(name, MissingSeparator(name).options);
    PlainStepsAreOk(name);
    PlainVolumesAreOk(lib, name);
    PlainFieldsAreOk(lib, name);
    hide TemplateOk, Normalized, StepsOk, VolumesOk, ArtifactsOk;
  }

  lemma MissingSeparatorInSecrets(name: string)
    ensures var v := MissingSeparator(name); SecretsPanic(v.options, v.steps, v.secrets)
  {
    var v := MissingSeparator(name);
    assert NamesOk([], v.steps, []) by { NoNamesAreOk(v.steps); }
    hide NamesOk;
    assert "X" in v.options.env + v.steps[0].env && '=' !in "X";
  }

  /** It gets past every other check, and panics. */
  lemma MissingSeparatorPanics(lib: Library, name: string)
    requires '$' !in name && 0 < |name| <= MAX_IMAGE_LENGTH
    ensures var v := MissingSeparator(name);
            && SubstitutionsOk(v.substitutions) && SubstitutionsLooseOk(map[])
            && BuildPanics(lib, Merged(v, map[]))
  {
    MissingSeparatorPasses(lib, name);
    MissingSeparatorInSecrets(name);
    MergingNothing(MissingSeparator(name));
    hide FrontOk, SecretsPanic, SubstitutionsLooseOk, Merged, MissingSeparator;
  }

  // ----- a build with colliding mounts

  /** Two steps that mount a local volume on the directory of the global one, written differently. */
  function CollidingMounts(name: string): BuildValue {
    var step := PlainBuild(name).steps[0].(volumes := [Volume("local", "/data/")]);
    PlainBuild(name).(options := Options([], [], [Volume("global", "/data")], false), steps := [step, step])
  }

  lemma CollidingTemplateIsOk(name: string)
    requires '$' !in name
    ensures TemplateOk(Normalized(CollidingMounts(name)))
  {
    var n := Normalized(CollidingMounts(name));
    forall f | f in ScannedFields(n) ensures '$' !in f {
      ScannedFieldsIff(n, f);
    }
    hide ScannedFields;
    DollarFreeTemplateIsOk(n);
  }

  lemma CollidingFieldsAreOk(lib: Library, name: string)
    requires 0 < |name| <= MAX_IMAGE_LENGTH
    ensures var v := CollidingMounts(name);
            && BuildTimeoutOk(v.timeout) && BuildTimeout(v.timeout) == 0
            && SubstitutionsOk(v.substitutions)
            && ArtifactsOk(v) && EnvVarsOk(v.options, v.steps)
            && StepsOk(v.steps, 0)
  {
  }

  lemma CollidingMountsPass(lib: Library, name: string)
    requires '$' !in name && 0 < |name| <= MAX_IMAGE_LENGTH
    requires lib.clean("/data") == "/data" && lib.clean("/data/") == "/data"
    ensures BuildOk(lib, CollidingMounts(name)) && SubstitutionsOk(CollidingMounts(name).substitutions)
  {
    CollidingTemplateIsOk(name);
    CollidingFieldsAreOk(lib, name);
    NoSecretsAreOk(CollidingMounts(name).options, CollidingMounts(name).steps);
    RawPathsCanCollide(lib.clean, CollidingMounts(name).steps[0]);
    hide TemplateOk, SecretsOk, Normalized, StepsOk, VolumesOk, BuildTimeoutOk, BuildTimeout,
         SubstitutionsLooseOk, ArtifactsOk, EnvVarsOk, MountsAreDistinct;
  }

  lemma CollidingMountsStay(name: string)
    requires '$' !in name
    ensures var v, p := CollidingMounts(name), Processed(CollidingMounts(name), map[]);
            p.images == [name] && p.tags == [] && p.steps == v.steps
  {
    hide Expand, BuiltIns;
    var v := CollidingMounts(name);
    MergingNothing(v);
    var m := ReplacementsOf(Normalized(v));
    ExpandDollarFree(m, name);
    ExpandEmpty(m);
    assert ExpandAll(m, [name]) == [name];
    assert ExpandStep(m, v.steps[0]) == v.steps[0];
  }

  lemma CollidingMountsAreFine(lib: Library, name: string)
    requires '$' !in name && lib.imageTag(name)
    ensures AfterOk(lib, Processed(CollidingMounts(name), map[]))
  {
    CollidingMountsStay(name);
    hide Processed, Sanitized;
    NoTags();
  }

  /** An accepted build whose steps mount a global and a local volume on one directory. */
  lemma MountsCanCollide(lib: Library, name: string)
    requires '$' !in name && 0 < |name| <= MAX_IMAGE_LENGTH && lib.imageTag(name)
    requires lib.clean("/data") == "/data" && lib.clean("/data/") == "/data"
    ensures var v := CollidingMounts(name);
            && PipelineAccepts(lib, v, map[])
            && |Result(v, map[]).steps| == 2
            && !MountsAreDistinct(lib.clean, v.options.volumes, Result(v, map[]).steps[0])
  {
    CollidingMountsPass(lib, name);
    CollidingMountsAreFine(lib, name);
    CollidingMountsStay(name);
    MergingNothing(CollidingMounts(name));
    RawPathsCanCollide(lib.clean, CollidingMounts(name).steps[0]);
    hide BuildOk, Processed, AfterOk, SubstitutionsOk, SubstitutionsLooseOk, Merged, MountsAreDistinct, VolumesOk;
  }

  // ----- a build with loose ends

  /** With the word `w` for `_A`: every field of the step becomes as long as `w`, the variable gets the
      name of the secret, the two paths come out alike, and of the image, which is escaped, the second
      expansion leaves `w`. */
  function LooseEnds(w: string): BuildValue {
    BuildValue("b", "p", None, None, None, Options([], [], [], false), [Secret("k", map[w := ""])],
               map["_A" := w],
               [StepValue("$_A", ["$_A!"], ["$_A=1"], "$_A", "$_A", "$_A", [], [w], [], None)],
               ["$$_A$$B"], ["$_A"], "$_A",
               Some(ArtifactsValue([], Some(ObjectsValue("gs://$_A", ["$_A", w])))))
  }

  /** What becomes of it: the names, arguments, environment, directories, entry points, images, tags, the
      logs bucket, the location and the paths are expanded, and the ids and secrets are not. */
  function LooseEndsAfter(w: string): BuildValue {
    BuildValue("b", "p", None, None, None, Options([], [], [], false), [Secret("k", map[w := ""])],
               map["_A" := w],
               [StepValue(w, [w + "!"], [w + "=1"], w, w, "$_A", [], [w], [], None)],
               [w], [w], w,
               Some(ArtifactsValue([w], Some(ObjectsValue("gs://" + w + "/", [w, w])))))
  }

  predicate IsWord(lib: Library, w: string) {
    && 0 < |w| <= MAX_SUBST_VALUE_LENGTH && '$' !in w && '=' !in w
    && lib.imageTag(w) && lib.buildTag(w) && !HasSpace(w)
  }

  lemma KeyA()
    ensures IsKey("_A") && IsUserKey("_A") && |"_A"| == 2
  {
  }

  /** A reference to `_A` and some text after it. */
  lemma ReferenceToA(m: Replacements, rest: string)
    requires '$' !in rest && (rest == "" || !IsKeyChar(rest[0]))
    ensures Scan("$_A" + rest, 0) == [TemplateParameter(0, 2, "_A", false)]
    ensures Keys("$_A" + rest) == ["_A"]
    ensures Expand(m, "$_A" + rest) == Lookup(m, "_A") + rest
  {
    hide Expand, Scan, IsKey;
    KeyA();
    var s := "$_A" + rest;
    assert "$" + "_A" == "$_A";
    assert s == "$" + "_A" + rest;
    ReferenceFirst(m, "_A", rest);
    assert s[3..] == rest;
    DollarFreeHasNoParameters(s, 3);
    ExpandDollarFree(m, rest);
    KeysOfOne(TemplateParameter(0, 2, "_A", false));
  }

  lemma TheEscapedImage()
    ensures EscapeDollars("$_A$B") == "$$_A$$B"
  {
    assert "$_A$B"[1..] == "_A$B" && "_A$B"[1..] == "A$B" && "A$B"[1..] == "$B" && "$B"[1..] == "B";
    assert "B"[1..] == "";
    assert EscapeDollars("B") == "B";
    assert EscapeDollars("$B") == "$$B";
    assert EscapeDollars("A$B") == "A$$B";
    assert EscapeDollars("_A$B") == "_A$$B";
  }

  lemma {:induction false} EscapesHaveNoKeys(s: string, d: nat)
    ensures KeysOf(EscapesOf(s, d)) == []
  {
    if s != "" {
      EscapesHaveNoKeys(s[1..], if s[0] == '$' then d + 2 else d + 1);
    }
  }

  lemma EscapedImageHasNoKeys()
    ensures Keys("$$_A$$B") == []
  {
    TheEscapedImage();
    ScanOfEscaped("", "$_A$B");
    hide EscapeDollars, Scan, EscapesOf, KeysOf;
    assert "" + "$$_A$$B" == "$$_A$$B";
    EscapesHaveNoKeys("$_A$B", 0);
  }

  lemma BIsKey()
    ensures IsKey("B")
  {
  }

  lemma SecondReference()
    ensures TemplateParameter(3, 4, "B", false) in Scan("$_A$B", 3)
  {
    var s := "$_A$B";
    assert s[3..] == "$B" && s[3..][1..] == "B" && s[3..][1..2] == "B" && s[4] == 'B';
    assert "B" + "" == "B";
    KeyRunOfKey("B", "");
    assert TokenAt(s, 3) == Some(TemplateParameter(3, 4, "B", false));
    hide TokenAt;
    assert Scan(s, 3) == [TemplateParameter(3, 4, "B", false)] + Scan(s, 5);
  }

  lemma ReferenceToB(m: Replacements)
    requires "B" !in m
    ensures Expand(m, "$B") == ""
  {
    hide Expand, Scan;
    BIsKey();
    hide IsKey, IsKeyChar;
    assert "$" + "B" + "" == "$B";
    ReferenceFirst(m, "B", "");
    ExpandEmpty(m);
  }

  lemma TwoReferences(m: Replacements)
    requires "B" !in m
    ensures Expand(m, "$_A$B") == Lookup(m, "_A")
    ensures TemplateParameter(3, 4, "B", false) in Scan("$_A$B", 0)
  {
    hide Expand, Scan;
    KeyA();
    hide IsKey;
    assert "$_A$B" == "$" + "_A" + "$B" && !IsKeyChar("$B"[0]);
    hide IsKeyChar, Lookup;
    ReferenceFirst(m, "_A", "$B");
    ReferenceToB(m);
    SecondReference();
  }

  /** The image is looked up after all: kept by the first expansion, replaced by the second, which
      leaves nothing of the unbound key. */
  lemma ImageOfLooseEnds(m: Replacements)
    requires "B" !in m
    ensures Keys("$$_A$$B") == []
    ensures Expand(m, "$$_A$$B") == "$_A$B" && Expand(m, "$_A$B") == Lookup(m, "_A")
    ensures TemplateParameter(3, 4, "B", false) in Scan("$_A$B", 0)
  {
    EscapedImageHasNoKeys();
    TheEscapedImage();
    hide *;
    ExpandUndoesEscape(m, "$_A$B");
    TwoReferences(m);
  }

  lemma {:induction false} OnlyKey(fields: seq<string>, key: string)
    requires forall f, k :: f in fields && k in Keys(f) ==> k == key
    ensures forall k :: k in KeysOfAll(fields) ==> k == key
  {
    hide Keys;
    if fields != [] {
      OnlyKey(fields[1..], key);
    }
  }

  lemma {:induction false} AllMatched(subs: Replacements, keys: seq<string>)
    requires forall key :: key in keys ==> key in subs
    ensures UnmatchedWarnings(subs, keys) == []
  {
    hide IsUserKey;
    if keys != [] {
      AllMatched(subs, keys[1..]);
    }
  }

  function TemplatesOfLooseEnds(w: string): seq<string> {
    ["$_A", "$_A!", "$_A=1", "$_A", "$_A", "$$_A$$B", "$_A", "gs://$_A/", "$_A", w]
  }

  lemma LooseLocation()
    ensures WithSlash("gs://$_A") == "gs://$_A/" == "gs://" + "$_A/"
  {
    assert "gs://$_A"[7..] == "A" && "A"[0] != '/';
  }

  /** The fields of the build that are scanned. */
  lemma LooseFields(w: string)
    ensures ScannedFields(Normalized(LooseEnds(w))) == TemplatesOfLooseEnds(w)
  {
    var n := Normalized(LooseEnds(w));
    assert n.steps[1..] == [];
    LooseLocation();
    hide WithSlash;
    assert StepsFields(n.steps) == StepFields(n.steps[0]) + [];
  }

  lemma {:induction false} KeysShift(a: string, b: string, i: nat)
    requires i <= |b|
    ensures KeysOf(Scan(a + b, |a| + i)) == KeysOf(Scan(b, i))
    decreases |b| - i
  {
    hide TokenAt;
    var s := a + b;
    if i < |b| {
      assert s[|a|..] == b;
      TokenAtShift(s, |a|, i);
      if TokenAt(b, i).None? {
        KeysShift(a, b, i + 1);
      } else {
        KeysShift(a, b, TokenAt(b, i).value.End + 1);
      }
    }
  }

  lemma {:induction false} ScanPastText(a: string, b: string, i: nat)
    requires i <= |a| && '$' !in a
    ensures Scan(a + b, i) == Scan(a + b, |a|)
    decreases |a| - i
  {
    if i < |a| {
      assert (a + b)[i] == a[i];
      ScanPastText(a, b, i + 1);
    }
  }

  lemma KeysAfterText(a: string, b: string)
    requires '$' !in a
    ensures Keys(a + b) == Keys(b)
  {
    hide Scan;
    ScanPastText(a, b, 0);
    KeysShift(a, b, 0);
  }

  lemma PlainKeys(f: string)
    requires '$' !in f
    ensures Keys(f) == []
  {
    hide Scan;
    assert f[0..] == f;
    DollarFreeHasNoParameters(f, 0);
  }

  lemma LooseFieldKeys(w: string, f: string)
    requires '$' !in w
    requires f in TemplatesOfLooseEnds(w)
    ensures forall key :: key in Keys(f) ==> key == "_A"
  {
    hide Keys, Scan, Expand, Lookup;
    assert "$_A" + "!" == "$_A!" && "$_A" + "=1" == "$_A=1" && "$_A" + "" == "$_A" && "$_A" + "/" == "$_A/";
    ReferenceToA(map[], "!");
    ReferenceToA(map[], "=1");
    ReferenceToA(map[], "/");
    ReferenceToA(map[], "");
    LooseLocation();
    KeysAfterText("gs://", "$_A/");
    ImageOfLooseEnds(map[]);
    if '$' !in f {
      PlainKeys(f);
    }
  }

  lemma LooseKeys(lib: Library, w: string)
    requires IsWord(lib, w)
    ensures var fields := ScannedFields(Normalized(LooseEnds(w)));
            (forall key :: key in KeysOfAll(fields) ==> key == "_A") && "_A" in KeysOfAll(fields)
  {
    LooseFields(w);
    var fields := TemplatesOfLooseEnds(w);
    forall f | f in fields ensures forall key :: key in Keys(f) ==> key == "_A" {
      LooseFieldKeys(w, f);
    }
    hide IsWord, Keys, ScannedFields, Scan, KeysOfAll, Normalized;
    OnlyKey(fields, "_A");
    assert fields[1] == "$_A!";
    ReferenceToA(map[], "!");
    assert "$_A" + "!" == "$_A!";
    FieldKeys(fields, "$_A!", TemplateParameter(0, 2, "_A", false));
  }

  lemma LooseTemplateIsOk(lib: Library, w: string)
    requires IsWord(lib, w)
    ensures TemplateOk(Normalized(LooseEnds(w)))
  {
    var n := Normalized(LooseEnds(w));
    LooseKeys(lib, w);
    assert n.substitutions == map["_A" := w];
    hide IsWord, ScannedFields, KeysOfAll, IsUserKey, IsBuiltIn, Normalized;
    AllMatched(n.substitutions, ScannedKeys(n));
    assert UnusedKeys(n) == {};
  }

  lemma LooseStepsAreOk(w: string)
    ensures var v := LooseEnds(w); StepsOk(v.steps, 0) && EnvVarsOk(v.options, v.steps)
  {
    assert "$_A=1"[3] == '=';
  }

  lemma LooseVolumesAreOk(lib: Library, w: string)
    ensures VolumesOk(lib.clean, [], LooseEnds(w).steps)
  {
  }

  lemma NoSpaceInReference()
    ensures !HasSpace("$_A")
  {
    assert "$_A"[1..] == "_A" && "_A"[1..] == "A" && "A"[1..] == "";
    assert !HasSpace("A");
    assert !HasSpace("_A");
  }

  lemma LooseArtifactsAreOk(lib: Library, w: string)
    requires IsWord(lib, w)
    ensures ArtifactsOk(LooseEnds(w))
  {
    NoSpaceInReference();
    hide HasSpace;
    assert "$_A"[0] == '$';
    assert "gs://$_A"[..5] == GS_PREFIX;
  }

  lemma LooseSubstitutionsAreOk(lib: Library, w: string)
    requires IsWord(lib, w)
    ensures SubstitutionsOk(LooseEnds(w).substitutions)
  {
    KeyA();
  }

  lemma LooseNamesAreOk(w: string)
    ensures var v := LooseEnds(w); NamesOk([], v.steps, v.secrets)
  {
    var v := LooseEnds(w);
    assert v.steps[0].secretEnv == [w] && v.secrets[0].secretEnv == map[w := ""];
    assert w in v.steps[0].secretEnv && w in v.secrets[0].secretEnv.Keys;
    assert UsedNames([], v.steps, 1) == {w};
    assert DefinedNames(v.secrets, 1) == {w};
  }

  lemma KeyOfLooseEntry()
    ensures '=' in "$_A=1" && EnvKey("$_A=1") == "$_A"
  {
    assert "$_A=1" == "$_A" + ['='] + "1";
    IndexOfAppend("$_A", '=', "1");
    assert "$_A=1"[..3] == "$_A" && "$_A=1"[3] == '=';
  }

  lemma LooseSecretsAreOk(lib: Library, w: string)
    requires IsWord(lib, w)
    ensures var v := LooseEnds(w); SecretsOk(v.options, v.steps, v.secrets)
  {
    var v := LooseEnds(w);
    LooseNamesAreOk(w);
    hide NamesOk;
    KeyOfLooseEntry();
    assert "$_A"[0] == '$';
    hide EnvKey;
    assert v.options.env + v.steps[0].env == ["$_A=1"];
  }

  lemma LooseEndsPass(lib: Library, w: string)
    requires IsWord(lib, w)
    ensures BuildOk(lib, LooseEnds(w)) && SubstitutionsOk(LooseEnds(w).substitutions)
  {
    LooseTemplateIsOk(lib, w);
    LooseStepsAreOk(w);
    LooseVolumesAreOk(lib, w);
    LooseArtifactsAreOk(lib, w);
    LooseSubstitutionsAreOk(lib, w);
    LooseSecretsAreOk(lib, w);
    hide TemplateOk, SecretsOk, Normalized, StepsOk, VolumesOk, SubstitutionsLooseOk, ArtifactsOk, EnvVarsOk;
  }

  lemma LooseTable(w: string)
    ensures var m := Table(LooseEnds(w), map[]);
            Lookup(m, "_A") == w && "B" !in m && ReplacementsOf(Normalized(LooseEnds(w))) == m
  {
    assert Merged(LooseEnds(w), map[]) == LooseEnds(w);
  }

  lemma LooseStepExpands(m: Replacements, s: StepValue, w: string)
    requires Lookup(m, "_A") == w
    requires s.name == "$_A" && s.args == ["$_A!"] && s.env == ["$_A=1"] && s.dir == "$_A" && s.entrypoint == "$_A"
    ensures ExpandStep(m, s) == s.(name := w, args := [w + "!"], env := [w + "=1"], dir := w, entrypoint := w)
  {
    hide Expand, Lookup;
    assert "$_A" + "!" == "$_A!" && "$_A" + "=1" == "$_A=1" && "$_A" + "" == "$_A" && w + "" == w;
    ReferenceToA(m, "");
    ReferenceToA(m, "!");
    ReferenceToA(m, "=1");
    assert ExpandAll(m, ["$_A!"]) == [w + "!"] && ExpandAll(m, ["$_A=1"]) == [w + "=1"];
  }

  lemma OneIsExpanded(m: Replacements, x: string)
    ensures ExpandAll(m, [x]) == [Expand(m, x)]
  {
    hide Expand;
  }

  lemma LooseImagesExpand(m: Replacements)
    requires "B" !in m
    ensures ExpandAll(m, ExpandAll(m, ["$$_A$$B"])) == [Lookup(m, "_A")]
  {
    ImageOfLooseEnds(m);
    OneIsExpanded(m, "$$_A$$B");
    OneIsExpanded(m, "$_A$B");
    hide *;
  }

  lemma LooseListsExpand(m: Replacements, w: string)
    requires Lookup(m, "_A") == w && '$' !in w
    ensures Expand(m, "$_A") == w
    ensures ExpandAll(m, ["$_A"]) == [w] && ExpandAll(m, ["$_A", w]) == [w, w]
  {
    hide Expand, Lookup, Scan, Keys, IsKeyChar;
    assert "$_A" + "" == "$_A" && w + "" == w;
    ReferenceToA(m, "");
    ExpandDollarFree(m, w);
  }

  lemma LooseLocationExpands(m: Replacements, w: string)
    requires Lookup(m, "_A") == w
    ensures Expand(m, WithSlash("gs://$_A")) == "gs://" + w + "/"
  {
    LooseLocation();
    hide Expand, Lookup, WithSlash;
    ExpandPlainPrefix(m, "gs://", "$_A/");
    assert "$_A" + "/" == "$_A/";
    ReferenceToA(m, "/");
  }

  lemma LooseArtifactsExpand(m: Replacements, w: string)
    requires Lookup(m, "_A") == w && '$' !in w
    ensures ExpandObjects(m, ObjectsValue(WithSlash("gs://$_A"), ["$_A", w])) == ObjectsValue("gs://" + w + "/", [w, w])
  {
    hide Expand, Lookup, WithSlash, ExpandAll;
    LooseLocationExpands(m, w);
    LooseListsExpand(m, w);
  }

  /** What substitution makes of the build. */
  lemma LooseProcessed(w: string)
    requires '$' !in w
    ensures Processed(LooseEnds(w), map[]) == LooseEndsAfter(w)
  {
    hide Expand, BuiltIns, Lookup, ExpandAll, ExpandStep, ExpandObjects, WithSlash;
    var v := LooseEnds(w);
    assert Merged(v, map[]) == v;
    LooseTable(w);
    var m := Table(v, map[]);
    LooseImagesExpand(m);
    LooseListsExpand(m, w);
    LooseArtifactsExpand(m, w);
    LooseStepExpands(m, v.steps[0], w);
    hide Table;
    assert ExpandSteps(m, v.steps) == [ExpandStep(m, v.steps[0])];
  }

  lemma OneTag(w: string)
    requires w != ""
    ensures Sanitized([w]) == [w]
  {
    assert [w][..0] == [];
    NoTags();
  }

  lemma LooseResult(w: string)
    requires '$' !in w && w != ""
    ensures Result(LooseEnds(w), map[]) == LooseEndsAfter(w)
  {
    LooseProcessed(w);
    OneTag(w);
    hide Processed, Sanitized;
  }

  lemma LooseEndsAreFine(lib: Library, w: string)
    requires IsWord(lib, w)
    ensures AfterOk(lib, Processed(LooseEnds(w), map[]))
  {
    LooseProcessed(w);
    OneTag(w);
    hide Processed, Sanitized;
  }

  lemma LooseEndsAreAccepted(lib: Library, w: string)
    requires IsWord(lib, w)
    ensures PipelineAccepts(lib, LooseEnds(w), map[])
  {
    LooseEndsPass(lib, w);
    LooseEndsAreFine(lib, w);
    MergingNothing(LooseEnds(w));
    hide BuildOk, Processed, AfterOk, SubstitutionsOk, SubstitutionsLooseOk, LooseEnds, Merged, IsWord;
  }

  /** Which fields substitution expands, and that a missing final slash is added before. */
  lemma FieldsAreExpanded(lib: Library, w: string)
    requires IsWord(lib, w)
    ensures PipelineAccepts(lib, LooseEnds(w), map[]) && Result(LooseEnds(w), map[]) == LooseEndsAfter(w)
  {
    LooseEndsAreAccepted(lib, w);
    LooseResult(w);
    hide PipelineAccepts, Result, LooseEnds, LooseEndsAfter;
  }

  /** An accepted build with an image that was escaped, so that one expansion would keep the reference,
      and that comes out with the reference replaced, and with nothing for a key that is not bound. */
  lemma EscapedImageIsExpanded(lib: Library, w: string)
    requires IsWord(lib, w)
    ensures var v, m := LooseEnds(w), Table(LooseEnds(w), map[]);
            && PipelineAccepts(lib, v, map[])
            && Expand(m, AllImages(v)[0]) == "$_A$B" && Result(v, map[]).images == [w]
            && !Bound(m, Expand(m, AllImages(v)[0]))
  {
    LooseEndsAreAccepted(lib, w);
    LooseTable(w);
    LooseResult(w);
    ImageOfLooseEnds(Table(LooseEnds(w), map[]));
    hide PipelineAccepts, Processed, Table, IsWord, Expand, Scan;
    assert AllImages(LooseEnds(w))[0] == "$$_A$$B";
  }

  lemma KeyOfWord(w: string)
    requires '=' !in w
    ensures EnvKey(w + "=1") == w
  {
    assert w + "=1" == w + ['='] + "1";
    IndexOfAppend(w, '=', "1");
  }

  lemma SameNameClashes(o: Options, s: StepValue, w: string)
    requires '=' !in w && o.env == [] && o.secretEnv == [] && s.env == [w + "=1"] && s.secretEnv == [w]
    ensures !NoClash(o, s)
  {
    hide EnvKey;
    KeyOfWord(w);
    assert o.env + s.env == s.env && o.secretEnv + s.secretEnv == s.secretEnv;
    assert s.env[0] in s.env && s.secretEnv[0] in s.secretEnv;
  }

  /** An accepted build whose step, as substituted, has a variable with the name of a secret. */
  lemma SubstitutionCanClash(lib: Library, w: string)
    requires IsWord(lib, w)
    ensures var v := LooseEnds(w);
            && PipelineAccepts(lib, v, map[])
            && |Result(v, map[]).steps| == 1 && !NoClash(v.options, Result(v, map[]).steps[0])
  {
    LooseEndsAreAccepted(lib, w);
    LooseResult(w);
    hide PipelineAccepts, Processed, NoClash;
    SameNameClashes(Options([], [], [], false), Result(LooseEnds(w), map[]).steps[0], w);
  }

  /** An accepted build with two paths that come out alike. */
  lemma PathsCanMeet(lib: Library, w: string)
    requires IsWord(lib, w)
    ensures var v := LooseEnds(w);
            && PipelineAccepts(lib, v, map[])
            && Result(v, map[]).ArtifactObjects().Some?
            && !PathsOk(Result(v, map[]).ArtifactObjects().value.paths)
  {
    LooseEndsAreAccepted(lib, w);
    LooseResult(w);
    hide PipelineAccepts, Processed;
    var paths := Result(LooseEnds(w), map[]).ArtifactObjects().value.paths;
    assert paths[0] == paths[1];
  }

  /** An accepted build whose name, argument, directory, environment entry and image were within their
      limits and have outgrown them: the argument by one byte, as the word is as long as a value may be. */
  lemma LimitsCanBeOutgrown(lib: Library, w: string)
    requires IsWord(lib, w) && |w| == MAX_SUBST_VALUE_LENGTH
    ensures var v, r := LooseEnds(w), Result(LooseEnds(w), map[]);
            && PipelineAccepts(lib, v, map[])
            && |r.steps| == 1 && |r.steps[0].name| > MAX_STEP_NAME_LENGTH && |r.steps[0].dir| > MAX_DIR_LENGTH
            && |r.steps[0].args| == 1 && |r.steps[0].args[0]| == MAX_ARG_LENGTH + 1
            && !StepsOk(r.steps, BuildTimeout(v.timeout))
            && !EnvVarsOk(v.options, r.steps) && !ImagesOk(r.images)
  {
    LooseEndsAreAccepted(lib, w);
    LooseResult(w);
    hide PipelineAccepts, Processed, DependenciesOk, IdOk;
    var r := Result(LooseEnds(w), map[]);
    assert r.steps[0].name == w && r.steps[0].dir == w && r.steps[0].args[0] == w + "!";
    assert r.steps[0].env[0] == w + "=1" && r.steps[0].env[0] in r.steps[0].env;
    assert r.images[0] == w && r.images[0] in r.images;
    assert !StepOk(r.steps, 0, StepLimit(0));
  }

  // ----- a build that gets white space into a path

  function SpacedPath(name: string): BuildValue {
    PlainBuild(name).(substitutions := map["_A" := " "],
                      artifacts := Some(ArtifactsValue([], Some(ObjectsValue("gs://b/", ["$_A"])))))
  }

  function TemplatesOfSpacedPath(name: string): seq<string> {
    [name, "", "", name, "gs://b/", "$_A"]
  }

  lemma SpacedFields(name: string)
    ensures ScannedFields(Normalized(SpacedPath(name))) == TemplatesOfSpacedPath(name)
  {
    var n := Normalized(SpacedPath(name));
    assert n.steps[1..] == [];
    assert "gs://b/"[6..] == "/";
    assert WithSlash("gs://b/") == "gs://b/";
    assert StepsFields(n.steps) == StepFields(n.steps[0]) + [];
  }

  lemma SpacedFieldKeys(name: string, f: string)
    requires '$' !in name && f in TemplatesOfSpacedPath(name)
    ensures forall key :: key in Keys(f) ==> key == "_A"
  {
    hide Keys;
    if '$' !in f {
      PlainKeys(f);
    } else {
      assert f == "$_A" == "$_A" + "";
      ReferenceToA(map[], "");
    }
  }

  lemma SpacedKeys(name: string)
    requires '$' !in name
    ensures var fields := ScannedFields(Normalized(SpacedPath(name)));
            (forall key :: key in KeysOfAll(fields) ==> key == "_A") && "_A" in KeysOfAll(fields)
  {
    hide Keys, ScannedFields, Scan, KeysOfAll, Normalized, Expand;
    SpacedFields(name);
    var fields := TemplatesOfSpacedPath(name);
    forall f | f in fields ensures forall key :: key in Keys(f) ==> key == "_A" {
      SpacedFieldKeys(name, f);
    }
    assert fields[5] == "$_A" == "$_A" + "";
    hide TemplatesOfSpacedPath;
    OnlyKey(fields, "_A");
    ReferenceToA(map[], "");
    FieldKeys(fields, "$_A", TemplateParameter(0, 2, "_A", false));
  }

  lemma SpacedTemplateIsOk(name: string)
    requires '$' !in name
    ensures TemplateOk(Normalized(SpacedPath(name)))
  {
    var n := Normalized(SpacedPath(name));
    SpacedKeys(name);
    assert n.substitutions == map["_A" := " "];
    hide ScannedFields, KeysOfAll, IsUserKey, IsBuiltIn, Normalized;
    AllMatched(n.substitutions, ScannedKeys(n));
    assert UnusedKeys(n) == {};
  }

  lemma SpacedFieldsAreOk(name: string)
    requires 0 < |name| <= MAX_IMAGE_LENGTH
    ensures var v := SpacedPath(name); SubstitutionsOk(v.substitutions) && ArtifactsOk(v)
  {
    KeyA();
    NoSpaceInReference();
    assert "gs://b/"[..5] == GS_PREFIX;
  }

  lemma SpacedPathPasses(lib: Library, name: string)
    requires '$' !in name && 0 < |name| <= MAX_IMAGE_LENGTH
    ensures BuildOk(lib, SpacedPath(name)) && SubstitutionsOk(SpacedPath(name).substitutions)
  {
    SpacedTemplateIsOk(name);
    SpacedFieldsAreOk(name);
    PlainBuildPasses(lib, name);
    hide TemplateOk, SecretsOk, Normalized, StepsOk, VolumesOk, SubstitutionsLooseOk, ArtifactsOk, EnvVarsOk;
  }

  lemma SpacedPathStays(name: string)
    requires '$' !in name
    ensures var p := Processed(SpacedPath(name), map[]);
            && p.images == [name] && p.tags == [] && |p.steps| == 1 && p.steps[0].name == name
            && p.ArtifactObjects().Some? && p.ArtifactObjects().value.paths == [" "]
  {
    hide Expand, BuiltIns;
    var v := SpacedPath(name);
    MergingNothing(v);
    var m := ReplacementsOf(Normalized(v));
    assert Lookup(m, "_A") == " ";
    hide Lookup;
    ExpandDollarFree(m, name);
    assert "$_A" + "" == "$_A" && " " + "" == " ";
    ReferenceToA(m, "");
    assert ExpandAll(m, [name]) == [name] && ExpandAll(m, ["$_A"]) == [" "];
  }

  lemma SpacedPathIsFine(lib: Library, name: string)
    requires '$' !in name && lib.imageTag(name)
    ensures AfterOk(lib, Processed(SpacedPath(name), map[]))
  {
    SpacedPathStays(name);
    hide Processed, Sanitized;
    NoTags();
  }

  lemma SpacedPathIsAccepted(lib: Library, name: string)
    requires '$' !in name && 0 < |name| <= MAX_IMAGE_LENGTH && lib.imageTag(name)
    ensures PipelineAccepts(lib, SpacedPath(name), map[])
  {
    SpacedPathPasses(lib, name);
    SpacedPathIsFine(lib, name);
    MergingNothing(SpacedPath(name));
    hide BuildOk, Processed, AfterOk, SubstitutionsOk, SubstitutionsLooseOk, Merged, SpacedPath;
  }

  lemma BlankIsSpace()
    ensures HasSpace(" ")
  {
    assert " "[..1] == " ";
  }

  /** An accepted build with a path that comes out as white space. */
  lemma PathsCanGetSpace(lib: Library, name: string)
    requires '$' !in name && 0 < |name| <= MAX_IMAGE_LENGTH && lib.imageTag(name)
    ensures var v := SpacedPath(name);
            && PipelineAccepts(lib, v, map[])
            && Result(v, map[]).ArtifactObjects().Some?
            && Result(v, map[]).ArtifactObjects().value.paths == [" "] && HasSpace(" ")
  {
    SpacedPathIsAccepted(lib, name);
    SpacedPathStays(name);
    BlankIsSpace();
    hide PipelineAccepts, Processed, HasSpace;
  }
}
