/** In-place substitution over a whole build (subst/subst.go, SubstituteBuildFields). */
module Substitution {
  import opened GoStrings
  import opened Templates
  import opened BuildModel

  const MAX_SHORT_SHA_LENGTH := 7

  // ----- the replacement table

  function BranchOf(r: Revision): string {
    if r.BranchName? then r.name else ""
  }

  function TagOf(r: Revision): string {
    if r.TagName? then r.name else ""
  }

  function ShaOf(r: Revision): string {
    if r.CommitSha? then r.sha else ""
  }

  function ShortSha(sha: string): string {
    if |sha| > MAX_SHORT_SHA_LENGTH then sha[0..MAX_SHORT_SHA_LENGTH] else sha
  }

  function BuiltIns(v: BuildValue): Replacements {
    var repo := if v.source.Some? then v.source.value else RepoSource("", NoRevision);
    var sha := if v.resolved.Some? then ShaOf(v.resolved.value.revision) else "";
    map["PROJECT_ID" := v.projectId,
        "BUILD_ID" := v.id,
        "REPO_NAME" := repo.repoName,
        "BRANCH_NAME" := BranchOf(repo.revision),
        "TAG_NAME" := TagOf(repo.revision),
        "REVISION_ID" := sha,
        "COMMIT_SHA" := sha,
        "SHORT_SHA" := ShortSha(sha)]
  }

  lemma OwnNames(v: BuildValue)
    ensures "PROJECT_ID" in BuiltIns(v) && BuiltIns(v)["PROJECT_ID"] == v.projectId
    ensures "BUILD_ID" in BuiltIns(v) && BuiltIns(v)["BUILD_ID"] == v.id
    ensures v.source.Some? ==> BuiltIns(v)["REPO_NAME"] == v.source.value.repoName
  {
  }

  /** User-defined substitutions override the built-in ones. */
  function ReplacementsOf(v: BuildValue): Replacements {
    BuiltIns(v) + v.substitutions
  }

  // ----- what substitution makes of a build

  function ExpandAll(m: Replacements, items: seq<string>): (r: seq<string>)
    ensures |r| == |items| && forall i :: 0 <= i < |items| ==> r[i] == Expand(m, items[i])
  {
    seq(|items|, i requires 0 <= i < |items| => Expand(m, items[i]))
  }

  function ExpandStep(m: Replacements, s: StepValue): StepValue {
    s.(name := Expand(m, s.name), args := ExpandAll(m, s.args), env := ExpandAll(m, s.env),
       dir := Expand(m, s.dir), entrypoint := Expand(m, s.entrypoint))
  }

  function ExpandSteps(m: Replacements, steps: seq<StepValue>): (r: seq<StepValue>)
    ensures |r| == |steps| && forall i :: 0 <= i < |steps| ==> r[i] == ExpandStep(m, steps[i])
  {
    seq(|steps|, i requires 0 <= i < |steps| => ExpandStep(m, steps[i]))
  }

  function ExpandObjects(m: Replacements, o: ObjectsValue): ObjectsValue {
    ObjectsValue(Expand(m, o.location), ExpandAll(m, o.paths))
  }

  /** The image list after both image loops: a shared slice is expanded by each of them. */
  function ExpandImages(m: Replacements, images: seq<string>, shared: bool): seq<string> {
    if shared then ExpandAll(m, ExpandAll(m, images)) else ExpandAll(m, images)
  }

  function Substituted(v: BuildValue, shared: bool): BuildValue {
    var m := ReplacementsOf(v);
    v.(steps := ExpandSteps(m, v.steps),
       images := ExpandImages(m, v.images, shared),
       tags := ExpandAll(m, v.tags),
       logsBucket := Expand(m, v.logsBucket),
       artifacts :=
         if v.artifacts.None? then None
         else
           var a := v.artifacts.value;
           Some(ArtifactsValue(
                  ExpandImages(m, a.images, shared),
                  if a.objects.None? then None else Some(ExpandObjects(m, a.objects.value)))))
  }

  // ----- the loops

  method ExpandInPlace(m: Replacements, a: array<string>)
    modifies a
    ensures a[..] == ExpandAll(m, old(a[..]))
  {
    hide Expand;
    for i := 0 to a.Length
      invariant forall k :: 0 <= k < i ==> a[k] == Expand(m, old(a[k]))
      invariant forall k :: i <= k < a.Length ==> a[k] == old(a[k])
    {
      a[i] := ApplyReplacements(m, a[i]);
    }
  }

  method SubstituteStep(m: Replacements, s: BuildStep)
    requires s.Args != s.Env
    modifies s, s.Args, s.Env
    ensures s.Value() == ExpandStep(m, old(s.Value()))
  {
    hide Expand;
    s.Name := ApplyReplacements(m, s.Name);
    ExpandInPlace(m, s.Args);
    ExpandInPlace(m, s.Env);
    s.Dir := ApplyReplacements(m, s.Dir);
    s.Entrypoint := ApplyReplacements(m, s.Entrypoint);
  }

  method SubstituteSteps(m: Replacements, steps: seq<BuildStep>)
    requires SeparateSteps(steps)
    modifies steps, StepArrays(steps)
    ensures StepValues(steps) == ExpandSteps(m, old(StepValues(steps)))
  {
    hide Expand, ExpandStep, StepArrays, StepValues, ExpandSteps;
    for i := 0 to |steps|
      invariant forall k :: 0 <= k < i ==> steps[k].Value() == ExpandStep(m, old(steps[k].Value()))
      invariant forall k :: i <= k < |steps| ==> steps[k].Value() == old(steps[k].Value())
    {
      SubstituteStep(m, steps[i]);
    }
  }

  method SubstituteArtifacts(m: Replacements, a: Artifacts)
    requires a.Objects != null ==> a.Objects.Paths != a.Images
    modifies a.Images
    modifies if a.Objects == null then {} else {a.Objects, a.Objects.Paths}
    ensures a.Images[..] == ExpandAll(m, old(a.Images[..]))
    ensures a.Objects != null ==> a.Objects.Value() == ExpandObjects(m, old(a.Objects.Value()))
  {
    hide Expand;
    ExpandInPlace(m, a.Images);
    if a.Objects != null {
      a.Objects.Location := ApplyReplacements(m, a.Objects.Location);
      ExpandInPlace(m, a.Objects.Paths);
    }
  }

  /** The loops after the one over the steps. */
  method SubstituteBuildLists(m: Replacements, b: Build)
    requires b.Separate()
    modifies b`LogsBucket, b.Tags, b.ImageArrays(), b.ArtifactObjectsFootprint()
    ensures b.Images[..] == ExpandImages(m, old(b.Images[..]), b.SharesImages())
    ensures b.Tags[..] == ExpandAll(m, old(b.Tags[..]))
    ensures b.LogsBucket == Expand(m, old(b.LogsBucket))
    ensures b.Artifacts != null && b.Artifacts.Images != b.Images ==>
              b.Artifacts.Images[..] == ExpandAll(m, old(b.Artifacts.Images[..]))
    ensures b.Artifacts != null && b.Artifacts.Objects != null ==>
              b.Artifacts.Objects.Value() == ExpandObjects(m, old(b.Artifacts.Objects.Value()))
  {
    hide Expand, ExpandAll, ExpandObjects, StepValues, SeparateSteps;
    ExpandInPlace(m, b.Images);
    ExpandInPlace(m, b.Tags);
    b.LogsBucket := ApplyReplacements(m, b.LogsBucket);
    if b.Artifacts != null {
      SubstituteArtifacts(m, b.Artifacts);
    }
  }

  method SubstituteBuildFields(b: Build)
    requires b.Separate()
    modifies b`LogsBucket, b.Tags, b.ImageArrays(), b.ArtifactObjectsFootprint()
    modifies b.Steps, StepArrays(b.Steps)
    ensures b.Value() == Substituted(old(b.Value()), b.SharesImages())
  {
    hide Expand, ExpandStep, BuiltIns, ExpandObjects, ExpandSteps, ExpandAll, StepArrays, SeparateSteps,
         StepValues;
    var replacements := ReplacementsOf(b.Value());
    SubstituteSteps(replacements, b.Steps);
    label Lists:
    SubstituteBuildLists(replacements, b);
    StepValuesFrame@Lists(b.Steps);
  }
}
