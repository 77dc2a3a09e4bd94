/** The build request (the protobuf messages the validator and the substituter work on).
    What the code overwrites in place is a class or an array, so that two fields holding the same
    slice are visible; what it only reads is a value. `Value()` is the content of a build. */
module BuildModel {
  import opened GoStrings

  datatype Revision = NoRevision | BranchName(name: string) | TagName(name: string) | CommitSha(sha: string)

  datatype RepoSource = RepoSource(repoName: string, revision: Revision)

  datatype Volume = Volume(name: string, path: string)

  datatype Secret = Secret(kmsKeyName: string, secretEnv: map<string, string>)

  /** A protobuf duration is either outside the range Go can hold or a number of nanoseconds. */
  datatype Duration = InvalidDuration | Nanos(n: int)

  datatype Options = Options(
    env: seq<string>,
    secretEnv: seq<string>,
    volumes: seq<Volume>,
    allowLoose: bool)

  datatype StepValue = StepValue(
    name: string,
    args: seq<string>,
    env: seq<string>,
    dir: string,
    entrypoint: string,
    id: string,
    waitFor: seq<string>,
    secretEnv: seq<string>,
    volumes: seq<Volume>,
    timeout: Option<Duration>)

  datatype ObjectsValue = ObjectsValue(location: string, paths: seq<string>)

  datatype ArtifactsValue = ArtifactsValue(images: seq<string>, objects: Option<ObjectsValue>)

  datatype BuildValue = BuildValue(
    id: string,
    projectId: string,
    source: Option<RepoSource>,
    resolved: Option<RepoSource>,
    timeout: Option<Duration>,
    options: Options,
    secrets: seq<Secret>,
    substitutions: map<string, string>,
    steps: seq<StepValue>,
    images: seq<string>,
    tags: seq<string>,
    logsBucket: string,
    artifacts: Option<ArtifactsValue>)
  {
    /** `b.GetArtifacts().GetImages()` */
    function ArtifactImages(): seq<string> {
      if artifacts.Some? then artifacts.value.images else []
    }

    /** `b.GetArtifacts().GetObjects()` */
    function ArtifactObjects(): Option<ObjectsValue> {
      if artifacts.Some? then artifacts.value.objects else None
    }
  }

  class BuildStep {
    var Name: string
    var Dir: string
    var Entrypoint: string
    const Args: array<string>
    const Env: array<string>
    const Id: string
    const WaitFor: seq<string>
    const SecretEnv: seq<string>
    const Volumes: seq<Volume>
    const Timeout: Option<Duration>

    constructor (v: StepValue)
      ensures Value() == v && fresh(Args) && fresh(Env) && Args != Env
    {
      Name, Dir, Entrypoint := v.name, v.dir, v.entrypoint;
      Args := new string[|v.args|](i requires 0 <= i < |v.args| => v.args[i]);
      Env := new string[|v.env|](i requires 0 <= i < |v.env| => v.env[i]);
      Id, WaitFor, SecretEnv, Volumes, Timeout := v.id, v.waitFor, v.secretEnv, v.volumes, v.timeout;
      new;
      assert Args[..] == v.args && Env[..] == v.env;
    }

    function Value(): StepValue
      reads this, Args, Env
    {
      StepValue(Name, Args[..], Env[..], Dir, Entrypoint, Id, WaitFor, SecretEnv, Volumes, Timeout)
    }
  }

  class ArtifactObjects {
    var Location: string
    const Paths: array<string>

    constructor (location: string, paths: array<string>)
      ensures Location == location && Paths == paths
    {
      Location, Paths := location, paths;
    }

    function Value(): ObjectsValue
      reads this, Paths
    {
      ObjectsValue(Location, Paths[..])
    }
  }

  class Artifacts {
    var Images: array<string>
    const Objects: ArtifactObjects?

    constructor (images: array<string>, objects: ArtifactObjects?)
      ensures Images == images && Objects == objects
    {
      Images, Objects := images, objects;
    }

    function Value(): ArtifactsValue
      reads this, Images, Objects, if Objects == null then {} else {Objects.Paths}
    {
      ArtifactsValue(Images[..], if Objects == null then None else Some(Objects.Value()))
    }
  }

  /** The arrays owned by a list of steps. */
  ghost function StepArrays(steps: seq<BuildStep>): (r: set<array<string>>)
    ensures forall s :: s in steps ==> s.Args in r && s.Env in r
  {
    (set s | s in steps :: s.Args) + (set s | s in steps :: s.Env)
  }

  /** Distinct steps, each with two arrays of its own. */
  ghost predicate SeparateSteps(steps: seq<BuildStep>) {
    && (forall i :: 0 <= i < |steps| ==> steps[i].Args != steps[i].Env)
    && (forall i, j :: 0 <= i < j < |steps| ==>
          && steps[i] != steps[j]
          && steps[i].Args != steps[j].Args && steps[i].Env != steps[j].Env
          && steps[i].Args != steps[j].Env && steps[i].Env != steps[j].Args)
  }

  function StepValues(steps: seq<BuildStep>): (vs: seq<StepValue>)
    reads steps, StepArrays(steps)
    ensures |vs| == |steps| && forall i :: 0 <= i < |steps| ==> vs[i] == steps[i].Value()
  {
    if steps == [] then [] else [steps[0].Value()] + StepValues(steps[1..])
  }

  twostate lemma StepValuesFrame(steps: seq<BuildStep>)
    requires forall s :: s in steps ==> unchanged(s) && unchanged(s.Args) && unchanged(s.Env)
    ensures StepValues(steps) == old(StepValues(steps))
  {
    hide StepValues, StepArrays;
  }

  class Build {
    const Id: string
    const ProjectId: string
    const Source: Option<RepoSource>
    const Resolved: Option<RepoSource>
    const Timeout: Option<Duration>
    const Options: Options
    const Secrets: seq<Secret>
    const Steps: seq<BuildStep>
    var Substitutions: map<string, string>
    var Images: array<string>
    var Tags: array<string>
    var LogsBucket: string
    var Artifacts: Artifacts?

    constructor (id: string, projectId: string, source: Option<RepoSource>, resolved: Option<RepoSource>,
                 timeout: Option<Duration>, options: Options, secrets: seq<Secret>,
                 substitutions: map<string, string>, steps: seq<BuildStep>, images: array<string>,
                 tags: array<string>, logsBucket: string, artifacts: Artifacts?)
      ensures Id == id && ProjectId == projectId && Source == source && Resolved == resolved
      ensures Timeout == timeout && Options == options && Secrets == secrets && Steps == steps
      ensures Substitutions == substitutions && Images == images && Tags == tags
      ensures LogsBucket == logsBucket && Artifacts == artifacts
    {
      Id, ProjectId, Source, Resolved := id, projectId, source, resolved;
      Timeout, Options, Secrets, Steps := timeout, options, secrets, steps;
      Substitutions, Images, Tags := substitutions, images, tags;
      LogsBucket, Artifacts := logsBucket, artifacts;
    }

    /** The objects `Artifacts` leads to, its image list excepted. */
    ghost function ArtifactObjectsFootprint(): set<object>
      reads this, Artifacts
    {
      if Artifacts == null || Artifacts.Objects == null then {}
      else {Artifacts.Objects, Artifacts.Objects.Paths}
    }

    ghost function ImageArrays(): set<array<string>>
      reads this, Artifacts
    {
      {Images} + if Artifacts == null then {} else {Artifacts.Images}
    }

    /** No two fields hold the same slice, except that the two image lists may. */
    ghost predicate Separate()
      reads this, Artifacts
    {
      && SeparateSteps(Steps)
      && StepArrays(Steps) !! ImageArrays() + {Tags} + ArtifactObjectsFootprint()
      && ImageArrays() !! {Tags} + ArtifactObjectsFootprint()
      && Tags !in ArtifactObjectsFootprint()
    }

    /** Both image lists are one slice. */
    predicate SharesImages()
      reads this, Artifacts
    {
      Artifacts != null && Artifacts.Images == Images
    }

    function Value(): BuildValue
      reads this, Images, Tags, Steps, StepArrays(Steps)
      reads Artifacts, ImageArrays(), ArtifactObjectsFootprint()
    {
      BuildValue(Id, ProjectId, Source, Resolved, Timeout, Options, Secrets, Substitutions,
                 StepValues(Steps), Images[..], Tags[..], LogsBucket,
                 if Artifacts == null then None else Some(Artifacts.Value()))
    }
  }

  /** A build whose objects were left alone has the content it had. */
  twostate lemma ValueFrame(b: Build)
    requires unchanged(b) && unchanged(b.Images) && unchanged(b.Tags)
    requires forall s :: s in b.Steps ==> unchanged(s) && unchanged(s.Args) && unchanged(s.Env)
    requires b.Artifacts != null ==> unchanged(b.Artifacts) && unchanged(b.Artifacts.Images)
    requires b.Artifacts != null && b.Artifacts.Objects != null ==>
               unchanged(b.Artifacts.Objects) && unchanged(b.Artifacts.Objects.Paths)
    ensures b.Value() == old(b.Value())
  {
    hide StepValues, StepArrays;
    StepValuesFrame(b.Steps);
  }
}
