/** What acceptance of the volumes guarantees (validate/validate.go, checkVolumes). */
module VolumeLaws {
  import opened BuildModel
  import opened Volumes

  /** path.Clean returns a path it would leave alone. */
  ghost predicate Idempotent(clean: string -> string) {
    forall p :: clean(clean(p)) == clean(p)
  }

  /** In one step no two mounts, global or local, end up on the same cleaned path. */
  predicate MountsAreDistinct(clean: string -> string, globals: seq<Volume>, s: StepValue) {
    var mounts := globals + s.volumes;
    forall j, k :: 0 <= j < k < |mounts| ==> clean(mounts[j].path) != clean(mounts[k].path)
  }

  function CleanVolumes(clean: string -> string, vs: seq<Volume>): (r: seq<Volume>)
    ensures |r| == |vs|
    ensures forall k :: 0 <= k < |vs| ==> r[k] == Volume(vs[k].name, clean(vs[k].path))
  {
    seq(|vs|, k requires 0 <= k < |vs| => Volume(vs[k].name, clean(vs[k].path)))
  }

  function CleanSteps(clean: string -> string, steps: seq<StepValue>): (r: seq<StepValue>)
    ensures |r| == |steps|
    ensures forall i :: 0 <= i < |steps| ==>
              r[i] == steps[i].(volumes := CleanVolumes(clean, steps[i].volumes))
  {
    seq(|steps|, i requires 0 <= i < |steps| => steps[i].(volumes := CleanVolumes(clean, steps[i].volumes)))
  }

  lemma CleanListOk(clean: string -> string, vs: seq<Volume>)
    requires Idempotent(clean)
    ensures VolumeListOk(clean, CleanVolumes(clean, vs)) <==> VolumeListOk(clean, vs)
  {
  }

  lemma CleanUses(clean: string -> string, s: StepValue, name: string)
    ensures Uses(s.(volumes := CleanVolumes(clean, s.volumes)), name) <==> Uses(s, name)
  {
  }

  /** Names do not conflict and, taken from cleaned lists, no local path is a global one. */
  predicate CleanNoConflict(clean: string -> string, globals: seq<Volume>, s: StepValue) {
    forall v, g :: v in s.volumes && g in globals ==> v.name != g.name && clean(v.path) != clean(g.path)
  }

  lemma NoConflictOfCleaned(clean: string -> string, globals: seq<Volume>, s: StepValue)
    ensures NoConflict(CleanVolumes(clean, globals), s.(volumes := CleanVolumes(clean, s.volumes)))
            <==> CleanNoConflict(clean, globals, s)
  {
  }

  lemma CleanNoConflictMeans(clean: string -> string, globals: seq<Volume>, s: StepValue)
    requires VolumeListOk(clean, globals) && VolumeListOk(clean, s.volumes)
    ensures CleanNoConflict(clean, globals, s)
            <==> NoConflict(globals, s) && MountsAreDistinct(clean, globals, s)
  {
    hide VolumeOk;
    var mounts := globals + s.volumes;
    assert forall k :: 0 <= k < |s.volumes| ==> mounts[|globals| + k] == s.volumes[k];
    if MountsAreDistinct(clean, globals, s) {
      forall v, g | v in s.volumes && g in globals ensures clean(v.path) != clean(g.path) {
        var j :| 0 <= j < |s.volumes| && s.volumes[j] == v;
        var k :| 0 <= k < |globals| && globals[k] == g;
        assert mounts[k] == g && mounts[|globals| + j] == v;
      }
    }
  }

  /** The raw-path comparison is exactly as good as the cleaned one when the paths come cleaned:
      cleaning them first accepts the builds accepted before whose mounts are also distinct. */
  lemma CleanedPathsMakeTheCheckExact(clean: string -> string, globals: seq<Volume>, steps: seq<StepValue>)
    requires Idempotent(clean)
    ensures VolumesOk(clean, CleanVolumes(clean, globals), CleanSteps(clean, steps))
            <==> VolumesOk(clean, globals, steps)
                 && forall i :: 0 <= i < |steps| ==> MountsAreDistinct(clean, globals, steps[i])
  {
    hide VolumeListOk, NoConflict, Uses, MountsAreDistinct, CleanNoConflict, Idempotent, CleanVolumes;
    var gs, ts := CleanVolumes(clean, globals), CleanSteps(clean, steps);
    hide CleanSteps;
    CleanListOk(clean, globals);
    forall i | 0 <= i < |steps|
      ensures VolumeListOk(clean, ts[i].volumes) <==> VolumeListOk(clean, steps[i].volumes)
      ensures VolumeListOk(clean, globals) && VolumeListOk(clean, steps[i].volumes) ==>
                (NoConflict(gs, ts[i])
                 <==> NoConflict(globals, steps[i]) && MountsAreDistinct(clean, globals, steps[i]))
      ensures forall name :: Uses(ts[i], name) <==> Uses(steps[i], name)
    {
      CleanListOk(clean, steps[i].volumes);
      NoConflictOfCleaned(clean, globals, steps[i]);
      if VolumeListOk(clean, globals) && VolumeListOk(clean, steps[i].volumes) {
        CleanNoConflictMeans(clean, globals, steps[i]);
      }
      forall name ensures Uses(ts[i], name) <==> Uses(steps[i], name) {
        CleanUses(clean, steps[i], name);
      }
    }
    assert forall name :: UsedTwice(ts, name) <==> UsedTwice(steps, name);
  }

  predicate PathsAreClean(clean: string -> string, vs: seq<Volume>) {
    forall v :: v in vs ==> clean(v.path) == v.path
  }

  lemma CleanPathsStay(clean: string -> string, vs: seq<Volume>)
    requires PathsAreClean(clean, vs)
    ensures CleanVolumes(clean, vs) == vs
  {
  }

  /** With cleaned paths an accepted build mounts nothing twice in one step. */
  lemma AcceptedMountsAreDistinct(clean: string -> string, globals: seq<Volume>, steps: seq<StepValue>)
    requires Idempotent(clean) && VolumesOk(clean, globals, steps)
    requires PathsAreClean(clean, globals)
    requires forall i :: 0 <= i < |steps| ==> PathsAreClean(clean, steps[i].volumes)
    ensures forall i :: 0 <= i < |steps| ==> MountsAreDistinct(clean, globals, steps[i])
  {
    hide VolumesOk, MountsAreDistinct, Idempotent, PathsAreClean;
    CleanPathsStay(clean, globals);
    forall i | 0 <= i < |steps| ensures CleanSteps(clean, steps)[i] == steps[i] {
      CleanPathsStay(clean, steps[i].volumes);
    }
    assert CleanSteps(clean, steps) == steps;
    CleanedPathsMakeTheCheckExact(clean, globals, steps);
  }

  /** Every volume of a step of an accepted build is mounted by some other step too, and is not global. */
  lemma AcceptedVolumesAreShared(clean: string -> string, globals: seq<Volume>, steps: seq<StepValue>,
                                 i: nat, v: Volume)
    requires VolumesOk(clean, globals, steps) && i < |steps| && v in steps[i].volumes
    ensures exists j :: 0 <= j < |steps| && j != i && Uses(steps[j], v.name)
    ensures forall g :: g in globals ==> g.name != v.name
  {
    hide VolumeListOk;
    assert Uses(steps[i], v.name);
    assert UsedTwice(steps, v.name);
    assert NoConflict(globals, steps[i]);
  }

  lemma DataVolumesAreOk(clean: string -> string, s: StepValue)
    requires clean("/data") == "/data" && clean("/data/") == "/data"
    requires s.volumes == [Volume("local", "/data/")]
    ensures VolumeListOk(clean, [Volume("global", "/data")]) && VolumeListOk(clean, s.volumes)
  {
  }

  /** With paths that are not cleaned an accepted build can mount a global and a local volume on the
      same directory. */
  lemma RawPathsCanCollide(clean: string -> string, s: StepValue)
    requires clean("/data") == "/data" && clean("/data/") == "/data"
    requires s.volumes == [Volume("local", "/data/")]
    ensures var globals := [Volume("global", "/data")];
            VolumesOk(clean, globals, [s, s]) && !MountsAreDistinct(clean, globals, s)
  {
    var globals, steps := [Volume("global", "/data")], [s, s];
    DataVolumesAreOk(clean, s);
    hide VolumeListOk;
    assert s.volumes[0] == Volume("local", "/data/");
    assert "global"[0] != "local"[0] && |"/data"| != |"/data/"|;
    var mounts := globals + s.volumes;
    assert mounts[0] == globals[0] && mounts[1] == s.volumes[0];
    forall name | Uses(s, name) ensures UsedTwice(steps, name) {
      assert Uses(steps[0], name) && Uses(steps[1], name);
    }
  }
}
