/** Validation of the volumes (validate/validate.go, commonVolumeChecks and checkVolumes).
    `clean` is path.Clean. */
module Volumes {
  import opened GoStrings
  import opened BuildModel

  const CLOUDBUILD_PREFIX := "/cloudbuild/"
  const RESERVED_VOLUME_PATHS := {"/workspace", "/builder/home", "/var/run/docker.sock"}

  predicate IsAlphaNumeric(c: char) {
    'a' <= c <= 'z' || 'A' <= c <= 'Z' || '0' <= c <= '9'
  }

  /** `^[a-zA-Z0-9][a-zA-Z0-9_.-]+$` */
  predicate ValidVolumeName(name: string) {
    && |name| >= 2 && IsAlphaNumeric(name[0])
    && forall k :: 1 <= k < |name| ==> IsAlphaNumeric(name[k]) || name[k] in "_.-"
  }

  /** The conditions on one volume alone. */
  predicate VolumeOk(clean: string -> string, v: Volume) {
    var p := clean(v.path);
    && ValidVolumeName(v.name)
    && HasPrefix(clean(p), "/")
    && p !in RESERVED_VOLUME_PATHS
    && !HasPrefix(p, CLOUDBUILD_PREFIX)
  }

  predicate VolumeListOk(clean: string -> string, vs: seq<Volume>) {
    && (forall k :: 0 <= k < |vs| ==> VolumeOk(clean, vs[k]))
    && (forall j, k :: 0 <= j < k < |vs| ==> vs[j].name != vs[k].name)
    && (forall j, k :: 0 <= j < k < |vs| ==> clean(vs[j].path) != clean(vs[k].path))
  }

  lemma VolumeListOneByOne(clean: string -> string, vs: seq<Volume>, i: nat)
    requires i < |vs|
    ensures VolumeListOk(clean, vs[..i + 1])
            <==> && VolumeListOk(clean, vs[..i]) && VolumeOk(clean, vs[i])
                 && forall k :: 0 <= k < i ==> vs[k].name != vs[i].name && clean(vs[k].path) != clean(vs[i].path)
    ensures VolumeListOk(clean, vs) ==> VolumeListOk(clean, vs[..i + 1])
  {
  }

  method CommonVolumeChecks(clean: string -> string, volumes: seq<Volume>) returns (ok: bool)
    ensures ok <==> VolumeListOk(clean, volumes)
  {
    assert volumes[..|volumes|] == volumes;
    assert VolumeListOk(clean, volumes[..0]);
    hide VolumeListOk, ValidVolumeName, HasPrefix;
    var volumeNames: set<string>, volumePaths: set<string> := {}, {};
    for i := 0 to |volumes|
      invariant VolumeListOk(clean, volumes[..i])
      invariant volumeNames == set k | 0 <= k < i :: volumes[k].name
      invariant volumePaths == set k | 0 <= k < i :: clean(volumes[k].path)
    {
      var vol := volumes[i];
      VolumeListOneByOne(clean, volumes, i);
      if !ValidVolumeName(vol.name) {
        return false;
      }
      var p := clean(vol.path);
      if !HasPrefix(clean(p), "/") || p in RESERVED_VOLUME_PATHS || HasPrefix(p, CLOUDBUILD_PREFIX) {
        return false;
      }
      if vol.name in volumeNames {
        return false;
      }
      volumeNames := volumeNames + {vol.name};
      if p in volumePaths {
        return false;
      }
      volumePaths := volumePaths + {p};
    }
    return true;
  }

  // ----- volumes across steps

  predicate Uses(s: StepValue, name: string) {
    exists v :: v in s.volumes && v.name == name
  }

  /** A step-local volume is also mounted by another step. */
  predicate UsedTwice(steps: seq<StepValue>, name: string) {
    exists i, j :: 0 <= i < j < |steps| && Uses(steps[i], name) && Uses(steps[j], name)
  }

  predicate NoConflict(globals: seq<Volume>, s: StepValue) {
    forall v, g :: v in s.volumes && g in globals ==> v.name != g.name && v.path != g.path
  }

  ghost predicate VolumesOk(clean: string -> string, globals: seq<Volume>, steps: seq<StepValue>) {
    && (|globals| > 0 ==> |steps| >= 2)
    && VolumeListOk(clean, globals)
    && (forall i :: 0 <= i < |steps| ==> VolumeListOk(clean, steps[i].volumes))
    && (forall i :: 0 <= i < |steps| ==> NoConflict(globals, steps[i]))
    && (forall name :: (exists i :: 0 <= i < |steps| && Uses(steps[i], name)) ==> UsedTwice(steps, name))
  }

  /** Which of the first `n` steps mount a volume called `name`. */
  function Users(steps: seq<StepValue>, n: nat, name: string): set<nat>
    requires n <= |steps|
  {
    set i: nat | i < n && Uses(steps[i], name)
  }

  function VolumeNames(volumes: seq<Volume>): set<string> {
    set v | v in volumes :: v.name
  }

  lemma UsesIsByName(s: StepValue, name: string)
    ensures Uses(s, name) <==> name in VolumeNames(s.volumes)
  {
  }

  /** `more` is `used` with one more use of each of the names. */
  ghost predicate OneMoreUse(used: map<string, nat>, names: set<string>, more: map<string, nat>) {
    && more.Keys == used.Keys + names
    && forall name :: name in more ==>
         more[name] == (if name in used then used[name] else 0) + (if name in names then 1 else 0)
  }

  lemma CountName(used: map<string, nat>, names: set<string>, more: map<string, nat>, name: string)
    requires OneMoreUse(used, names, more) && name !in names
    ensures OneMoreUse(used, names + {name}, more[name := (if name in more then more[name] else 0) + 1])
  {
  }

  method CountUses(used: map<string, nat>, volumes: seq<Volume>) returns (r: map<string, nat>)
    requires forall j, k :: 0 <= j < k < |volumes| ==> volumes[j].name != volumes[k].name
    ensures OneMoreUse(used, VolumeNames(volumes), r)
  {
    r := used;
    ghost var names: set<string> := {};
    assert OneMoreUse(used, names, r);
    hide OneMoreUse;
    for k := 0 to |volumes|
      invariant OneMoreUse(used, names, r)
      invariant names == set j | 0 <= j < k :: volumes[j].name
    {
      var name := volumes[k].name;
      CountName(used, names, r, name);
      r := r[name := (if name in r then r[name] else 0) + 1];
      names := names + {name};
    }
    assert names == VolumeNames(volumes);
  }

  lemma UsersGrow(steps: seq<StepValue>, n: nat, name: string)
    requires n < |steps|
    ensures |Users(steps, n + 1, name)| == |Users(steps, n, name)| + (if Uses(steps[n], name) then 1 else 0)
  {
    hide Uses;
    if Uses(steps[n], name) {
      assert Users(steps, n + 1, name) == Users(steps, n, name) + {n};
    } else {
      assert Users(steps, n + 1, name) == Users(steps, n, name);
    }
  }

  lemma SubsetSize<T>(a: set<T>, b: set<T>)
    requires a <= b
    ensures |a| <= |b|
  {
    assert b == a + (b - a);
  }

  /** The counter of a name reaches two exactly when two different steps use it. */
  lemma TwoUsers(steps: seq<StepValue>, name: string)
    ensures |Users(steps, |steps|, name)| >= 2 <==> UsedTwice(steps, name)
  {
    hide Uses;
    var users := Users(steps, |steps|, name);
    if UsedTwice(steps, name) {
      var i: nat, j: nat :| i < j < |steps| && Uses(steps[i], name) && Uses(steps[j], name);
      assert {i, j} <= users;
      SubsetSize({i, j}, users);
    }
    if |users| >= 2 {
      var i :| i in users;
      assert |users - {i}| >= 1;
      var j :| j in users - {i};
      assert i < j || j < i;
    }
  }

  /** The counters after the first `n` steps. */
  ghost predicate Counted(steps: seq<StepValue>, n: nat, used: map<string, nat>)
    requires n <= |steps|
  {
    && (forall name :: name in used <==> exists k :: 0 <= k < n && Uses(steps[k], name))
    && (forall name :: name in used ==> used[name] == |Users(steps, n, name)|)
  }

  lemma NoUsers(steps: seq<StepValue>, n: nat, name: string)
    requires n <= |steps| && forall k :: 0 <= k < n ==> !Uses(steps[k], name)
    ensures Users(steps, n, name) == {}
  {
  }

  lemma CountedOneMore(steps: seq<StepValue>, n: nat, used: map<string, nat>, more: map<string, nat>)
    requires n < |steps| && Counted(steps, n, used)
    requires OneMoreUse(used, VolumeNames(steps[n].volumes), more)
    ensures Counted(steps, n + 1, more)
  {
    hide Uses, VolumeNames, Users;
    forall name
      ensures name in more <==> name in used || Uses(steps[n], name)
      ensures name in more ==> more[name] == |Users(steps, n + 1, name)|
    {
      UsesIsByName(steps[n], name);
      UsersGrow(steps, n, name);
      if name !in used {
        NoUsers(steps, n, name);
      }
    }
  }

  method CountAllUses(steps: seq<StepValue>) returns (volumesUsed: map<string, nat>)
    requires forall i :: 0 <= i < |steps| ==>
               forall j, k :: 0 <= j < k < |steps[i].volumes| ==> steps[i].volumes[j].name != steps[i].volumes[k].name
    ensures Counted(steps, |steps|, volumesUsed)
  {
    volumesUsed := map[];
    assert Counted(steps, 0, volumesUsed);
    hide Counted;
    for i := 0 to |steps|
      invariant Counted(steps, i, volumesUsed)
    {
      var more := CountUses(volumesUsed, steps[i].volumes);
      CountedOneMore(steps, i, volumesUsed, more);
      volumesUsed := more;
    }
  }

  method ConflictsWithGlobals(globals: seq<Volume>, steps: seq<StepValue>) returns (ok: bool)
    ensures ok <==> forall i :: 0 <= i < |steps| ==> NoConflict(globals, steps[i])
  {
    var globalNames := set g | g in globals :: g.name;
    var globalPaths := set g | g in globals :: g.path;
    for i := 0 to |steps|
      invariant forall k :: 0 <= k < i ==> NoConflict(globals, steps[k])
    {
      var volumes := steps[i].volumes;
      for k := 0 to |volumes|
        invariant forall v :: v in volumes[..k] ==> v.name !in globalNames && v.path !in globalPaths
      {
        var vol := volumes[k];
        assert vol in volumes;
        if vol.name in globalNames || vol.path in globalPaths {
          return false;
        }
      }
    }
    return true;
  }

  method CheckCounts(steps: seq<StepValue>, volumesUsed: map<string, nat>) returns (ok: bool)
    requires Counted(steps, |steps|, volumesUsed)
    ensures ok <==>
              forall name :: (exists i :: 0 <= i < |steps| && Uses(steps[i], name)) ==> UsedTwice(steps, name)
  {
    hide Uses, UsedTwice, Users;
    var rest := volumesUsed.Keys;
    while rest != {}
      invariant rest <= volumesUsed.Keys
      invariant forall name :: name in volumesUsed.Keys - rest ==> UsedTwice(steps, name)
    {
      var volume :| volume in rest;
      TwoUsers(steps, volume);
      if volumesUsed[volume] < 2 {
        return false;
      }
      rest := rest - {volume};
    }
    return true;
  }

  method CheckVolumes(clean: string -> string, globals: seq<Volume>, steps: seq<StepValue>) returns (ok: bool)
    ensures ok <==> VolumesOk(clean, globals, steps)
  {
    if |globals| > 0 && |steps| < 2 {
      return false;
    }
    var globalsOk := CommonVolumeChecks(clean, globals);
    if !globalsOk {
      return false;
    }
    for i := 0 to |steps|
      invariant forall k :: 0 <= k < i ==> VolumeListOk(clean, steps[k].volumes)
    {
      var stepOk := CommonVolumeChecks(clean, steps[i].volumes);
      if !stepOk {
        return false;
      }
    }
    var noConflict := ConflictsWithGlobals(globals, steps);
    if !noConflict {
      return false;
    }
    var volumesUsed := CountAllUses(steps);
    ok := CheckCounts(steps, volumesUsed);
  }
}
