/** Which `done` channels a step waits for (build/build.go: the id table of runBuildSteps, and
    waitChansForStep), against what `WaitFor` is documented to mean. */
module Scheduler {
  import opened GoStrings
  import opened BuildModel
  import opened Steps

  // ----- which channels a step waits for

  /** `idxTranslate`: the step that carries an id, the last one if several do. */
  function IdxTranslate(steps: seq<StepValue>, n: nat): (m: map<string, nat>)
    requires n <= |steps|
    ensures forall d :: d in m ==> m[d] < n && steps[m[d]].id == d && d != ""
    ensures forall j :: 0 <= j < n && steps[j].id != "" ==> steps[j].id in m && j <= m[steps[j].id]
  {
    if n == 0 then map[]
    else if steps[n - 1].id != "" then IdxTranslate(steps, n - 1)[steps[n - 1].id := n - 1]
    else IdxTranslate(steps, n - 1)
  }

  /** The loop over the names in `WaitFor`; channels exist for the steps up to `idx` only. */
  function NamedChans(translate: map<string, nat>, idx: nat, names: seq<string>): Option<seq<nat>> {
    if names == [] then Some([])
    else
      var rest := NamedChans(translate, idx, names[1..]);
      if names[0] == START_STEP then rest
      else if names[0] !in translate || translate[names[0]] > idx || rest.None? then None
      else Some([translate[names[0]]] + rest.value)
  }

  function EarlierSteps(idx: nat): (r: seq<nat>)
    ensures forall j: nat :: j in r <==> j < idx
  {
    if idx == 0 then [] else EarlierSteps(idx - 1) + [idx - 1]
  }

  /** The steps whose channels step `idx` waits for, or `None` when a channel cannot be found. */
  function WaitChansForStep(steps: seq<StepValue>, idx: nat): Option<seq<nat>>
    requires idx < |steps|
  {
    var names := steps[idx].waitFor;
    if |names| == 1 && names[0] == START_STEP then Some([])
    else if |names| > 0 then NamedChans(IdxTranslate(steps, |steps|), idx, names)
    else Some(EarlierSteps(idx))
  }

  /** What `WaitFor` is documented to mean: nothing for the reserved name, the steps with the given
      ids, and every earlier step when no name is given. */
  predicate DependsOn(steps: seq<StepValue>, idx: nat, j: nat)
    requires idx < |steps| && j < |steps|
  {
    if steps[idx].waitFor == [] then j < idx
    else steps[j].id != START_STEP && steps[j].id != "" && steps[j].id in steps[idx].waitFor
  }

  predicate UniqueIds(steps: seq<StepValue>) {
    forall i, j :: 0 <= i < j < |steps| && steps[i].id != "" ==> steps[i].id != steps[j].id
  }

  /** `chans` are steps before `idx` named in `names`, and every name but the reserved one is met. */
  ghost predicate Meets(steps: seq<StepValue>, idx: nat, names: seq<string>, chans: seq<nat>)
    requires idx < |steps|
  {
    && (forall j :: j in chans ==> j < idx && steps[j].id in names
                                   && steps[j].id != START_STEP && steps[j].id != "")
    && (forall d :: d in names && d != START_STEP ==> exists j :: j in chans && j < |steps| && steps[j].id == d)
  }

  lemma MeetsOneMore(steps: seq<StepValue>, idx: nat, names: seq<string>, chans: seq<nat>, j: nat)
    requires idx < |steps| && names != [] && Meets(steps, idx, names[1..], chans)
    requires j < idx && steps[j].id == names[0] && names[0] != START_STEP && names[0] != ""
    ensures Meets(steps, idx, names, [j] + chans)
  {
    assert names == [names[0]] + names[1..];
    var more := [j] + chans;
    assert more[0] == j;
    forall d | d in names && d != START_STEP
      ensures exists k :: k in more && k < |steps| && steps[k].id == d
    {
      if d != names[0] {
        var k :| k in chans && k < |steps| && steps[k].id == d;
        assert k in more;
      }
    }
  }

  lemma TranslateFinds(steps: seq<StepValue>, j: nat)
    requires UniqueIds(steps) && j < |steps| && steps[j].id != ""
    ensures var m := IdxTranslate(steps, |steps|); steps[j].id in m && m[steps[j].id] == j
  {
  }

  lemma {:induction false} NamedChansFound(steps: seq<StepValue>, idx: nat, names: seq<string>)
    requires idx < |steps| && UniqueIds(steps)
    requires forall d :: d in names ==> d == START_STEP || IsIdBefore(steps, idx, d)
    ensures var r := NamedChans(IdxTranslate(steps, |steps|), idx, names);
            r.Some? && Meets(steps, idx, names, r.value)
  {
    hide IdxTranslate;
    if names != [] {
      var translate := IdxTranslate(steps, |steps|);
      NamedChansFound(steps, idx, names[1..]);
      var rest := NamedChans(translate, idx, names[1..]).value;
      assert names[0] in names;
      if names[0] != START_STEP {
        var j: nat :| j < idx && steps[j].id == names[0];
        TranslateFinds(steps, j);
        MeetsOneMore(steps, idx, names, rest, j);
      } else {
        assert forall d :: d in names && d != START_STEP ==> d in names[1..];
      }
    }
  }

  /** A channel is missing exactly if a name other than the reserved one is no id, or that of a step that
      comes later, whose channel does not exist yet. */
  lemma {:induction false} ChannelsExistIff(translate: map<string, nat>, idx: nat, names: seq<string>)
    ensures NamedChans(translate, idx, names).Some?
            <==> forall d :: d in names && d != START_STEP ==> d in translate && translate[d] <= idx
  {
    if names != [] {
      ChannelsExistIff(translate, idx, names[1..]);
      assert names == [names[0]] + names[1..];
    }
  }

  /** In an accepted build no channel is missing, and the channels found are those of exactly the
      steps depended on, all of them earlier ones. */
  lemma AcceptedStepsWaitForEarlierSteps(steps: seq<StepValue>, buildTimeout: int, idx: nat)
    requires StepsOk(steps, buildTimeout) && idx < |steps|
    ensures var chans := WaitChansForStep(steps, idx);
            && chans.Some?
            && (forall j :: j in chans.value ==> j < idx)
            && (forall j :: 0 <= j < |steps| ==> (j in chans.value <==> DependsOn(steps, idx, j)))
  {
    hide FieldsOk, IsIdBefore, IdxTranslate;
    AcceptedIdsAreUnique(steps, buildTimeout);
    assert StepOk(steps, idx, StepLimit(buildTimeout));
    var names := steps[idx].waitFor;
    if |names| == 1 && names[0] == START_STEP {
    } else if |names| > 0 {
      NamedChansFound(steps, idx, names);
      hide NamedChans;
      var chans := WaitChansForStep(steps, idx).value;
      forall j | 0 <= j < |steps| && DependsOn(steps, idx, j) ensures j in chans {
        var k :| k in chans && k < |steps| && steps[k].id == steps[j].id;
      }
    } else {
      hide NamedChans;
      assert names == [];
    }
  }

  lemma TranslateStep(steps: seq<StepValue>, n: nat, before: map<string, nat>, id: string)
    requires 0 < n <= |steps| && before == IdxTranslate(steps, n - 1) && id == steps[n - 1].id
    ensures IdxTranslate(steps, n) == if id != "" then before[id := n - 1] else before
  {
  }

  lemma SameStep(a: seq<StepValue>, b: seq<StepValue>, n: nat)
    requires 0 < n <= |a| == |b| && a[n - 1].id == b[n - 1].id
    requires IdxTranslate(a, n - 1) == IdxTranslate(b, n - 1)
    ensures IdxTranslate(a, n) == IdxTranslate(b, n)
  {
    TranslateStep(a, n, IdxTranslate(a, n - 1), a[n - 1].id);
    TranslateStep(b, n, IdxTranslate(b, n - 1), b[n - 1].id);
  }

  lemma {:induction false} SameTranslation(a: seq<StepValue>, b: seq<StepValue>, n: nat)
    requires |a| == |b| && n <= |a|
    requires forall k :: 0 <= k < |a| ==> a[k].id == b[k].id
    ensures IdxTranslate(a, n) == IdxTranslate(b, n)
  {
    if n == 0 {
      assert IdxTranslate(a, 0) == map[] == IdxTranslate(b, 0);
    } else {
      SameTranslation(a, b, n - 1);
      SameStep(a, b, n);
    }
  }

  /** The channels depend on the ids and the names waited for, and on nothing else of the steps. */
  lemma SameNamesSamePlan(a: seq<StepValue>, b: seq<StepValue>, i: nat)
    requires |a| == |b| && i < |a|
    requires forall k :: 0 <= k < |a| ==> a[k].id == b[k].id && a[k].waitFor == b[k].waitFor
    ensures WaitChansForStep(a, i) == WaitChansForStep(b, i)
  {
    hide NamedChans;
    SameTranslation(a, b, |a|);
  }

  lemma {:induction false} LeastOf(s: set<nat>) returns (least: nat)
    requires s != {}
    ensures least in s && forall x :: x in s ==> least <= x
    decreases s
  {
    var x :| x in s;
    var rest := s - {x};
    assert s == rest + {x};
    if rest == {} {
      least := x;
    } else {
      least := LeastOf(rest);
      least := if x < least then x else least;
    }
  }

  /** However a build got to where it is, among the steps of an accepted build that are unfinished one
      depends on finished steps only. */
  lemma SomeUnfinishedStepIsReady(steps: seq<StepValue>, buildTimeout: int, unfinished: set<nat>)
    requires StepsOk(steps, buildTimeout)
    requires unfinished != {} && forall i :: i in unfinished ==> i < |steps|
    ensures exists i :: i in unfinished && forall j :: j in unfinished ==> !DependsOn(steps, i, j)
  {
    hide StepsOk, DependsOn, WaitChansForStep;
    var i := LeastOf(unfinished);
    AcceptedStepsWaitForEarlierSteps(steps, buildTimeout, i);
  }
}
