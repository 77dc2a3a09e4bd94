/** Validation of the build steps (validate/validate.go, CheckBuildSteps). */
module Steps {
  import opened GoStrings
  import opened BuildModel

  const START_STEP := "-"
  const MAX_TIMEOUT := 24 * 60 * 60 * 1_000_000_000
  const MAX_NUM_STEPS := 100
  const MAX_STEP_NAME_LENGTH := 1000
  const MAX_NUM_ARGS := 100
  const MAX_ARG_LENGTH := 4000
  const MAX_DIR_LENGTH := 1000

  // ----- what an acceptable list of steps is

  predicate TimeoutOk(t: Option<Duration>, limit: int) {
    match t
    case None => true
    case Some(InvalidDuration) => false
    case Some(Nanos(n)) => 0 <= n <= MAX_TIMEOUT && n <= limit
  }

  predicate FieldsOk(s: StepValue, limit: int) {
    && 0 < |s.name| <= MAX_STEP_NAME_LENGTH
    && |s.args| <= MAX_NUM_ARGS
    && (forall a :: a in s.args ==> |a| <= MAX_ARG_LENGTH)
    && |s.dir| <= MAX_DIR_LENGTH
    && (forall e :: e in s.env ==> '=' in e)
    && TimeoutOk(s.timeout, limit)
  }

  /** `d` is the id of one of the first `i` steps. */
  predicate IsIdBefore(steps: seq<StepValue>, i: nat, d: string)
    requires i <= |steps|
  {
    d != "" && exists j :: 0 <= j < i && steps[j].id == d
  }

  predicate DependenciesOk(steps: seq<StepValue>, i: nat)
    requires i < |steps|
  {
    forall d :: d in steps[i].waitFor ==> d == START_STEP || IsIdBefore(steps, i, d)
  }

  predicate IdOk(steps: seq<StepValue>, i: nat)
    requires i < |steps|
  {
    steps[i].id != "" ==> steps[i].id != START_STEP && !IsIdBefore(steps, i, steps[i].id)
  }

  predicate StepOk(steps: seq<StepValue>, i: nat, limit: int)
    requires i < |steps|
  {
    FieldsOk(steps[i], limit) && DependenciesOk(steps, i) && IdOk(steps, i)
  }

  /** A build timeout of zero means the largest one. */
  function StepLimit(buildTimeout: int): int {
    if buildTimeout == 0 then MAX_TIMEOUT else buildTimeout
  }

  predicate StepsOk(steps: seq<StepValue>, buildTimeout: int) {
    && 1 <= |steps| <= MAX_NUM_STEPS
    && forall i :: 0 <= i < |steps| ==> StepOk(steps, i, StepLimit(buildTimeout))
  }

  // ----- the checker

  method CheckLengths(items: seq<string>, max: nat) returns (ok: bool)
    ensures ok <==> forall a :: a in items ==> |a| <= max
  {
    for k := 0 to |items|
      invariant forall a :: a in items[..k] ==> |a| <= max
    {
      if |items[k]| > max {
        return false;
      }
    }
    return true;
  }

  /** The body of the loop: one step against the names known before it. */
  method CheckBuildStep(steps: seq<StepValue>, i: nat, knownSteps: set<string>, limit: int) returns (ok: bool)
    requires i < |steps|
    requires forall d :: d in knownSteps <==> d == START_STEP || IsIdBefore(steps, i, d)
    ensures ok <==> StepOk(steps, i, limit)
  {
    var s := steps[i];
    if s.name == "" || |s.name| > MAX_STEP_NAME_LENGTH || |s.args| > MAX_NUM_ARGS {
      return false;
    }
    var argsOk := CheckLengths(s.args, MAX_ARG_LENGTH);
    if !argsOk || |s.dir| > MAX_DIR_LENGTH {
      return false;
    }
    for k := 0 to |s.waitFor|
      invariant forall d :: d in s.waitFor[..k] ==> d in knownSteps
    {
      if s.waitFor[k] !in knownSteps {
        return false;
      }
    }
    if s.id != "" && (s.id in knownSteps || s.id == START_STEP) {
      return false;
    }
    for k := 0 to |s.env|
      invariant forall e :: e in s.env[..k] ==> '=' in e
    {
      if '=' !in s.env[k] {
        return false;
      }
    }
    match s.timeout
    case None => return true;
    case Some(InvalidDuration) => return false;
    case Some(Nanos(n)) => return !(n > MAX_TIMEOUT || n > limit || n < 0);
  }

  method CheckBuildSteps(steps: seq<StepValue>, buildTimeout: int) returns (ok: bool)
    ensures ok <==> StepsOk(steps, buildTimeout)
  {
    var limit := if buildTimeout == 0 then MAX_TIMEOUT else buildTimeout;
    if |steps| == 0 || |steps| > MAX_NUM_STEPS {
      return false;
    }
    var knownSteps := {START_STEP};
    for i := 0 to |steps|
      invariant forall d :: d in knownSteps <==> d == START_STEP || IsIdBefore(steps, i, d)
      invariant forall k :: 0 <= k < i ==> StepOk(steps, k, limit)
    {
      var s := steps[i];
      var stepOk := CheckBuildStep(steps, i, knownSteps, limit);
      assert stepOk <==> StepOk(steps, i, StepLimit(buildTimeout));
      if !stepOk {
        return false;
      }
      if s.id != "" {
        knownSteps := knownSteps + {s.id};
      }
    }
    return true;
  }

  // ----- consequences

  /** Ids name at most one step, none is reserved, and a dependency is a strictly earlier step. */
  lemma AcceptedIdsAreUnique(steps: seq<StepValue>, buildTimeout: int)
    requires StepsOk(steps, buildTimeout)
    ensures forall i :: 0 <= i < |steps| ==> steps[i].id != START_STEP
    ensures forall i, j :: 0 <= i < j < |steps| && steps[i].id != "" ==> steps[i].id != steps[j].id
  {
    hide FieldsOk, DependenciesOk;
    forall i, j | 0 <= i < j < |steps| && steps[i].id != "" ensures steps[i].id != steps[j].id {
      assert StepOk(steps, j, StepLimit(buildTimeout));
    }
    forall i | 0 <= i < |steps| ensures steps[i].id != START_STEP {
      assert StepOk(steps, i, StepLimit(buildTimeout));
    }
  }
}
