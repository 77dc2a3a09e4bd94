/** Runs of the step executor (build/build.go, timeAndRunStep and runBuildSteps): every interleaving
    of the step goroutines, the main goroutine and an outside cancellation. */
module Executor {
  import opened GoStrings
  import opened BuildModel
  import opened Steps
  import opened Scheduler

  /** For each step the channels it waits for, in the order it receives from them. */
  type Plan = seq<Option<seq<nat>>>

  /** A step goroutine: received from `k` channels; executing; channel closed; holding an error that
      nobody has taken; returned without closing its channel. */
  datatype Phase = Waiting(k: nat) | Running | Done | Failed | Exited

  /** The main goroutine: starting step goroutines; received from `k` channels; returned. */
  datatype Main = Spawning | Collecting(k: nat) | Returned(ok: bool)

  datatype State = State(phases: seq<Phase>, cancelled: bool, main: Main)

  datatype Event =
    | Spawn | SpawnFails | AllSpawned
    | ReceiveDone(i: nat) | Begin(i: nat) | Abort(i: nat)
    | Succeed(i: nat) | Fail(i: nat) | SendError(i: nat) | DropError(i: nat)
    | CollectDone | ImagesFound | ImagesMissing | Interrupted
    | CancelBuild

  function PlanOf(steps: seq<StepValue>): (p: Plan)
    ensures |p| == |steps|
    ensures forall i :: 0 <= i < |steps| ==> p[i] == WaitChansForStep(steps, i)
  {
    seq(|steps|, i requires 0 <= i < |steps| => WaitChansForStep(steps, i))
  }

  const START := State([], false, Spawning)

  predicate IsDone(s: State, i: nat) {
    i < |s.phases| && s.phases[i].Done?
  }

  predicate IsWaiting(p: Plan, s: State, i: nat) {
    i < |s.phases| && i < |p| && p[i].Some? && s.phases[i].Waiting?
  }

  predicate CanReceive(p: Plan, s: State, i: nat) {
    IsWaiting(p, s, i) && s.phases[i].k < |p[i].value|
  }

  predicate Enabled(p: Plan, s: State, e: Event) {
    match e
    case Spawn => s.main.Spawning? && |s.phases| < |p| && p[|s.phases|].Some?
    case SpawnFails => s.main.Spawning? && |s.phases| < |p| && p[|s.phases|].None?
    case AllSpawned => s.main.Spawning? && |s.phases| == |p|
    case ReceiveDone(i) => CanReceive(p, s, i) && IsDone(s, p[i].value[s.phases[i].k])
    case Begin(i) => IsWaiting(p, s, i) && s.phases[i].k == |p[i].value|
    case Abort(i) => CanReceive(p, s, i) && s.cancelled
    case Succeed(i) => i < |s.phases| && s.phases[i].Running?
    case Fail(i) => i < |s.phases| && s.phases[i].Running?
    case SendError(i) => i < |s.phases| && s.phases[i].Failed? && s.main.Collecting? && s.main.k < |p|
    case DropError(i) => i < |s.phases| && s.phases[i].Failed? && s.cancelled
    case CollectDone => s.main.Collecting? && s.main.k < |p| && IsDone(s, s.main.k)
    case ImagesFound => s.main.Collecting? && s.main.k == |p|
    case ImagesMissing => s.main.Collecting? && s.main.k == |p|
    case Interrupted => s.main.Collecting? && s.main.k < |p| && s.cancelled
    case CancelBuild => !s.cancelled
  }

  function Apply(p: Plan, s: State, e: Event): State
    requires Enabled(p, s, e)
  {
    match e
    case Spawn => s.(phases := s.phases + [Waiting(0)])
    case SpawnFails => s.(main := Returned(false), cancelled := true)
    case AllSpawned => s.(main := Collecting(0))
    case ReceiveDone(i) => s.(phases := s.phases[i := Waiting(s.phases[i].k + 1)])
    case Begin(i) => s.(phases := s.phases[i := Running])
    case Abort(i) => s.(phases := s.phases[i := Exited])
    case Succeed(i) => s.(phases := s.phases[i := Done])
    case Fail(i) => s.(phases := s.phases[i := Failed])
    case SendError(i) => State(s.phases[i := Exited], true, Returned(false))
    case DropError(i) => s.(phases := s.phases[i := Exited])
    case CollectDone => s.(main := Collecting(s.main.k + 1))
    case ImagesFound => s.(main := Returned(true), cancelled := true)
    case ImagesMissing => s.(main := Returned(false), cancelled := true)
    case Interrupted => s.(main := Returned(false), cancelled := true)
    case CancelBuild => s.(cancelled := true)
  }

  /** `events` can happen one after the other from `s`. */
  predicate IsRun(p: Plan, s: State, events: seq<Event>)
    decreases |events|
  {
    events == [] || (Enabled(p, s, events[0]) && IsRun(p, Apply(p, s, events[0]), events[1..]))
  }

  function After(p: Plan, s: State, events: seq<Event>): State
    requires IsRun(p, s, events)
    decreases |events|
  {
    if events == [] then s else After(p, Apply(p, s, events[0]), events[1..])
  }

  // ----- what every run keeps

  /** Every channel was found and belongs to an earlier step. */
  ghost predicate EarlierOnly(p: Plan) {
    forall i :: 0 <= i < |p| ==> p[i].Some? && forall j :: j in p[i].value ==> j < i
  }

  /** The first `k` channels step `i` waits for are closed. */
  ghost predicate DoneUpTo(p: Plan, s: State, i: nat, k: nat)
    requires i < |p| && p[i].Some?
  {
    k <= |p[i].value| && forall m :: 0 <= m < k ==> IsDone(s, p[i].value[m])
  }

  ghost predicate PhaseOk(p: Plan, s: State, i: nat)
    requires i < |p| && p[i].Some? && i < |s.phases|
  {
    match s.phases[i]
    case Waiting(k) => DoneUpTo(p, s, i, k)
    case Exited => s.cancelled
    case _ => DoneUpTo(p, s, i, |p[i].value|)
  }

  ghost predicate MainOk(p: Plan, s: State) {
    match s.main
    case Spawning => true
    case Collecting(k) => |s.phases| == |p| && k <= |p| && forall j :: 0 <= j < k ==> IsDone(s, j)
    case Returned(ok) => s.cancelled && (ok ==> forall j :: 0 <= j < |p| ==> IsDone(s, j))
  }

  ghost predicate Inv(p: Plan, s: State) {
    && |s.phases| <= |p|
    && (forall i :: 0 <= i < |p| ==> p[i].Some?)
    && (forall i :: 0 <= i < |s.phases| ==> PhaseOk(p, s, i))
    && MainOk(p, s)
  }

  lemma DoneStays(p: Plan, s: State, e: Event, i: nat)
    requires Enabled(p, s, e) && IsDone(s, i)
    ensures IsDone(Apply(p, s, e), i)
  {
  }

  lemma StepKeepsPhase(p: Plan, s: State, e: Event, i: nat)
    requires Inv(p, s) && Enabled(p, s, e) && i < |s.phases|
    ensures |Apply(p, s, e).phases| >= |s.phases| && PhaseOk(p, Apply(p, s, e), i)
  {
    var t := Apply(p, s, e);
    assert PhaseOk(p, s, i);
    forall j | IsDone(s, j) ensures IsDone(t, j) {
      DoneStays(p, s, e, j);
    }
  }

  lemma FreshPhaseOk(p: Plan, s: State, i: nat)
    requires i < |p| && p[i].Some? && i < |s.phases| && s.phases[i] == Waiting(0)
    ensures PhaseOk(p, s, i)
  {
  }

  lemma StepKeepsInv(p: Plan, s: State, e: Event)
    requires Inv(p, s) && Enabled(p, s, e)
    ensures Inv(p, Apply(p, s, e))
  {
    var t := Apply(p, s, e);
    forall i | 0 <= i < |s.phases| ensures PhaseOk(p, t, i) {
      StepKeepsPhase(p, s, e, i);
    }
    hide PhaseOk;
    forall j | IsDone(s, j) ensures IsDone(t, j) {
      DoneStays(p, s, e, j);
    }
    if e.Spawn? {
      assert PhaseOk(p, t, |s.phases|) by { FreshPhaseOk(p, t, |s.phases|); }
    }
  }

  lemma {:induction false} RunKeepsInv(p: Plan, s: State, events: seq<Event>)
    requires Inv(p, s) && IsRun(p, s, events)
    ensures Inv(p, After(p, s, events))
    decreases |events|
  {
    hide Inv, Enabled, Apply;
    if events != [] {
      StepKeepsInv(p, s, events[0]);
      RunKeepsInv(p, Apply(p, s, events[0]), events[1..]);
    }
  }

  // ----- order of execution

  /** Step `i` depends on step `j`, directly or through other steps. */
  ghost predicate DependsOnTransitively(p: Plan, i: nat, j: nat)
    requires EarlierOnly(p) && i < |p|
    decreases i
  {
    j in p[i].value || exists k :: k in p[i].value && DependsOnTransitively(p, k, j)
  }

  predicate HasBegun(s: State, i: nat) {
    i < |s.phases| && (s.phases[i].Running? || s.phases[i].Done? || s.phases[i].Failed?)
  }

  lemma {:induction false} BegunAfterDependencies(p: Plan, s: State, i: nat, j: nat)
    requires EarlierOnly(p) && Inv(p, s) && HasBegun(s, i) && DependsOnTransitively(p, i, j)
    ensures IsDone(s, j)
    decreases i
  {
    assert PhaseOk(p, s, i);
    assert DoneUpTo(p, s, i, |p[i].value|);
    var chans := p[i].value;
    if j in chans {
      var m :| 0 <= m < |chans| && chans[m] == j;
    } else {
      var k :| k in chans && DependsOnTransitively(p, k, j);
      var m :| 0 <= m < |chans| && chans[m] == k;
      assert IsDone(s, chans[m]);
      BegunAfterDependencies(p, s, k, j);
    }
  }

  // ----- every run ends

  /** How many events goroutine `i` can still take part in. */
  function PhaseWeight(p: Plan, s: State, i: nat): nat
    requires i < |p|
  {
    var chans := if p[i].Some? then |p[i].value| else 0;
    if i >= |s.phases| then chans + 5
    else
      match s.phases[i]
      case Waiting(k) => (if k <= chans then chans - k else 0) + 4
      case Running => 3
      case Failed => 2
      case Done => 1
      case Exited => 1
  }

  function MainWeight(p: Plan, s: State): nat {
    match s.main
    case Spawning => |p| + 3
    case Collecting(k) => (if k <= |p| then |p| - k else 0) + 2
    case Returned(_) => 0
  }

  function PhasesWeight(p: Plan, s: State, n: nat): nat
    requires n <= |p|
  {
    if n == 0 then 0 else PhasesWeight(p, s, n - 1) + PhaseWeight(p, s, n - 1)
  }

  /** A bound on the number of events left. */
  function Weight(p: Plan, s: State): nat {
    PhasesWeight(p, s, |p|) + MainWeight(p, s) + (if s.cancelled then 0 else 1)
  }

  lemma {:induction false} PhasesWeightMonotone(p: Plan, s: State, t: State, n: nat)
    requires n <= |p|
    requires forall i :: 0 <= i < n ==> PhaseWeight(p, t, i) <= PhaseWeight(p, s, i)
    ensures PhasesWeight(p, t, n) <= PhasesWeight(p, s, n)
    ensures (exists i :: 0 <= i < n && PhaseWeight(p, t, i) < PhaseWeight(p, s, i)) ==>
              PhasesWeight(p, t, n) < PhasesWeight(p, s, n)
  {
    hide PhaseWeight;
    if n > 0 {
      PhasesWeightMonotone(p, s, t, n - 1);
    }
  }

  /** Event `e` moves goroutine `i`. */
  predicate Moves(s: State, e: Event, i: nat) {
    match e
    case Spawn => i == |s.phases|
    case ReceiveDone(j) => i == j
    case Begin(j) => i == j
    case Abort(j) => i == j
    case Succeed(j) => i == j
    case Fail(j) => i == j
    case SendError(j) => i == j
    case DropError(j) => i == j
    case _ => false
  }

  lemma PhaseWeightStep(p: Plan, s: State, e: Event, i: nat)
    requires Inv(p, s) && Enabled(p, s, e) && i < |p|
    ensures PhaseWeight(p, Apply(p, s, e), i) <= PhaseWeight(p, s, i)
    ensures Moves(s, e, i) ==> PhaseWeight(p, Apply(p, s, e), i) < PhaseWeight(p, s, i)
  {
  }

  lemma MainWeightStep(p: Plan, s: State, e: Event)
    requires Inv(p, s) && Enabled(p, s, e)
    ensures var t := Apply(p, s, e);
            && MainWeight(p, t) <= MainWeight(p, s)
            && (s.cancelled ==> t.cancelled)
            && (MainWeight(p, t) < MainWeight(p, s) || (t.cancelled && !s.cancelled)
                || exists i: nat :: i < |p| && Moves(s, e, i))
  {
    if e.Spawn? {
      assert Moves(s, e, |s.phases|);
    } else if e.ReceiveDone? || e.Begin? || e.Abort? || e.Succeed? || e.Fail? || e.DropError? {
      assert Moves(s, e, e.i) && e.i < |p|;
    }
  }

  lemma StepLosesWeight(p: Plan, s: State, e: Event)
    requires Inv(p, s) && Enabled(p, s, e)
    ensures Weight(p, Apply(p, s, e)) < Weight(p, s)
  {
    hide Inv, Enabled, Apply, PhaseWeight, Moves, MainWeight;
    var t := Apply(p, s, e);
    forall i: nat | i < |p|
      ensures PhaseWeight(p, t, i) <= PhaseWeight(p, s, i)
      ensures Moves(s, e, i) ==> PhaseWeight(p, t, i) < PhaseWeight(p, s, i)
    {
      PhaseWeightStep(p, s, e, i);
    }
    MainWeightStep(p, s, e);
    PhasesWeightMonotone(p, s, t, |p|);
  }

  /** No run is longer than the weight of the state it starts in. */
  lemma {:induction false} RunsAreFinite(p: Plan, s: State, events: seq<Event>)
    requires Inv(p, s) && IsRun(p, s, events)
    ensures |events| <= Weight(p, s)
    decreases |events|
  {
    hide Inv, Enabled, Apply, Weight;
    if events != [] {
      StepKeepsInv(p, s, events[0]);
      StepLosesWeight(p, s, events[0]);
      RunsAreFinite(p, Apply(p, s, events[0]), events[1..]);
    }
  }

  // ----- where a run can stop

  /** Nothing can happen any more, an outside cancellation excepted. */
  ghost predicate Stuck(p: Plan, s: State) {
    forall e: Event :: Enabled(p, s, e) ==> e.CancelBuild?
  }

  lemma StuckGoroutine(p: Plan, s: State, i: nat)
    requires Inv(p, s) && Stuck(p, s) && i < |s.phases|
    ensures s.phases[i].Waiting? || s.phases[i].Failed? || s.phases[i].Done? || s.phases[i].Exited?
    ensures s.cancelled ==> s.phases[i].Done? || s.phases[i].Exited?
    ensures s.main.Collecting? && s.main.k < |p| ==> !s.phases[i].Failed?
    ensures s.phases[i].Waiting? ==> !DoneUpTo(p, s, i, |p[i].value|)
  {
    assert PhaseOk(p, s, i);
    assert !Enabled(p, s, Succeed(i)) && !Enabled(p, s, DropError(i)) && !Enabled(p, s, SendError(i));
    assert !Enabled(p, s, Abort(i)) && !Enabled(p, s, Begin(i)) && !Enabled(p, s, ReceiveDone(i));
  }

  lemma StuckMain(p: Plan, s: State)
    requires Inv(p, s) && Stuck(p, s)
    ensures s.main.Returned? ||
            (s.main.Collecting? && s.main.k < |p| == |s.phases| && !s.cancelled && !IsDone(s, s.main.k))
  {
    hide PhaseOk;
    assert !Enabled(p, s, Spawn) && !Enabled(p, s, SpawnFails) && !Enabled(p, s, AllSpawned);
    assert !Enabled(p, s, CollectDone) && !Enabled(p, s, ImagesFound) && !Enabled(p, s, Interrupted);
  }

  /** While the main goroutine collects and nothing has gone wrong, a step can only have stopped for
      good by finishing: by induction the earlier steps it waits for have. */
  lemma {:induction false} StuckStepsAreDone(p: Plan, s: State, i: nat)
    requires EarlierOnly(p) && Inv(p, s) && Stuck(p, s) && i < |s.phases|
    requires s.main.Collecting? && s.main.k < |p| && !s.cancelled
    ensures IsDone(s, i)
    decreases i
  {
    StuckGoroutine(p, s, i);
    assert PhaseOk(p, s, i);
    if s.phases[i].Waiting? {
      hide Stuck, Inv;
      forall m | 0 <= m < |p[i].value| ensures IsDone(s, p[i].value[m]) {
        assert p[i].value[m] in p[i].value;
        StuckStepsAreDone(p, s, p[i].value[m]);
      }
    }
  }

  /** A run that cannot go on has returned, and has left no goroutine behind. */
  lemma StuckMeansReturned(p: Plan, s: State)
    requires EarlierOnly(p) && Inv(p, s) && Stuck(p, s)
    ensures s.main.Returned?
    ensures forall i :: 0 <= i < |s.phases| ==> s.phases[i].Done? || s.phases[i].Exited?
  {
    hide Stuck, PhaseOk, EarlierOnly;
    StuckMain(p, s);
    if !s.main.Returned? {
      StuckStepsAreDone(p, s, s.main.k);
    }
    forall i | 0 <= i < |s.phases| ensures s.phases[i].Done? || s.phases[i].Exited? {
      StuckGoroutine(p, s, i);
    }
  }

  // ----- runs in which nothing goes wrong

  /** A step fails, somebody cancels, or an image to push was not built. */
  predicate Disturbs(e: Event) {
    e.Fail? || e.CancelBuild? || e.ImagesMissing?
  }

  ghost predicate Undisturbed(events: seq<Event>) {
    forall e :: e in events ==> !Disturbs(e)
  }

  ghost predicate Quiet(s: State) {
    && (s.cancelled || s.main.Returned? ==> s.main == Returned(true))
    && forall i :: 0 <= i < |s.phases| ==> !s.phases[i].Failed? && !s.phases[i].Exited?
  }

  lemma StepKeepsQuiet(p: Plan, s: State, e: Event)
    requires EarlierOnly(p) && Inv(p, s) && Quiet(s) && Enabled(p, s, e) && !Disturbs(e)
    ensures Quiet(Apply(p, s, e))
  {
    hide PhaseOk;
    assert e.Abort? ==> IsDone(s, e.i);
  }

  lemma {:induction false} RunKeepsQuiet(p: Plan, s: State, events: seq<Event>)
    requires EarlierOnly(p) && Inv(p, s) && Quiet(s) && IsRun(p, s, events) && Undisturbed(events)
    ensures Quiet(After(p, s, events))
    decreases |events|
  {
    hide Inv, Enabled, Apply, Quiet, EarlierOnly;
    if events != [] {
      StepKeepsInv(p, s, events[0]);
      StepKeepsQuiet(p, s, events[0]);
      RunKeepsQuiet(p, Apply(p, s, events[0]), events[1..]);
    }
  }

  // ----- accepted builds

  lemma AcceptedPlan(steps: seq<StepValue>, buildTimeout: int)
    requires StepsOk(steps, buildTimeout)
    ensures EarlierOnly(PlanOf(steps)) && Inv(PlanOf(steps), START)
    ensures forall i: nat, j: nat :: i < |steps| && j < |steps| ==>
              (j in PlanOf(steps)[i].value <==> DependsOn(steps, i, j))
  {
    hide StepsOk, WaitChansForStep, DependsOn;
    var p := PlanOf(steps);
    forall i | 0 <= i < |steps|
      ensures p[i].Some? && forall j :: j in p[i].value ==> j < i
      ensures forall j: nat :: j < |steps| ==> (j in p[i].value <==> DependsOn(steps, i, j))
    {
      AcceptedStepsWaitForEarlierSteps(steps, buildTimeout, i);
    }
  }

  /** The state an accepted build is in after any events: a step that has begun finds everything it
      depends on finished; success means that every step finished; and the run is of bounded length. */
  lemma AcceptedBuildRunsInOrder(steps: seq<StepValue>, buildTimeout: int, events: seq<Event>)
    requires StepsOk(steps, buildTimeout)
    requires IsRun(PlanOf(steps), START, events)
    ensures EarlierOnly(PlanOf(steps))
    ensures var p, s := PlanOf(steps), After(PlanOf(steps), START, events);
            && (forall i: nat, j: nat :: i < |steps| && HasBegun(s, i) && DependsOnTransitively(p, i, j)
                  ==> IsDone(s, j))
            && (s.main == Returned(true) ==> forall i :: 0 <= i < |steps| ==> IsDone(s, i))
            && |events| <= Weight(p, START)
  {
    hide StepsOk, IsRun, After, DependsOnTransitively, PhaseOk, Weight;
    AcceptedPlan(steps, buildTimeout);
    var p, s := PlanOf(steps), After(PlanOf(steps), START, events);
    RunKeepsInv(p, START, events);
    RunsAreFinite(p, START, events);
    forall i: nat, j: nat | i < |steps| && HasBegun(s, i) && DependsOnTransitively(p, i, j) ensures IsDone(s, j) {
      BegunAfterDependencies(p, s, i, j);
    }
  }

  /** An accepted build cannot deadlock: where nothing more can happen the executor has returned and
      every goroutine has ended. It has returned success, with every step finished, if no step failed,
      nobody cancelled and the images were found. */
  lemma AcceptedBuildCompletes(steps: seq<StepValue>, buildTimeout: int, events: seq<Event>)
    requires StepsOk(steps, buildTimeout)
    requires IsRun(PlanOf(steps), START, events)
    requires Stuck(PlanOf(steps), After(PlanOf(steps), START, events))
    ensures var s := After(PlanOf(steps), START, events);
            && s.main.Returned?
            && (forall i :: 0 <= i < |s.phases| ==> s.phases[i].Done? || s.phases[i].Exited?)
            && (Undisturbed(events) ==>
                  s.main == Returned(true) && forall i :: 0 <= i < |steps| ==> IsDone(s, i))
  {
    hide StepsOk, IsRun, After, Stuck, PhaseOk, EarlierOnly, Undisturbed;
    AcceptedPlan(steps, buildTimeout);
    var p, s := PlanOf(steps), After(PlanOf(steps), START, events);
    RunKeepsInv(p, START, events);
    StuckMeansReturned(p, s);
    if Undisturbed(events) {
      RunKeepsQuiet(p, START, events);
    }
  }

  // ----- what the events of a run decide

  /** Step `i` has failed or given up: it will never finish. */
  predicate IsLost(s: State, i: nat) {
    i < |s.phases| && (s.phases[i].Failed? || s.phases[i].Exited?)
  }

  /** The main goroutine returns an error. */
  predicate Refuses(e: Event) {
    e.SpawnFails? || e.SendError? || e.ImagesMissing? || e.Interrupted?
  }

  lemma StepByEvent(p: Plan, s: State, e: Event, i: nat)
    requires Enabled(p, s, e)
    ensures IsDone(Apply(p, s, e), i) <==> IsDone(s, i) || e == Succeed(i)
    ensures IsLost(Apply(p, s, e), i) <==> IsLost(s, i) || e == Fail(i) || e == Abort(i)
    ensures HasBegun(Apply(p, s, e), i) ==> HasBegun(s, i) || e == Begin(i)
  {
  }

  lemma MainByEvent(p: Plan, s: State, e: Event)
    requires Enabled(p, s, e) && (s.main.Returned? ==> s.cancelled)
    ensures var t := Apply(p, s, e);
            && (t.main == Returned(true) <==> s.main == Returned(true) || e.ImagesFound?)
            && (t.main == Returned(false) <==> s.main == Returned(false) || Refuses(e))
            && (t.cancelled <==> s.cancelled || e.CancelBuild? || t.main.Returned?)
  {
  }

  lemma {:induction false} StepsByEvents(p: Plan, s: State, events: seq<Event>, i: nat)
    requires IsRun(p, s, events)
    ensures IsDone(After(p, s, events), i) <==> IsDone(s, i) || Succeed(i) in events
    ensures IsLost(After(p, s, events), i) <==> IsLost(s, i) || Fail(i) in events || Abort(i) in events
    ensures HasBegun(After(p, s, events), i) ==> HasBegun(s, i) || Begin(i) in events
    decreases |events|
  {
    hide Enabled, Apply, IsDone, IsLost, HasBegun;
    if events != [] {
      assert events == [events[0]] + events[1..];
      StepByEvent(p, s, events[0], i);
      StepsByEvents(p, Apply(p, s, events[0]), events[1..], i);
    }
  }

  lemma {:induction false} MainByEvents(p: Plan, s: State, events: seq<Event>)
    requires IsRun(p, s, events) && (s.main.Returned? ==> s.cancelled)
    ensures var t := After(p, s, events);
            && (t.main == Returned(true) <==> s.main == Returned(true) || ImagesFound in events)
            && (t.main == Returned(false) <==> s.main == Returned(false) || exists e :: e in events && Refuses(e))
            && (t.cancelled <==> s.cancelled || CancelBuild in events || t.main.Returned?)
    decreases |events|
  {
    hide Enabled, Apply, Refuses;
    if events != [] {
      var e := events[0];
      assert events == [e] + events[1..];
      MainByEvent(p, s, e);
      MainByEvents(p, Apply(p, s, e), events[1..]);
    }
  }

  /** What happened to a step can be read off the events, and what the run returned too: a step is done
      exactly if it succeeded, never after it failed, and has begun if it did either; the run returns
      success exactly if the images were found, and an error exactly if one was received. */
  lemma EventsDecide(p: Plan, events: seq<Event>, i: nat)
    requires IsRun(p, START, events)
    ensures var s := After(p, START, events);
            && (IsDone(s, i) <==> Succeed(i) in events)
            && (Fail(i) in events || Abort(i) in events ==> !IsDone(s, i))
            && (Succeed(i) in events ==> Begin(i) in events)
            && (s.main == Returned(true) <==> ImagesFound in events)
            && (s.main == Returned(false) <==> exists e :: e in events && Refuses(e))
            && (s.cancelled <==> CancelBuild in events || s.main.Returned?)
  {
    hide Enabled, Apply, IsRun, After, Refuses;
    StepsByEvents(p, START, events, i);
    MainByEvents(p, START, events);
  }

  lemma MissingRefuses()
    ensures Refuses(ImagesMissing)
  {
  }

  /** A build with a failed step does not succeed, and once nothing more can happen it has returned an
      error; a build that succeeded had every step succeed, and its images found and not missing. */
  lemma FailedStepFailsBuild(steps: seq<StepValue>, buildTimeout: int, events: seq<Event>)
    requires StepsOk(steps, buildTimeout) && IsRun(PlanOf(steps), START, events)
    ensures var p, s := PlanOf(steps), After(PlanOf(steps), START, events);
            && (s.main == Returned(true) ==>
                  && ImagesFound in events && ImagesMissing !in events
                  && forall i: nat :: i < |steps| ==> Succeed(i) in events && Fail(i) !in events)
            && (forall i: nat :: i < |steps| && Fail(i) in events ==>
                  s.main != Returned(true) && (Stuck(p, s) ==> s.main == Returned(false)))
  {
    hide StepsOk, IsRun, After, Stuck, PhaseOk, EarlierOnly, Refuses;
    AcceptedPlan(steps, buildTimeout);
    var p, s := PlanOf(steps), After(PlanOf(steps), START, events);
    RunKeepsInv(p, START, events);
    EventsDecide(p, events, 0);
    forall i: nat ensures (IsDone(s, i) <==> Succeed(i) in events) && (Fail(i) in events ==> !IsDone(s, i)) {
      EventsDecide(p, events, i);
    }
    MissingRefuses();
    if Stuck(p, s) {
      StuckMeansReturned(p, s);
    }
  }

  /** The validator is what rules deadlock out: a step that waits for its own id never begins. */
  lemma SelfDependencyDeadlocks(step: StepValue, bad: Plan)
    requires step.id == "A" && step.waitFor == ["A"] && bad == PlanOf([step])
    ensures IsRun(bad, START, [Spawn, AllSpawned])
    ensures Stuck(bad, After(bad, START, [Spawn, AllSpawned]))
    ensures !After(bad, START, [Spawn, AllSpawned]).main.Returned?
  {
    var steps := [step];
    assert steps[0] == step;
    var m := IdxTranslate(steps, 1);
    assert m["A"] == 0;
    assert ["A"][1..] == [];
    assert "A"[0] != START_STEP[0];
    assert [m["A"]] + [] == [0 as nat];
    assert NamedChans(m, 0, ["A"]) == Some([0]);
    assert bad[0] == Some([0]);
    var s1 := State([Waiting(0)], false, Spawning);
    assert Apply(bad, START, Spawn) == s1;
    var s2 := State([Waiting(0)], false, Collecting(0));
    assert Apply(bad, s1, AllSpawned) == s2;
    assert [Spawn, AllSpawned][1..] == [AllSpawned];
    assert IsRun(bad, s1, [AllSpawned]) && After(bad, s1, [AllSpawned]) == s2;
  }

  // ----- what the main goroutine does not do

  predicate IsMainEvent(e: Event) {
    || e.Spawn? || e.SpawnFails? || e.AllSpawned? || e.CollectDone? || e.SendError? || e.Interrupted?
    || e.ImagesFound? || e.ImagesMissing?
  }

  lemma ReturnedIsOver(p: Plan, s: State, e: Event)
    requires Enabled(p, s, e) && s.main.Returned?
    ensures !IsMainEvent(e) && Apply(p, s, e).main == s.main && |Apply(p, s, e).phases| == |s.phases|
  {
  }

  /** Once it has returned it does nothing: no step is started any more, and the result stays. */
  lemma {:induction false} NothingAfterReturn(p: Plan, s: State, events: seq<Event>)
    requires IsRun(p, s, events) && s.main.Returned?
    ensures After(p, s, events).main == s.main && |After(p, s, events).phases| == |s.phases|
    ensures forall e :: e in events ==> !IsMainEvent(e)
    decreases |events|
  {
    hide Enabled, Apply, IsMainEvent;
    if events != [] {
      ReturnedIsOver(p, s, events[0]);
      NothingAfterReturn(p, Apply(p, s, events[0]), events[1..]);
    }
  }

  /** Where the next step has no channels, the main goroutine can do one thing: return an error. */
  lemma MissingChannelFailsBuild(p: Plan, s: State, e: Event)
    requires s.main.Spawning? && |s.phases| < |p| && p[|s.phases|].None?
    ensures Enabled(p, s, SpawnFails) && Apply(p, s, SpawnFails).main == Returned(false)
    ensures Enabled(p, s, e) && IsMainEvent(e) ==> e.SpawnFails?
  {
  }

  ghost predicate OnlyPlanned(p: Plan, s: State) {
    && |s.phases| <= |p| && (forall i :: 0 <= i < |s.phases| ==> p[i].Some?)
    && (s.main.Collecting? ==> |s.phases| == |p| && s.main.k <= |p|)
  }

  lemma StepKeepsOnlyPlanned(p: Plan, s: State, e: Event)
    requires OnlyPlanned(p, s) && Enabled(p, s, e)
    ensures OnlyPlanned(p, Apply(p, s, e))
  {
  }

  /** Whatever the plan: a step whose channels cannot be found is not started, nor any after it, and the
      main goroutine collects only when all have been started. */
  lemma {:induction false} OnlyPlannedStepsStart(p: Plan, s: State, events: seq<Event>)
    requires OnlyPlanned(p, s) && IsRun(p, s, events)
    ensures OnlyPlanned(p, After(p, s, events))
    decreases |events|
  {
    hide Enabled, Apply, OnlyPlanned;
    if events != [] {
      StepKeepsOnlyPlanned(p, s, events[0]);
      OnlyPlannedStepsStart(p, Apply(p, s, events[0]), events[1..]);
    }
  }

  lemma CollectedByEvent(p: Plan, s: State, e: Event)
    requires s.main == Collecting(|p|) && Enabled(p, s, e)
    ensures var t := Apply(p, s, e);
            && (e.ImagesFound? ==> t.main == Returned(true)) && (e.ImagesMissing? ==> t.main == Returned(false))
            && (!e.ImagesFound? && !e.ImagesMissing? ==> t.main == s.main)
  {
  }

  lemma ImagesAreMainEvents()
    ensures IsMainEvent(ImagesFound) && IsMainEvent(ImagesMissing)
  {
  }

  lemma RunSteps(p: Plan, s: State, events: seq<Event>)
    requires IsRun(p, s, events) && events != []
    ensures Enabled(p, s, events[0]) && IsRun(p, Apply(p, s, events[0]), events[1..])
    ensures After(p, s, events) == After(p, Apply(p, s, events[0]), events[1..])
  {
  }

  lemma RunEnds(p: Plan, s: State)
    ensures IsRun(p, s, []) && After(p, s, []) == s
  {
  }

  /** Once every channel has been collected, neither an error nor a cancellation is taken any more: only
      the images decide. */
  lemma {:induction false} ImagesDecideAtTheEnd(p: Plan, s: State, events: seq<Event>)
    requires s.main == Collecting(|p|) && IsRun(p, s, events)
    ensures var t := After(p, s, events);
            && (t.main == Returned(true) <==> ImagesFound in events)
            && (t.main == Returned(false) <==> ImagesMissing in events)
    decreases |events|
  {
    hide Enabled, Apply, IsRun, After;
    if events != [] {
      var e := events[0];
      RunSteps(p, s, events);
      CollectedByEvent(p, s, e);
      assert events == [e] + events[1..];
      if e.ImagesFound? || e.ImagesMissing? {
        NothingAfterReturn(p, Apply(p, s, e), events[1..]);
        ImagesAreMainEvents();
      } else {
        ImagesDecideAtTheEnd(p, Apply(p, s, e), events[1..]);
      }
    } else {
      RunEnds(p, s);
    }
  }

  // ----- every event happens

  /** A second step that waits for the first. */
  const TWO_STEPS: Plan := [Some([]), Some([0])]

  const BEGINNING := [Spawn, Spawn, AllSpawned, Begin(0)]
  const GOOD_END := [Succeed(0), ReceiveDone(1), Begin(1), Succeed(1), CollectDone, CollectDone]
  const FAILED_END := [Fail(0), SendError(0), Abort(1)]
  const CANCELLED_END := [CancelBuild, Fail(0), DropError(0), Abort(1), Interrupted]

  /** In the plan above `events` lead from `s` to `t`. */
  ghost predicate Leads(s: State, events: seq<Event>, t: State) {
    IsRun(TWO_STEPS, s, events) && After(TWO_STEPS, s, events) == t
  }

  lemma OneEvent(s: State, e: Event, t: State)
    requires Enabled(TWO_STEPS, s, e) && Apply(TWO_STEPS, s, e) == t
    ensures Leads(s, [e], t)
  {
    hide Enabled, Apply;
    assert [e][1..] == [] && IsRun(TWO_STEPS, t, []) && After(TWO_STEPS, t, []) == t;
  }

  lemma {:induction false} ThenLeads(s: State, a: seq<Event>, t: State, b: seq<Event>, u: State)
    requires Leads(s, a, t) && Leads(t, b, u)
    ensures Leads(s, a + b, u)
    decreases |a|
  {
    hide Enabled, Apply;
    if a == [] {
      assert a + b == b;
    } else {
      assert (a + b)[1..] == a[1..] + b;
      ThenLeads(Apply(TWO_STEPS, s, a[0]), a[1..], t, b, u);
    }
  }

  lemma TwoEvents(s: State, e: Event, t: State, f: Event, u: State)
    requires Enabled(TWO_STEPS, s, e) && Apply(TWO_STEPS, s, e) == t
    requires Enabled(TWO_STEPS, t, f) && Apply(TWO_STEPS, t, f) == u
    ensures Leads(s, [e, f], u)
  {
    OneEvent(s, e, t);
    OneEvent(t, f, u);
    hide *;
    ThenLeads(s, [e], t, [f], u);
    assert [e] + [f] == [e, f];
  }

  /** The first step runs, and the second waits for it. */
  const FIRST_RUNS := State([Running, Waiting(0)], false, Collecting(0))

  lemma ItBegins()
    ensures Leads(START, BEGINNING, FIRST_RUNS)
  {
    var s := State([Waiting(0), Waiting(0)], false, Spawning);
    TwoEvents(START, Spawn, State([Waiting(0)], false, Spawning), Spawn, s);
    TwoEvents(s, AllSpawned, s.(main := Collecting(0)), Begin(0), FIRST_RUNS);
    hide *;
    ThenLeads(START, [Spawn, Spawn], s, [AllSpawned, Begin(0)], FIRST_RUNS);
    assert [Spawn, Spawn] + [AllSpawned, Begin(0)] == BEGINNING;
  }

  const SECOND_WAITS := State([Done, Waiting(1)], false, Collecting(0))
  const BOTH_DONE := State([Done, Done], false, Collecting(0))

  lemma SecondReceives()
    ensures Leads(FIRST_RUNS, [Succeed(0), ReceiveDone(1)], SECOND_WAITS)
  {
    TwoEvents(FIRST_RUNS, Succeed(0), FIRST_RUNS.(phases := [Done, Waiting(0)]), ReceiveDone(1), SECOND_WAITS);
  }

  lemma SecondRuns()
    ensures Leads(SECOND_WAITS, [Begin(1), Succeed(1)], BOTH_DONE)
  {
    TwoEvents(SECOND_WAITS, Begin(1), SECOND_WAITS.(phases := [Done, Running]), Succeed(1), BOTH_DONE);
  }

  lemma BothAreCollected()
    ensures Leads(BOTH_DONE, [CollectDone, CollectDone], BOTH_DONE.(main := Collecting(2)))
    ensures Enabled(TWO_STEPS, BOTH_DONE.(main := Collecting(2)), ImagesFound)
    ensures Enabled(TWO_STEPS, BOTH_DONE.(main := Collecting(2)), ImagesMissing)
  {
    var s := BOTH_DONE.(main := Collecting(1));
    TwoEvents(BOTH_DONE, CollectDone, s, CollectDone, BOTH_DONE.(main := Collecting(2)));
  }

  /** The second step begins when the first has succeeded; when both have, the images decide. */
  lemma StepsCanSucceed()
    ensures var s := State([Done, Done], false, Collecting(2));
            && Leads(START, BEGINNING + GOOD_END, s)
            && Enabled(TWO_STEPS, s, ImagesFound) && Enabled(TWO_STEPS, s, ImagesMissing)
  {
    hide Leads, Enabled;
    var s := BOTH_DONE.(main := Collecting(2));
    ItBegins();
    SecondReceives();
    SecondRuns();
    BothAreCollected();
    ThenLeads(SECOND_WAITS, [Begin(1), Succeed(1)], BOTH_DONE, [CollectDone, CollectDone], s);
    var rest := [Begin(1), Succeed(1)] + [CollectDone, CollectDone];
    ThenLeads(FIRST_RUNS, [Succeed(0), ReceiveDone(1)], SECOND_WAITS, rest, s);
    assert [Succeed(0), ReceiveDone(1)] + rest == GOOD_END;
    ThenLeads(START, BEGINNING, FIRST_RUNS, GOOD_END, s);
  }

  /** A failing step stops the build: its error is returned, and the step that waits for it gives up. */
  lemma StepCanFail()
    ensures Leads(START, BEGINNING + FAILED_END, State([Exited, Exited], true, Returned(false)))
  {
    var s := State([Exited, Waiting(0)], true, Returned(false));
    var t := State([Exited, Exited], true, Returned(false));
    TwoEvents(FIRST_RUNS, Fail(0), FIRST_RUNS.(phases := [Failed, Waiting(0)]), SendError(0), s);
    OneEvent(s, Abort(1), t);
    hide *;
    ItBegins();
    ThenLeads(FIRST_RUNS, [Fail(0), SendError(0)], s, [Abort(1)], t);
    assert [Fail(0), SendError(0)] + [Abort(1)] == FAILED_END;
    ThenLeads(START, BEGINNING, FIRST_RUNS, FAILED_END, t);
  }

  /** A cancelled build returns an error; the error of the step that was running is dropped. */
  lemma BuildCanBeCancelled()
    ensures Leads(START, BEGINNING + CANCELLED_END, State([Exited, Exited], true, Returned(false)))
  {
    var s := State([Failed, Waiting(0)], true, Collecting(0));
    var t := State([Exited, Exited], true, Collecting(0));
    var u := State([Exited, Exited], true, Returned(false));
    TwoEvents(FIRST_RUNS, CancelBuild, FIRST_RUNS.(cancelled := true), Fail(0), s);
    TwoEvents(s, DropError(0), s.(phases := [Exited, Waiting(0)]), Abort(1), t);
    OneEvent(t, Interrupted, u);
    hide *;
    ItBegins();
    ThenLeads(s, [DropError(0), Abort(1)], t, [Interrupted], u);
    var rest := [DropError(0), Abort(1)] + [Interrupted];
    ThenLeads(FIRST_RUNS, [CancelBuild, Fail(0)], s, rest, u);
    assert [CancelBuild, Fail(0)] + rest == CANCELLED_END;
    ThenLeads(START, BEGINNING, FIRST_RUNS, CANCELLED_END, u);
  }
}
