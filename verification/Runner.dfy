/** The process table of RealRunner (runner/runner.go, Run and Clean) under every interleaving of
    concurrent calls. A critical section with a single table access is one event; Clean holds the
    lock over a whole loop and takes one event per process. */
module Runner {
  import opened GoStrings

  type RunId = nat
  type Pid = nat

  /** The goroutine that called Run: the process is started but not yet stored; it is stored and the
      call waits in its select; the select fired and the deferred removal is still due; it returned. */
  datatype Call = Started | Selecting | Woken | Returned

  /** The goroutine that waits for the process: not launched; in Wait; offering the result; over. */
  datatype Waiter = NotLaunched | InWait | Offering | Over

  /** `ctxDone` records that the select took the cancellation branch. */
  datatype Run = Run(pid: Pid, call: Call, waiter: Waiter, ctxDone: bool)

  /** A Clean call in its loop: the entries left to visit and the table it found. */
  datatype CleanLoop = CleanLoop(todo: set<Pid>, found: map<Pid, RunId>)

  /** What a Clean call did: its result, the table before and after, and the entries it killed. */
  datatype CleanReport = CleanReport(ok: bool, found: map<Pid, RunId>, left: map<Pid, RunId>, killed: set<Pid>)

  datatype State = State(
    runs: map<RunId, Run>,
    processes: map<Pid, RunId>,
    lock: Option<CleanLoop>,
    killed: set<RunId>,
    reports: seq<CleanReport>)

  datatype Event =
    | Start(r: RunId, newPid: Pid)
    | Register(r: RunId)
    | ProcessEnds(r: RunId)
    | WakeByResult(r: RunId)
    | WakeByContext(r: RunId)
    | Unregister(r: RunId)
    | CleanBegins
    | CleanKills(pid: Pid)
    | CleanFails(pid: Pid)
    | CleanEnds

  const INIT := State(map[], map[], None, {}, [])

  /** The operating system holds on to the pid of a process until it has been waited for. */
  predicate Reaped(run: Run) {
    run.waiter.Offering? || run.waiter.Over?
  }

  predicate Enabled(s: State, e: Event) {
    match e
    case Start(r, pid) => r !in s.runs && forall q :: q in s.runs && !Reaped(s.runs[q]) ==> s.runs[q].pid != pid
    case Register(r) => r in s.runs && s.runs[r].call.Started? && s.lock.None?
    case ProcessEnds(r) => r in s.runs && s.runs[r].waiter.InWait?
    case WakeByResult(r) => r in s.runs && s.runs[r].call.Selecting? && s.runs[r].waiter.Offering?
    case WakeByContext(r) => r in s.runs && s.runs[r].call.Selecting?
    case Unregister(r) => r in s.runs && s.runs[r].call.Woken? && s.lock.None?
    case CleanBegins => s.lock.None?
    case CleanKills(pid) =>
      && s.lock.Some? && pid in s.lock.value.todo && pid in s.processes
      && s.processes[pid] in s.runs && !Reaped(s.runs[s.processes[pid]])
    case CleanFails(pid) => s.lock.Some? && pid in s.lock.value.todo
    case CleanEnds => s.lock.Some? && s.lock.value.todo == {}
  }

  function ReportOf(s: State, ok: bool): CleanReport
    requires s.lock.Some?
  {
    var c := s.lock.value;
    CleanReport(ok, c.found, s.processes, c.found.Keys - c.todo)
  }

  function Apply(s: State, e: Event): State
    requires Enabled(s, e)
  {
    match e
    case Start(r, pid) => s.(runs := s.runs[r := Run(pid, Started, NotLaunched, false)])
    case Register(r) =>
      s.(runs := s.runs[r := s.runs[r].(call := Selecting, waiter := InWait)],
         processes := s.processes[s.runs[r].pid := r])
    case ProcessEnds(r) => s.(runs := s.runs[r := s.runs[r].(waiter := Offering)])
    case WakeByResult(r) => s.(runs := s.runs[r := s.runs[r].(call := Woken, waiter := Over)])
    case WakeByContext(r) => s.(runs := s.runs[r := s.runs[r].(call := Woken, ctxDone := true)])
    case Unregister(r) =>
      s.(runs := s.runs[r := s.runs[r].(call := Returned)], processes := s.processes - {s.runs[r].pid})
    case CleanBegins => s.(lock := Some(CleanLoop(s.processes.Keys, s.processes)))
    case CleanKills(pid) =>
      s.(lock := Some(s.lock.value.(todo := s.lock.value.todo - {pid})),
         processes := s.processes - {pid},
         killed := s.killed + {s.processes[pid]})
    case CleanFails(pid) => s.(lock := None, reports := s.reports + [ReportOf(s, false)])
    case CleanEnds => s.(lock := None, reports := s.reports + [ReportOf(s, true)])
  }

  predicate IsRun(s: State, events: seq<Event>)
    decreases |events|
  {
    events == [] || (Enabled(s, events[0]) && IsRun(Apply(s, events[0]), events[1..]))
  }

  function After(s: State, events: seq<Event>): State
    requires IsRun(s, events)
    decreases |events|
  {
    if events == [] then s else After(Apply(s, events[0]), events[1..])
  }

  // ----- what the table should hold

  /** Registered, not yet returned, and not killed by a Clean. */
  predicate Live(s: State, r: RunId) {
    r in s.runs && (s.runs[r].call.Selecting? || s.runs[r].call.Woken?) && r !in s.killed
  }

  predicate Owns(s: State, r: RunId) {
    r in s.runs && s.runs[r].pid in s.processes && s.processes[s.runs[r].pid] == r
  }

  /** Every entry belongs to a live run under its own pid, and every live run has its entry. */
  ghost predicate TableIsExact(s: State) {
    && (forall pid :: pid in s.processes ==> Live(s, s.processes[pid]) && s.runs[s.processes[pid]].pid == pid)
    && (forall r :: Live(s, r) ==> Owns(s, r))
  }

  /** Facts about runs that need nothing of the table. */
  ghost predicate RunsAreSane(s: State) {
    && (forall r :: r in s.killed ==> r in s.runs && !s.runs[r].call.Started?)
    && (forall r :: r in s.runs && s.runs[r].call.Started? ==> s.runs[r].waiter.NotLaunched?)
  }

  /** The table access of `e` touches an entry that another run owns. */
  predicate Collides(s: State, e: Event) {
    match e
    case Register(r) => r in s.runs && s.runs[r].pid in s.processes
    case Unregister(r) => r in s.runs && s.runs[r].pid in s.processes && s.processes[s.runs[r].pid] != r
    case _ => false
  }

  lemma EntryAfter(s: State, e: Event, pid: Pid)
    requires TableIsExact(s) && RunsAreSane(s) && Enabled(s, e) && !Collides(s, e)
    requires pid in Apply(s, e).processes
    ensures var t := Apply(s, e); Live(t, t.processes[pid]) && t.runs[t.processes[pid]].pid == pid
  {
  }

  lemma LiveAfter(s: State, e: Event, r: RunId)
    requires TableIsExact(s) && RunsAreSane(s) && Enabled(s, e) && !Collides(s, e)
    requires Live(Apply(s, e), r)
    ensures Owns(Apply(s, e), r)
  {
    var t := Apply(s, e);
    assert !(e.Register? && e.r == r) ==> Live(s, r) && Owns(s, r);
  }

  lemma CollisionBreaksTable(s: State, e: Event)
    requires TableIsExact(s) && RunsAreSane(s) && Enabled(s, e) && Collides(s, e)
    ensures !TableIsExact(Apply(s, e))
  {
    var t := Apply(s, e);
    var pid := s.runs[e.r].pid;
    var other := s.processes[pid];
    assert Live(s, other) && s.runs[other].pid == pid;
    assert Live(t, other) && !Owns(t, other);
  }

  /** The table stays exact at a step if and only if that step does not touch another run's entry. */
  lemma ExactTableStep(s: State, e: Event)
    requires TableIsExact(s) && RunsAreSane(s) && Enabled(s, e)
    ensures TableIsExact(Apply(s, e)) <==> !Collides(s, e)
  {
    var t := Apply(s, e);
    if !Collides(s, e) {
      hide Enabled, Apply, Collides, RunsAreSane;
      forall pid | pid in t.processes
        ensures Live(t, t.processes[pid]) && t.runs[t.processes[pid]].pid == pid
      {
        EntryAfter(s, e, pid);
      }
      forall r | Live(t, r) ensures Owns(t, r) {
        LiveAfter(s, e, r);
      }
    } else {
      CollisionBreaksTable(s, e);
    }
  }

  lemma StepKeepsRunsSane(s: State, e: Event)
    requires TableIsExact(s) && RunsAreSane(s) && Enabled(s, e)
    ensures RunsAreSane(Apply(s, e))
  {
  }

  /** Every state of a run, the first and the last included, has an exact table. */
  ghost predicate ExactThroughout(s: State, events: seq<Event>)
    requires IsRun(s, events)
    decreases |events|
  {
    TableIsExact(s) && (events == [] || ExactThroughout(Apply(s, events[0]), events[1..]))
  }

  predicate NeverCollides(s: State, events: seq<Event>)
    requires IsRun(s, events)
    decreases |events|
  {
    events == [] || (!Collides(s, events[0]) && NeverCollides(Apply(s, events[0]), events[1..]))
  }

  /** Of a whole run: the table is exact in every state if and only if no event touches the entry of
      another run. */
  lemma {:induction false} ExactThroughoutIff(s: State, events: seq<Event>)
    requires TableIsExact(s) && RunsAreSane(s) && IsRun(s, events)
    ensures ExactThroughout(s, events) <==> NeverCollides(s, events)
    decreases |events|
  {
    hide TableIsExact, RunsAreSane, Enabled, Apply, Collides;
    if events != [] {
      ExactTableStep(s, events[0]);
      StepKeepsRunsSane(s, events[0]);
      if !Collides(s, events[0]) {
        ExactThroughoutIff(Apply(s, events[0]), events[1..]);
      }
    }
  }

  // ----- runs of the system in which no pid comes back too early

  predicate Unreturned(s: State, r: RunId) {
    r in s.runs && !s.runs[r].call.Returned?
  }

  /** The new process gets the pid of a run that has not yet removed its entry. */
  predicate ReusesPid(s: State, e: Event) {
    e.Start? && exists q :: q in s.runs && Unreturned(s, q) && s.runs[q].pid == e.newPid
  }

  predicate NeverReusesPid(s: State, events: seq<Event>)
    requires IsRun(s, events)
    decreases |events|
  {
    events == [] || (!ReusesPid(s, events[0]) && NeverReusesPid(Apply(s, events[0]), events[1..]))
  }

  ghost predicate PidsAreDistinct(s: State) {
    forall q, r :: Unreturned(s, q) && Unreturned(s, r) && q != r ==> s.runs[q].pid != s.runs[r].pid
  }

  lemma StepKeepsPidsDistinct(s: State, e: Event)
    requires PidsAreDistinct(s) && Enabled(s, e) && !ReusesPid(s, e)
    ensures PidsAreDistinct(Apply(s, e))
  {
  }

  lemma DistinctPidsNeverCollide(s: State, e: Event)
    requires TableIsExact(s) && PidsAreDistinct(s) && Enabled(s, e)
    ensures !Collides(s, e)
  {
  }

  // ----- Clean

  /** While a Clean holds the lock the table is what it found, restricted to what it has yet to visit;
      what it visited is killed. */
  ghost predicate LoopIsOk(s: State) {
    s.lock.Some? ==>
      var c := s.lock.value;
      && c.todo <= c.found.Keys && s.processes == c.found - (c.found.Keys - c.todo)
      && forall pid :: pid in c.found && pid !in c.todo ==> c.found[pid] in s.killed
  }

  /** A Clean removes exactly the entries it killed, and succeeds exactly if these are all. */
  ghost predicate ReportIsOk(s: State, report: CleanReport) {
    && report.killed <= report.found.Keys
    && report.left == report.found - report.killed
    && (report.ok <==> report.left == map[])
    && forall pid :: pid in report.killed ==> report.found[pid] in s.killed
  }

  lemma StepKeepsLoopOk(s: State, e: Event)
    requires LoopIsOk(s) && Enabled(s, e)
    ensures LoopIsOk(Apply(s, e))
  {
  }

  /** A failing Clean leaves at least the entry it could not kill. */
  lemma NewReportIsOk(s: State, e: Event)
    requires LoopIsOk(s) && Enabled(s, e) && (e.CleanFails? || e.CleanEnds?)
    ensures ReportIsOk(Apply(s, e), ReportOf(s, e.CleanEnds?))
  {
    assert e.CleanFails? ==> e.pid in s.processes;
  }

  lemma StepKeepsReportsOk(s: State, e: Event)
    requires LoopIsOk(s) && Enabled(s, e)
    requires forall report :: report in s.reports ==> ReportIsOk(s, report)
    ensures forall report :: report in Apply(s, e).reports ==> ReportIsOk(Apply(s, e), report)
  {
    var t := Apply(s, e);
    forall report | report in t.reports ensures ReportIsOk(t, report) {
      if report !in s.reports {
        NewReportIsOk(s, e);
      }
    }
  }

  // ----- the waiting goroutine

  /** The result of Wait is taken by the select, or, if the context was done first, by nobody. */
  ghost predicate WaitersAreOk(s: State) {
    forall r :: r in s.runs ==>
      var run := s.runs[r];
      match run.call
      case Started => run.waiter.NotLaunched? && !run.ctxDone
      case Selecting => (run.waiter.InWait? || run.waiter.Offering?) && !run.ctxDone
      case _ => run.waiter == Over <==> !run.ctxDone
  }

  lemma StepKeepsWaitersOk(s: State, e: Event)
    requires WaitersAreOk(s) && Enabled(s, e)
    ensures WaitersAreOk(Apply(s, e))
  {
  }

  // ----- every run

  ghost predicate Inv(s: State) {
    && TableIsExact(s) && RunsAreSane(s) && PidsAreDistinct(s) && LoopIsOk(s) && WaitersAreOk(s)
    && forall report :: report in s.reports ==> ReportIsOk(s, report)
  }

  lemma StepKeepsInv(s: State, e: Event)
    requires Inv(s) && Enabled(s, e) && !ReusesPid(s, e)
    ensures Inv(Apply(s, e))
  {
    hide Enabled, Apply, ReusesPid, Collides, TableIsExact, RunsAreSane, PidsAreDistinct, LoopIsOk,
         ReportIsOk, WaitersAreOk;
    DistinctPidsNeverCollide(s, e);
    ExactTableStep(s, e);
    StepKeepsRunsSane(s, e);
    StepKeepsPidsDistinct(s, e);
    StepKeepsLoopOk(s, e);
    StepKeepsReportsOk(s, e);
    StepKeepsWaitersOk(s, e);
  }

  lemma {:induction false} RunKeepsInv(s: State, events: seq<Event>)
    requires Inv(s) && IsRun(s, events) && NeverReusesPid(s, events)
    ensures Inv(After(s, events))
    decreases |events|
  {
    hide Inv, Enabled, Apply, ReusesPid;
    if events != [] {
      StepKeepsInv(s, events[0]);
      RunKeepsInv(Apply(s, events[0]), events[1..]);
    }
  }

  lemma InitIsOk()
    ensures Inv(INIT)
  {
  }

  /** After any interleaving the table holds exactly the live runs; it is empty once every run has
      returned; and every Clean removed exactly what it killed, all of it when it succeeded. */
  lemma TableIsExactOnEveryRun(events: seq<Event>)
    requires IsRun(INIT, events) && NeverReusesPid(INIT, events)
    ensures var s := After(INIT, events);
            && TableIsExact(s)
            && ((forall r :: r in s.runs ==> s.runs[r].call.Returned?) ==> s.processes == map[])
            && (forall report :: report in s.reports ==> ReportIsOk(s, report))
  {
    hide IsRun, After, NeverReusesPid, PidsAreDistinct, LoopIsOk, WaitersAreOk, ReportIsOk;
    var s := After(INIT, events);
    assert Inv(INIT) by { InitIsOk(); }
    RunKeepsInv(INIT, events);
    if forall r :: r in s.runs ==> s.runs[r].call.Returned? {
      assert s.processes.Keys == {};
    }
  }

  lemma ExactOnEveryRunIff(events: seq<Event>)
    requires IsRun(INIT, events)
    ensures ExactThroughout(INIT, events) <==> NeverCollides(INIT, events)
  {
    InitIsOk();
    ExactThroughoutIff(INIT, events);
  }

  lemma RunsStay(s: State, e: Event)
    requires Enabled(s, e)
    ensures forall r :: r in s.runs ==> r in Apply(s, e).runs
    ensures forall r :: r in s.runs && s.runs[r].ctxDone ==> Apply(s, e).runs[r].ctxDone
  {
  }

  lemma {:induction false} WaitersOkOnEveryRun(s: State, events: seq<Event>)
    requires WaitersAreOk(s) && IsRun(s, events)
    ensures WaitersAreOk(After(s, events))
    ensures forall r :: r in s.runs ==> r in After(s, events).runs
    ensures forall r :: r in s.runs && s.runs[r].ctxDone ==> After(s, events).runs[r].ctxDone
    decreases |events|
  {
    hide Enabled, Apply, WaitersAreOk;
    if events != [] {
      StepKeepsWaitersOk(s, events[0]);
      RunsStay(s, events[0]);
      WaitersOkOnEveryRun(Apply(s, events[0]), events[1..]);
    }
  }

  /** Whatever happens, pids reused or not: the goroutine waiting for the process of a returned Run is
      over exactly when the select took its result; after the other branch it stays for ever. */
  lemma WaiterOutlivesCancelledRun(before: seq<Event>, r: RunId, later: seq<Event>)
    requires IsRun(INIT, before) && r in After(INIT, before).runs
    requires After(INIT, before).runs[r].call.Returned?
    requires IsRun(After(INIT, before), later)
    ensures var s, t := After(INIT, before), After(After(INIT, before), later);
            && (s.runs[r].waiter.Over? <==> !s.runs[r].ctxDone)
            && r in t.runs
            && (s.runs[r].ctxDone ==> !t.runs[r].waiter.Over?)
  {
    hide Enabled, Apply, IsRun, After;
    var s := After(INIT, before);
    WaitersOkOnEveryRun(INIT, before);
    WaitersOkOnEveryRun(s, later);
  }

  lemma OfferStays(s: State, e: Event, r: RunId)
    requires Enabled(s, e) && r in s.runs && s.runs[r].call.Returned? && s.runs[r].waiter.Offering?
    ensures r in Apply(s, e).runs && Apply(s, e).runs[r] == s.runs[r]
  {
  }

  lemma {:induction false} OfferStaysForEver(s: State, later: seq<Event>, r: RunId)
    requires IsRun(s, later) && r in s.runs && s.runs[r].call.Returned? && s.runs[r].waiter.Offering?
    ensures r in After(s, later).runs && After(s, later).runs[r] == s.runs[r]
    decreases |later|
  {
    hide Enabled, Apply;
    if later != [] {
      OfferStays(s, later[0], r);
      OfferStaysForEver(Apply(s, later[0]), later[1..], r);
    }
  }

  /** One event, and then the rest of the run. */
  lemma RunFrom(s: State, events: seq<Event>, i: nat, t: State)
    requires i < |events| && Enabled(s, events[i])
    requires if i + 1 == |events| then Apply(s, events[i]) == t
             else IsRun(Apply(s, events[i]), events[i + 1..]) && After(Apply(s, events[i]), events[i + 1..]) == t
    ensures IsRun(s, events[i..]) && After(s, events[i..]) == t
  {
    hide Enabled, Apply;
    assert events[i..][1..] == events[i + 1..];
    assert i + 1 == |events| ==> events[i + 1..] == [];
  }

  /** A Run whose context is done before its process ends. */
  const LEAKING_RUN := [Start(0, 7), Register(0), WakeByContext(0), Unregister(0), ProcessEnds(0)]

  /** It returns, and the goroutine that waited for the process offers the result for ever. */
  lemma CancelledRunLeaks()
    ensures IsRun(INIT, LEAKING_RUN)
    ensures var s := After(INIT, LEAKING_RUN);
            && 0 in s.runs && s.runs[0] == Run(7, Returned, Offering, true)
            && forall later :: IsRun(s, later) ==>
                 0 in After(s, later).runs && After(s, later).runs[0] == s.runs[0]
  {
    var e := LEAKING_RUN;
    var s1 := Apply(INIT, e[0]);
    var s2 := Apply(s1, e[1]);
    var s3 := Apply(s2, e[2]);
    var s4 := Apply(s3, e[3]);
    var s5 := Apply(s4, e[4]);
    hide Enabled, Apply;
    RunFrom(s4, e, 4, s5);
    RunFrom(s3, e, 3, s5);
    RunFrom(s2, e, 2, s5);
    RunFrom(s1, e, 1, s5);
    RunFrom(INIT, e, 0, s5);
    hide IsRun, After;
    assert e[0..] == e;
    forall later | IsRun(s5, later) ensures 0 in After(s5, later).runs && After(s5, later).runs[0] == s5.runs[0] {
      OfferStaysForEver(s5, later, 0);
    }
  }

  // ----- why pids must not come back too early

  /** A run in which the operating system, as it may, reuses the pid of a process that has ended
      while its Run has not yet removed the entry: the second process is alive and not in the table. */
  const REUSING_RUN := [Start(0, 7), Register(0), ProcessEnds(0), WakeByResult(0),
                       Start(1, 7), Register(1), Unregister(0)]

  lemma EarlyReuseLosesProcess()
    ensures IsRun(INIT, REUSING_RUN)
    ensures var s := After(INIT, REUSING_RUN);
            Live(s, 1) && s.processes == map[] && !TableIsExact(s)
  {
    var e := REUSING_RUN;
    var s1 := Apply(INIT, e[0]);
    var s2 := Apply(s1, e[1]);
    var s3 := Apply(s2, e[2]);
    var s4 := Apply(s3, e[3]);
    var s5 := Apply(s4, e[4]);
    var s6 := Apply(s5, e[5]);
    var s7 := Apply(s6, e[6]);
    assert Live(s7, 1) && s7.processes == map[] && !Owns(s7, 1);
    hide Enabled, Apply, Live;
    RunFrom(s6, e, 6, s7);
    RunFrom(s5, e, 5, s7);
    RunFrom(s4, e, 4, s7);
    RunFrom(s3, e, 3, s7);
    RunFrom(s2, e, 2, s7);
    RunFrom(s1, e, 1, s7);
    RunFrom(INIT, e, 0, s7);
    hide IsRun, After;
    assert e[0..] == e;
  }

  // ----- what the events decide

  /** The state of one run, read off what has happened to it. */
  ghost predicate FollowsEvents(s: State, events: seq<Event>, r: RunId) {
    && (r in s.runs <==> exists pid :: Start(r, pid) in events)
    && (r in s.runs ==>
          var run := s.runs[r];
          && Start(r, run.pid) in events
          && (!run.call.Started? <==> Register(r) in events)
          && (run.call.Woken? || run.call.Returned? <==> WakeByResult(r) in events || WakeByContext(r) in events)
          && (run.call.Returned? <==> Unregister(r) in events)
          && (run.ctxDone <==> WakeByContext(r) in events)
          && (Reaped(run) <==> ProcessEnds(r) in events)
          && (run.waiter.Over? <==> WakeByResult(r) in events))
    && (r !in s.runs ==>
          && Register(r) !in events && WakeByResult(r) !in events && WakeByContext(r) !in events
          && Unregister(r) !in events && ProcessEnds(r) !in events)
  }

  lemma StepFollowsEvents(s: State, before: seq<Event>, e: Event, r: RunId)
    requires FollowsEvents(s, before, r) && WaitersAreOk(s) && Enabled(s, e)
    ensures FollowsEvents(Apply(s, e), before + [e], r)
  {
    var events := before + [e];
    assert forall f :: f in events <==> f in before || f == e;
    if e.Start? && e.r == r {
      assert Start(r, e.newPid) in events;
    }
  }

  lemma {:induction false} RunFollowsEvents(s: State, before: seq<Event>, events: seq<Event>, r: RunId)
    requires FollowsEvents(s, before, r) && WaitersAreOk(s) && IsRun(s, events)
    ensures FollowsEvents(After(s, events), before + events, r)
    decreases |events|
  {
    hide Enabled, Apply, FollowsEvents, WaitersAreOk;
    if events == [] {
      assert before + events == before;
    } else {
      StepFollowsEvents(s, before, events[0], r);
      StepKeepsWaitersOk(s, events[0]);
      RunFollowsEvents(Apply(s, events[0]), before + [events[0]], events[1..], r);
      assert before + [events[0]] + events[1..] == before + events;
    }
  }

  /** After any events, pids reused or not: a run is registered, woken, returned and waited for exactly if
      the events say so, and has the pid it was started with. */
  lemma EventsDecide(events: seq<Event>, r: RunId)
    requires IsRun(INIT, events)
    ensures FollowsEvents(After(INIT, events), events, r)
  {
    hide Enabled, Apply;
    assert [] + events == events;
    RunFollowsEvents(INIT, [], events, r);
  }

  /** A Clean ends with one report, which is a success exactly if no kill failed; a kill hits the run the
      table has under the pid, whose process has not been waited for, and nothing else is killed. */
  lemma CleanByEvent(s: State, e: Event)
    requires Enabled(s, e)
    ensures var t := Apply(s, e);
            && (forall r :: r in t.killed <==>
                  r in s.killed || (e.CleanKills? && e.pid in s.processes && s.processes[e.pid] == r))
            && (e.CleanKills? || e.CleanFails? ==> s.lock.Some? && e.pid in s.lock.value.todo)
            && (e.CleanKills? ==>
                  && e.pid in s.processes && s.processes[e.pid] in s.runs
                  && !Reaped(s.runs[s.processes[e.pid]]))
            && (e.CleanEnds? || e.CleanFails? ==>
                  |t.reports| == |s.reports| + 1 && t.reports[..|s.reports|] == s.reports
                  && (t.reports[|s.reports|].ok <==> e.CleanEnds?))
            && (!e.CleanEnds? && !e.CleanFails? ==> t.reports == s.reports)
  {
    assert s.reports == s.reports[..|s.reports|];
  }

  /** How many Clean calls began, and how many came to an end. */
  function Beginnings(events: seq<Event>): nat {
    if events == [] then 0 else (if events[0].CleanBegins? then 1 else 0) + Beginnings(events[1..])
  }

  function Endings(events: seq<Event>): nat {
    if events == [] then 0
    else (if events[0].CleanEnds? || events[0].CleanFails? then 1 else 0) + Endings(events[1..])
  }

  function Looping(s: State): nat {
    if s.lock.Some? then 1 else 0
  }

  lemma CleansByEvent(s: State, e: Event)
    requires Enabled(s, e)
    ensures var t := Apply(s, e);
            && |t.reports| == |s.reports| + Endings([e])
            && Looping(t) + Endings([e]) == Looping(s) + Beginnings([e])
  {
    assert [e][1..] == [];
  }

  lemma {:induction false} CleansAreReported(s: State, events: seq<Event>)
    requires IsRun(s, events)
    ensures var t := After(s, events);
            && |t.reports| == |s.reports| + Endings(events)
            && Looping(t) + Endings(events) == Looping(s) + Beginnings(events)
    decreases |events|
  {
    hide Enabled, Apply;
    if events != [] {
      var e := events[0];
      assert [e][1..] == [];
      CleansByEvent(s, e);
      CleansAreReported(Apply(s, e), events[1..]);
    }
  }

  /** Clean calls exclude each other: of those that began all but the one that holds the lock, if one
      does, have ended with a report each. */
  lemma CleansExcludeEachOther(events: seq<Event>)
    requires IsRun(INIT, events)
    ensures |After(INIT, events).reports| == Endings(events)
    ensures Beginnings(events) == Endings(events) + Looping(After(INIT, events))
  {
    hide IsRun, After, Beginnings, Endings;
    CleansAreReported(INIT, events);
  }

  /** What is assumed of the operating system: processes that have not been waited for differ in pid. */
  ghost predicate PidsInUseDiffer(s: State) {
    forall q, r :: q in s.runs && r in s.runs && q != r && !Reaped(s.runs[q]) && !Reaped(s.runs[r]) ==>
      s.runs[q].pid != s.runs[r].pid
  }

  lemma StepKeepsPidsInUse(s: State, e: Event)
    requires PidsInUseDiffer(s) && WaitersAreOk(s) && Enabled(s, e)
    ensures PidsInUseDiffer(Apply(s, e))
  {
  }

  lemma {:induction false} PidsInUseDifferOnEveryRun(s: State, events: seq<Event>)
    requires PidsInUseDiffer(s) && WaitersAreOk(s) && IsRun(s, events)
    ensures PidsInUseDiffer(After(s, events))
    decreases |events|
  {
    hide Enabled, Apply, PidsInUseDiffer, WaitersAreOk;
    if events != [] {
      StepKeepsPidsInUse(s, events[0]);
      StepKeepsWaitersOk(s, events[0]);
      PidsInUseDifferOnEveryRun(Apply(s, events[0]), events[1..]);
    }
  }

  const CLEANED_RUN := [Start(0, 7), Register(0), CleanBegins, CleanKills(7), CleanEnds]
  const FAILED_CLEAN := [Start(0, 7), Register(0), CleanBegins, CleanFails(7)]

  /** A Clean that finds one process. */
  const CLEANING :=
    State(map[0 := Run(7, Selecting, InWait, false)], map[7 := 0], Some(CleanLoop({7}, map[7 := 0])), {}, [])

  lemma CleanFinds()
    ensures Enabled(INIT, Start(0, 7))
    ensures var s1 := Apply(INIT, Start(0, 7));
            && Enabled(s1, Register(0)) && Enabled(Apply(s1, Register(0)), CleanBegins)
            && Apply(Apply(s1, Register(0)), CleanBegins) == CLEANING
  {
    var s2 := Apply(Apply(INIT, Start(0, 7)), Register(0));
    assert s2.processes == map[7 := 0] && s2.processes.Keys == {7};
    assert s2.runs == map[0 := Run(7, Selecting, InWait, false)];
  }

  lemma CleanBegun(events: seq<Event>, t: State)
    requires |events| > 3 && events[..3] == CLEANED_RUN[..3]
    requires IsRun(CLEANING, events[3..]) && After(CLEANING, events[3..]) == t
    ensures IsRun(INIT, events) && After(INIT, events) == t
  {
    var s1 := Apply(INIT, Start(0, 7));
    var s2 := Apply(s1, Register(0));
    CleanFinds();
    hide Enabled, Apply;
    assert forall k :: 0 <= k < 3 ==> events[k] == events[..3][k] == CLEANED_RUN[..3][k];
    RunFrom(s2, events, 2, t);
    RunFrom(s1, events, 1, t);
    RunFrom(INIT, events, 0, t);
    assert events[0..] == events;
  }

  /** It kills the process and succeeds, */
  lemma CleanCanSucceed()
    ensures IsRun(INIT, CLEANED_RUN)
    ensures After(INIT, CLEANED_RUN).reports == [CleanReport(true, map[7 := 0], map[], {7})]
  {
    var s4 := Apply(CLEANING, CleanKills(7));
    var s5 := Apply(s4, CleanEnds);
    assert s4.lock.value.todo == {} && s4.processes == map[] && s5.reports[0].killed == {7};
    assert s5.reports == [CleanReport(true, map[7 := 0], map[], {7})];
    hide Enabled, Apply, ReportOf;
    RunFrom(s4, CLEANED_RUN, 4, s5);
    RunFrom(CLEANING, CLEANED_RUN, 3, s5);
    CleanBegun(CLEANED_RUN, s5);
  }

  /** or fails and leaves it. */
  lemma CleanCanFail()
    ensures IsRun(INIT, FAILED_CLEAN)
    ensures After(INIT, FAILED_CLEAN).reports == [CleanReport(false, map[7 := 0], map[7 := 0], {})]
  {
    var s4 := Apply(CLEANING, CleanFails(7));
    assert s4.reports[0].killed == {};
    assert s4.reports == [CleanReport(false, map[7 := 0], map[7 := 0], {})];
    hide Enabled, Apply, ReportOf;
    RunFrom(CLEANING, FAILED_CLEAN, 3, s4);
    CleanBegun(FAILED_CLEAN, s4);
  }
}
