/**
The verification runner: at most one run per terminal and a bounded number in all, each run started, possibly
cancelled or timed out, and finished once. Every step is one stretch of the source between two awaits or one
event of a timer or child process. Shutdown is not part of this model.
*/
module VerificationRunner {
  import opened Options

  datatype Reason = ByOperator | ByTimer

  datatype Completion =
    | Exited(exitCode: Option<int>, signal: Option<int>, reason: Option<Reason>, forced: bool)
    | Broke(spawned: bool)

  datatype RunStatus = Running | Cancelling | Passed | Failed | Error | Cancelled | TimedOut

  /** One child process; completion is set when finishing begins, done when the run has been reported. */
  datatype Process = Process(
    owner: string, runId: nat, status: RunStatus, reason: Option<Reason>, forced: bool,
    completion: Option<Completion>, done: bool)

  datatype Report = Report(process: nat, owner: string, status: RunStatus)

  datatype Runner = Runner(
    maxRuns: nat, active: map<string, nat>, pending: set<string>, processes: seq<Process>, reports: seq<Report>)

  datatype Refusal = Busy | NotRunning | Mismatch

  datatype Event =
    | Reserve(owner: string)
    | Spawn(owner: string, runId: nat)
    | StartFails(owner: string)
    | Cancel(owner: string, runId: nat)
    | TimesOut(process: nat)
    | Forces(process: nat)
    | Closes(process: nat, exitCode: Option<int>, signal: Option<int>)
    | Breaks(process: nat, spawned: bool)
    | Completes(process: nat)

  function New(maxRuns: nat): Runner {
    Runner(maxRuns, map[], {}, [], [])
  }

  /** The status a finished run is reported with. */
  function FinalStatus(c: Completion): RunStatus {
    match c
    case Broke(_) => Error
    case Exited(exitCode, signal, reason, _) =>
      if reason == Some(ByOperator) then Cancelled
      else if reason == Some(ByTimer) then TimedOut
      else if exitCode == Some(0) && signal.None? then Passed
      else if exitCode.Some? || signal.Some? then Failed
      else Error
  }

  function MayReserve(r: Runner, owner: string): bool {
    owner !in r.active && owner !in r.pending && |r.active| + |r.pending| < r.maxRuns
  }

  function Tells(r: Runner, process: nat, status: RunStatus): Runner
    requires process < |r.processes|
  {
    r.(reports := r.reports + [Report(process, r.processes[process].owner, status)])
  }

  function Changes(r: Runner, process: nat, p: Process): Runner
    requires process < |r.processes|
  {
    r.(processes := r.processes[process := p])
  }

  /** The first reason to terminate stays. */
  function RequestsTermination(r: Runner, process: nat, reason: Reason): Runner
    requires process < |r.processes|
  {
    var p := r.processes[process];
    if p.completion.Some? || p.reason.Some? then r else Changes(r, process, p.(reason := Some(reason)))
  }

  function MayCancel(r: Runner, owner: string, runId: nat): bool {
    && owner in r.active && r.active[owner] < |r.processes|
    && r.processes[r.active[owner]].completion.None?
    && r.processes[r.active[owner]].runId == runId
  }

  function CancelRun(r: Runner, process: nat): Runner
    requires process < |r.processes|
  {
    var p := r.processes[process];
    if p.reason.Some? then r
    else
      var marked := Changes(r, process, p.(status := Cancelling));
      Tells(RequestsTermination(marked, process, ByOperator), process, Cancelling)
  }

  function BeginsFinish(r: Runner, process: nat, c: Completion): Runner
    requires process < |r.processes|
  {
    var p := r.processes[process];
    if p.completion.Some? then r else Changes(r, process, p.(completion := Some(c)))
  }

  function Finishes(r: Runner, process: nat): Runner
    requires process < |r.processes| && r.processes[process].completion.Some?
  {
    var p := r.processes[process];
    var status := FinalStatus(p.completion.value);
    Tells(Changes(r, process, p.(status := status, done := true)), process, status)
    .(active := r.active - {p.owner})
  }

  function Step(r: Runner, e: Event): Runner {
    match e
    case Reserve(owner) => if MayReserve(r, owner) then r.(pending := r.pending + {owner}) else r
    case Spawn(owner, runId) =>
      if owner !in r.pending then r
      else
        var process := |r.processes|;
        var begun := r.(
          processes := r.processes + [Process(owner, runId, Running, None, false, None, false)],
          active := r.active[owner := process], pending := r.pending - {owner});
        Tells(begun, process, Running)
    case StartFails(owner) => r.(pending := r.pending - {owner})
    case Cancel(owner, runId) => if MayCancel(r, owner, runId) then CancelRun(r, r.active[owner]) else r
    case TimesOut(process) =>
      if |r.processes| <= process then r else RequestsTermination(r, process, ByTimer)
    case Forces(process) =>
      if |r.processes| <= process || r.processes[process].completion.Some? || r.processes[process].reason.None? then r
      else Changes(r, process, r.processes[process].(forced := true))
    case Closes(process, exitCode, signal) =>
      if |r.processes| <= process then r
      else BeginsFinish(r, process,
                        Exited(exitCode, signal, r.processes[process].reason, r.processes[process].forced))
    case Breaks(process, spawned) =>
      if |r.processes| <= process then r else BeginsFinish(r, process, Broke(spawned))
    case Completes(process) =>
      if |r.processes| <= process || r.processes[process].completion.None? || r.processes[process].done then r
      else Finishes(r, process)
  }

  function Run(r: Runner, events: seq<Event>): Runner
    decreases |events|
  {
    if events == [] then r else Run(Step(r, events[0]), events[1..])
  }

  // ---------------------------------------------------------------- invariant

  /** What has been reported about a process, in order. */
  function Told(reports: seq<Report>, process: nat): seq<RunStatus> {
    if reports == [] then []
    else
      var n := |reports| - 1;
      Told(reports[..n], process) + if reports[n].process == process then [reports[n].status] else []
  }

  /** The whole story of a run so far. */
  function Story(p: Process): seq<RunStatus> {
    [Running]
    + (if p.reason == Some(ByOperator) then [Cancelling] else [])
    + (if p.done && p.completion.Some? then [FinalStatus(p.completion.value)] else [])
  }

  predicate ProcessInv(p: Process) {
    && (p.done ==> p.completion.Some?)
    && (p.completion.Some? && p.completion.value.Exited? ==> p.completion.value.reason == p.reason)
    && (p.forced ==> p.reason.Some?)
    && p.status == (if p.done && p.completion.Some? then FinalStatus(p.completion.value)
                    else if p.reason == Some(ByOperator) then Cancelling else Running)
  }

  predicate OwnersInv(r: Runner) {
    && |r.active| + |r.pending| <= r.maxRuns
    && r.active.Keys !! r.pending
    && (forall o <- r.active :: r.active[o] < |r.processes| && r.processes[r.active[o]].owner == o
                               && !r.processes[r.active[o]].done)
    && (forall i | 0 <= i < |r.processes| :: !r.processes[i].done ==>
          r.processes[i].owner in r.active && r.active[r.processes[i].owner] == i)
  }

  predicate Inv(r: Runner) {
    && OwnersInv(r)
    && (forall i | 0 <= i < |r.processes| :: ProcessInv(r.processes[i]))
    && (forall i | 0 <= i < |r.processes| :: Told(r.reports, i) == Story(r.processes[i]))
    && AllBelow(r.reports, |r.processes|)
  }

  predicate AllBelow(reports: seq<Report>, n: nat) {
    forall k | 0 <= k < |reports| :: reports[k].process < n
  }

  lemma ToldAppend(reports: seq<Report>, report: Report, process: nat)
    ensures Told(reports + [report], process)
         == Told(reports, process) + if report.process == process then [report.status] else []
  {
    assert (reports + [report])[..|reports|] == reports;
  }

  lemma {:induction false} NothingTold(reports: seq<Report>, process: nat)
    requires AllBelow(reports, process)
    ensures Told(reports, process) == []
  {
    if reports != [] {
      NothingTold(reports[..|reports| - 1], process);
    }
  }

  /** A step on one process that extends its story by what it reports. */
  predicate Extends(r: Runner, r': Runner, process: nat, told: seq<RunStatus>) {
    && process < |r.processes| == |r'.processes| && |told| <= 1
    && r'.processes == r.processes[process := r'.processes[process]]
    && r'.processes[process].owner == r.processes[process].owner
    && r'.reports == r.reports
       + (if told == [] then [] else [Report(process, r.processes[process].owner, told[0])])
    && Story(r'.processes[process]) == Story(r.processes[process]) + told
    && ProcessInv(r'.processes[process])
  }

  lemma ExtendsKeepsStories(r: Runner, r': Runner, process: nat, told: seq<RunStatus>)
    requires Inv(r) && Extends(r, r', process, told)
    ensures forall i | 0 <= i < |r'.processes| :: ProcessInv(r'.processes[i])
    ensures forall i | 0 <= i < |r'.processes| :: Told(r'.reports, i) == Story(r'.processes[i])
    ensures AllBelow(r'.reports, |r'.processes|)
  {
    forall i | 0 <= i < |r'.processes|
      ensures ProcessInv(r'.processes[i]) && Told(r'.reports, i) == Story(r'.processes[i])
    {
      assert i != process ==> r'.processes[i] == r.processes[i];
      if told != [] {
        ToldAppend(r.reports, Report(process, r.processes[process].owner, told[0]), i);
        assert [told[0]] == told;
      } else {
        assert r'.reports == r.reports;
      }
    }
  }

  lemma ExtendsKeepsInv(r: Runner, r': Runner, process: nat, told: seq<RunStatus>)
    requires Inv(r) && Extends(r, r', process, told)
    requires r'.maxRuns == r.maxRuns && r'.active == r.active && r'.pending == r.pending
    requires r'.processes[process].done == r.processes[process].done
    ensures Inv(r')
  {
    ExtendsKeepsStories(r, r', process, told);
    ChangeKeepsOwners(r, r', process);
  }

  lemma ChangeKeepsOwners(r: Runner, r': Runner, process: nat)
    requires OwnersInv(r) && process < |r.processes| == |r'.processes|
    requires r'.maxRuns == r.maxRuns && r'.active == r.active && r'.pending == r.pending
    requires r'.processes == r.processes[process := r'.processes[process]]
    requires r'.processes[process].owner == r.processes[process].owner
    requires r'.processes[process].done == r.processes[process].done
    ensures OwnersInv(r')
  {
    forall i | 0 <= i < |r'.processes|
      ensures r'.processes[i].owner == r.processes[i].owner && r'.processes[i].done == r.processes[i].done
    {
      assert i != process ==> r'.processes[i] == r.processes[i];
    }
  }

  lemma TerminationKeepsInv(r: Runner, process: nat)
    requires Inv(r) && process < |r.processes|
    ensures Inv(RequestsTermination(r, process, ByTimer))
  {
    var r' := RequestsTermination(r, process, ByTimer);
    if r' != r {
      ExtendsKeepsInv(r, r', process, []);
    }
  }

  lemma ForceKeepsInv(r: Runner, process: nat)
    requires Inv(r) && process < |r.processes|
    requires r.processes[process].completion.None? && r.processes[process].reason.Some?
    ensures Inv(Changes(r, process, r.processes[process].(forced := true)))
  {
    ExtendsKeepsInv(r, Changes(r, process, r.processes[process].(forced := true)), process, []);
  }

  lemma CancelKeepsInv(r: Runner, process: nat)
    requires Inv(r) && process < |r.processes| && r.processes[process].completion.None?
    ensures Inv(CancelRun(r, process))
  {
    var p := r.processes[process];
    if p.reason.None? {
      var p' := p.(status := Cancelling, reason := Some(ByOperator));
      assert CancelRun(r, process).processes == r.processes[process := p'];
      assert Story(p') == Story(p) + [Cancelling];
      ExtendsKeepsInv(r, CancelRun(r, process), process, [Cancelling]);
    }
  }

  lemma FinishBeginsKeepsInv(r: Runner, process: nat, c: Completion)
    requires Inv(r) && process < |r.processes|
    requires c.Exited? ==> c.reason == r.processes[process].reason
    ensures Inv(BeginsFinish(r, process, c))
  {
    var r' := BeginsFinish(r, process, c);
    if r' != r {
      ExtendsKeepsInv(r, r', process, []);
    }
  }

  lemma RemoveOne<K, V>(m: map<K, V>, k: K)
    requires k in m
    ensures |m - {k}| == |m| - 1
  {
    assert (m - {k}).Keys == m.Keys - {k};
    assert |m.Keys| == |m| && |(m - {k}).Keys| == |m - {k}|;
  }

  lemma AddOne<K, V>(m: map<K, V>, k: K, v: V)
    requires k !in m
    ensures |m[k := v]| == |m| + 1
  {
    assert m[k := v].Keys == m.Keys + {k};
    assert |m.Keys| == |m| && |m[k := v].Keys| == |m[k := v]|;
  }

  lemma FinishKeepsOwners(r: Runner, r': Runner, process: nat)
    requires OwnersInv(r) && process < |r.processes| == |r'.processes| && !r.processes[process].done
    requires r'.maxRuns == r.maxRuns && r'.pending == r.pending
    requires r'.active == r.active - {r.processes[process].owner}
    requires r'.processes == r.processes[process := r'.processes[process]]
    requires r'.processes[process].done && r'.processes[process].owner == r.processes[process].owner
    ensures OwnersInv(r')
  {
    RemoveOne(r.active, r.processes[process].owner);
  }

  lemma FinishExtends(r: Runner, process: nat)
    requires process < |r.processes| && ProcessInv(r.processes[process])
    requires r.processes[process].completion.Some? && !r.processes[process].done
    ensures Extends(r, Finishes(r, process), process, [FinalStatus(r.processes[process].completion.value)])
  {
    var p := r.processes[process];
    var status := FinalStatus(p.completion.value);
    assert Story(p.(status := status, done := true)) == Story(p) + [status];
  }

  lemma FinishKeepsInv(r: Runner, process: nat)
    requires Inv(r) && process < |r.processes|
    requires r.processes[process].completion.Some? && !r.processes[process].done
    ensures Inv(Finishes(r, process))
  {
    var status := FinalStatus(r.processes[process].completion.value);
    var r' := Finishes(r, process);
    FinishExtends(r, process);
    ExtendsKeepsStories(r, r', process, [status]);
    FinishKeepsOwners(r, r', process);
  }

  function Spawned(r: Runner, owner: string, runId: nat): Runner {
    var process := |r.processes|;
    r.(processes := r.processes + [Process(owner, runId, Running, None, false, None, false)],
       active := r.active[owner := process], pending := r.pending - {owner},
       reports := r.reports + [Report(process, owner, Running)])
  }

  lemma SpawnStories(r: Runner, owner: string, runId: nat, i: nat)
    requires Inv(r) && i <= |r.processes|
    ensures var r' := Spawned(r, owner, runId);
            ProcessInv(r'.processes[i]) && Told(r'.reports, i) == Story(r'.processes[i])
  {
    var n := |r.processes|;
    ToldAppend(r.reports, Report(n, owner, Running), i);
    if i == n {
      NothingTold(r.reports, n);
    } else {
      assert Told(r.reports, i) + [] == Told(r.reports, i);
    }
  }

  lemma SpawnOwners(r: Runner, owner: string, runId: nat)
    requires OwnersInv(r) && owner in r.pending
    ensures OwnersInv(Spawned(r, owner, runId))
  {
    AddOne(r.active, owner, |r.processes|);
    DropOne(r.pending, owner);
  }

  lemma DropOne(s: set<string>, x: string)
    requires x in s
    ensures |s - {x}| == |s| - 1
  {
  }

  lemma SpawnIs(r: Runner, owner: string, runId: nat)
    requires owner in r.pending
    ensures Step(r, Spawn(owner, runId)) == Spawned(r, owner, runId)
  {
  }

  lemma SpawnKeepsInv(r: Runner, owner: string, runId: nat)
    requires Inv(r) && owner in r.pending
    ensures Inv(Step(r, Spawn(owner, runId)))
  {
    SpawnIs(r, owner, runId);
    SpawnedInv(r, owner, runId);
  }

  lemma SpawnedInv(r: Runner, owner: string, runId: nat)
    requires Inv(r) && owner in r.pending
    ensures Inv(Spawned(r, owner, runId))
  {
    var r' := Spawned(r, owner, runId);
    SpawnOwners(r, owner, runId);
    forall i | 0 <= i < |r'.processes|
      ensures ProcessInv(r'.processes[i]) && Told(r'.reports, i) == Story(r'.processes[i])
    {
      SpawnStories(r, owner, runId, i);
    }
  }

  /** Reserving and giving up only touch the pending owners. */
  lemma PendingKeepsInv(r: Runner, pending: set<string>)
    requires Inv(r) && r.active.Keys !! pending && |r.active| + |pending| <= r.maxRuns
    ensures Inv(r.(pending := pending))
  {
  }

  lemma RemoveFromSet(s: set<string>, x: string)
    ensures |s - {x}| <= |s|
  {
    if x in s {
      assert s == (s - {x}) + {x};
    } else {
      assert s - {x} == s;
    }
  }

  lemma StartStepKeepsInv(r: Runner, e: Event)
    requires Inv(r) && (e.Reserve? || e.Spawn? || e.StartFails?)
    ensures Inv(Step(r, e))
  {
    match e {
      case Reserve(owner) => if MayReserve(r, owner) { PendingKeepsInv(r, r.pending + {owner}); }
      case Spawn(owner, runId) => if owner in r.pending { SpawnKeepsInv(r, owner, runId); }
      case StartFails(owner) =>
        RemoveFromSet(r.pending, owner);
        PendingKeepsInv(r, r.pending - {owner});
    }
  }

  lemma CancelStepKeepsInv(r: Runner, owner: string, runId: nat)
    requires Inv(r)
    ensures Inv(Step(r, Cancel(owner, runId)))
  {
    if MayCancel(r, owner, runId) {
      CancelKeepsInv(r, r.active[owner]);
    }
  }

  lemma TimeStepKeepsInv(r: Runner, process: nat)
    requires Inv(r)
    ensures Inv(Step(r, TimesOut(process)))
  {
    if process < |r.processes| {
      TerminationKeepsInv(r, process);
    }
  }

  lemma ForceStepKeepsInv(r: Runner, process: nat)
    requires Inv(r)
    ensures Inv(Step(r, Forces(process)))
  {
    if process < |r.processes| && r.processes[process].completion.None? && r.processes[process].reason.Some? {
      ForceKeepsInv(r, process);
    }
  }

  lemma CloseStepKeepsInv(r: Runner, process: nat, exitCode: Option<int>, signal: Option<int>)
    requires Inv(r)
    ensures Inv(Step(r, Closes(process, exitCode, signal)))
  {
    if process < |r.processes| {
      var p := r.processes[process];
      FinishBeginsKeepsInv(r, process, Exited(exitCode, signal, p.reason, p.forced));
    }
  }

  lemma BreakStepKeepsInv(r: Runner, process: nat, hadProcess: bool)
    requires Inv(r)
    ensures Inv(Step(r, Breaks(process, hadProcess)))
  {
    if process < |r.processes| {
      FinishBeginsKeepsInv(r, process, Broke(hadProcess));
    }
  }

  lemma CompleteStepKeepsInv(r: Runner, process: nat)
    requires Inv(r)
    ensures Inv(Step(r, Completes(process)))
  {
    if process < |r.processes| && r.processes[process].completion.Some? && !r.processes[process].done {
      FinishKeepsInv(r, process);
    }
  }

  lemma StepKeepsInv(r: Runner, e: Event)
    requires Inv(r)
    ensures Inv(Step(r, e))
  {
    match e {
      case Cancel(owner, runId) => CancelStepKeepsInv(r, owner, runId);
      case TimesOut(process) => TimeStepKeepsInv(r, process);
      case Forces(process) => ForceStepKeepsInv(r, process);
      case Closes(process, exitCode, signal) => CloseStepKeepsInv(r, process, exitCode, signal);
      case Breaks(process, hadProcess) => BreakStepKeepsInv(r, process, hadProcess);
      case Completes(process) => CompleteStepKeepsInv(r, process);
      case _ => StartStepKeepsInv(r, e);
    }
  }

  lemma {:induction false} RunKeepsInv(r: Runner, events: seq<Event>)
    requires Inv(r)
    ensures Inv(Run(r, events))
    decreases |events|
  {
    if events != [] {
      StepKeepsInv(r, events[0]);
      RunKeepsInv(Step(r, events[0]), events[1..]);
    }
  }

  // ---------------------------------------------------------------- theorems

  predicate Live(r: Runner, process: nat) {
    process < |r.processes| && !r.processes[process].done
  }

  ghost predicate Reachable(r: Runner, maxRuns: nat) {
    exists events :: r == Run(New(maxRuns), events)
  }

  lemma ReachableInv(r: Runner, maxRuns: nat)
    requires Reachable(r, maxRuns)
    ensures Inv(r) && r.maxRuns == maxRuns
  {
    var events :| r == Run(New(maxRuns), events);
    RunKeepsInv(New(maxRuns), events);
    RunKeepsBound(New(maxRuns), events);
  }

  /** However calls, timers and child events interleave, the bound holds and no terminal has two runs. */
  lemma BoundedRuns(r: Runner, maxRuns: nat)
    requires Reachable(r, maxRuns)
    ensures |r.active| + |r.pending| <= maxRuns && r.active.Keys !! r.pending
    ensures forall i: nat | Live(r, i) :: r.processes[i].owner in r.active && r.active[r.processes[i].owner] == i
    ensures forall i: nat, j: nat | Live(r, i) && Live(r, j) && i != j ::
              r.processes[i].owner != r.processes[j].owner
  {
    ReachableInv(r, maxRuns);
  }

  lemma StepKeepsBound(r: Runner, e: Event)
    ensures Step(r, e).maxRuns == r.maxRuns
  {
  }

  lemma {:induction false} RunKeepsBound(r: Runner, events: seq<Event>)
    ensures Run(r, events).maxRuns == r.maxRuns
    decreases |events|
  {
    if events != [] {
      StepKeepsBound(r, events[0]);
      RunKeepsBound(Step(r, events[0]), events[1..]);
    }
  }

  predicate IsTerminal(s: RunStatus) {
    s != Running && s != Cancelling
  }

  /**
  The reports about a run are "running", then "cancelling" exactly when it was cancelled before any time
  out, then exactly one final status exactly when it has finished; after "cancelling" that is "cancelled"
  or "error", and without it never "cancelled".
  */
  lemma ReportsOfARun(r: Runner, maxRuns: nat, process: nat)
    requires Reachable(r, maxRuns) && process < |r.processes|
    ensures var p, told := r.processes[process], Told(r.reports, process);
            && 1 <= |told| && told[0] == Running
            && (p.reason == Some(ByOperator) <==> 2 <= |told| && told[1] == Cancelling)
            && |told| == 1 + (if p.reason == Some(ByOperator) then 1 else 0) + (if p.done then 1 else 0)
            && (p.done <==> IsTerminal(told[|told| - 1]))
            && (p.done ==> told[|told| - 1] == p.status)
            && (p.done && p.reason == Some(ByOperator) ==> p.status == Cancelled || p.status == Error)
            && (p.done && p.reason != Some(ByOperator) ==> p.status != Cancelled)
            && (p.done && p.reason == Some(ByTimer) ==> p.status == TimedOut || p.status == Error)
  {
    ReachableInv(r, maxRuns);
    StoryShape(r.processes[process]);
  }

  lemma StoryShape(p: Process)
    requires ProcessInv(p)
    ensures var told := Story(p);
            && 1 <= |told| && told[0] == Running
            && (p.reason == Some(ByOperator) <==> 2 <= |told| && told[1] == Cancelling)
            && |told| == 1 + (if p.reason == Some(ByOperator) then 1 else 0) + (if p.done then 1 else 0)
            && (p.done <==> IsTerminal(told[|told| - 1]))
            && (p.done ==> told[|told| - 1] == p.status)
            && (p.done && p.reason == Some(ByOperator) ==> p.status == Cancelled || p.status == Error)
            && (p.done && p.reason != Some(ByOperator) ==> p.status != Cancelled)
            && (p.done && p.reason == Some(ByTimer) ==> p.status == TimedOut || p.status == Error)
  {
  }

  /** Whatever happens later, the first reason to terminate stays, and so does the evidence of how a run ended. */
  predicate Settled(r: Runner, r': Runner, process: nat) {
    && process < |r.processes| <= |r'.processes|
    && ProcessInv(r'.processes[process])
    && var p, p' := r.processes[process], r'.processes[process];
    && p.owner == p'.owner && p.runId == p'.runId
    && (p.reason.Some? ==> p'.reason == p.reason)
    && (p.completion.Some? ==> p'.completion == p.completion && p'.reason == p.reason && p'.forced == p.forced)
    && (p.done ==> p' == p)
  }

  lemma StepSettles(r: Runner, e: Event, process: nat)
    requires process < |r.processes| && ProcessInv(r.processes[process])
    ensures Settled(r, Step(r, e), process)
  {
  }

  lemma {:induction false} FirstReasonStays(r: Runner, events: seq<Event>, process: nat)
    requires process < |r.processes| && ProcessInv(r.processes[process])
    ensures Settled(r, Run(r, events), process)
    decreases |events|
  {
    if events != [] {
      StepSettles(r, events[0], process);
      FirstReasonStays(Step(r, events[0]), events[1..], process);
    }
  }

  predicate Runs(r: Runner, owner: string) {
    exists i | 0 <= i < |r.processes| :: r.processes[i].owner == owner && r.processes[i].completion.None?
  }

  /** The unfinished run of an owner, if there is one, is the active one. */
  lemma RunsIff(r: Runner, owner: string)
    requires Inv(r)
    ensures Runs(r, owner) <==> owner in r.active && r.processes[r.active[owner]].completion.None?
  {
    if i :| 0 <= i < |r.processes| && r.processes[i].owner == owner && r.processes[i].completion.None? {
      assert ProcessInv(r.processes[i]);
    }
  }

  // ---------------------------------------------------------------- the object

  class VerificationRunnerObject {
    const maxRuns: nat
    var activeByOwner: map<string, nat>
    var pendingOwners: set<string>
    var processes: seq<Process>
    ghost var reports: seq<Report>

    ghost function State(): Runner
      reads this
    {
      Runner(maxRuns, activeByOwner, pendingOwners, processes, reports)
    }

    constructor (maxRuns: nat)
      ensures State() == New(maxRuns) && Inv(State())
    {
      this.maxRuns := maxRuns;
      activeByOwner, pendingOwners, processes, reports := map[], {}, [], [];
    }

    method Emit(process: nat, status: RunStatus)
      requires process < |processes|
      modifies this`reports
      ensures State() == Tells(old(State()), process, status)
    {
      reports := reports + [Report(process, processes[process].owner, status)];
    }

    /** The synchronous part of a start. */
    method ReserveOwner(owner: string) returns (refusal: Option<Refusal>)
      requires Inv(State())
      modifies this`pendingOwners
      ensures Inv(State()) && State() == Step(old(State()), Reserve(owner))
      ensures refusal.Some? <==> !MayReserve(old(State()), owner)
      ensures refusal.Some? ==> refusal.value == Busy
    {
      StepKeepsInv(State(), Reserve(owner));
      if owner in activeByOwner || owner in pendingOwners {
        return Some(Busy);
      }
      if maxRuns <= |activeByOwner| + |pendingOwners| {
        return Some(Busy);
      }
      pendingOwners := pendingOwners + {owner};
      return None;
    }

    /** The rest of a start, once the head commit is known. */
    method SpawnProcess(owner: string, runId: nat)
      requires Inv(State()) && owner in pendingOwners
      modifies this
      ensures Inv(State()) && State() == Step(old(State()), Spawn(owner, runId))
    {
      SpawnKeepsInv(State(), owner, runId);
      var process := |processes|;
      processes := processes + [Process(owner, runId, Running, None, false, None, false)];
      activeByOwner := activeByOwner[owner := process];
      Emit(process, Running);
      pendingOwners := pendingOwners - {owner};
    }

    method RequestTermination(process: nat, reason: Reason)
      requires process < |processes|
      modifies this`processes
      ensures State() == RequestsTermination(old(State()), process, reason)
    {
      var p := processes[process];
      if p.completion.Some? || p.reason.Some? {
        return;
      }
      processes := processes[process := p.(reason := Some(reason))];
    }

    method CancelOwner(owner: string, runId: nat) returns (refusal: Option<Refusal>)
      requires Inv(State())
      modifies this
      ensures Inv(State()) && State() == Step(old(State()), Cancel(owner, runId))
      ensures refusal.Some? <==> !MayCancel(old(State()), owner, runId)
      ensures refusal == Some(NotRunning) <==> !Runs(old(State()), owner)
      ensures refusal.Some? ==> refusal.value != Busy
    {
      StepKeepsInv(State(), Cancel(owner, runId));
      RunsIff(State(), owner);
      if owner !in activeByOwner {
        return Some(NotRunning);
      }
      var process := activeByOwner[owner];
      var p := processes[process];
      if p.completion.Some? {
        return Some(NotRunning);
      }
      if p.runId != runId {
        return Some(Mismatch);
      }
      if p.reason.None? {
        processes := processes[process := p.(status := Cancelling)];
        RequestTermination(process, ByOperator);
        Emit(process, Cancelling);
      }
      return None;
    }

    /** The first close or error event of the child. */
    method BeginFinish(process: nat, completion: Completion)
      requires Inv(State()) && process < |processes|
      requires completion.Exited? ==> completion.reason == processes[process].reason
      modifies this`processes
      ensures Inv(State()) && State() == BeginsFinish(old(State()), process, completion)
    {
      FinishBeginsKeepsInv(State(), process, completion);
      if processes[process].completion.Some? {
        return;
      }
      processes := processes[process := processes[process].(completion := Some(completion))];
    }

    /** The rest of finishing, once the head commit is known again. */
    method CompleteFinish(process: nat)
      requires Inv(State()) && process < |processes|
      requires processes[process].completion.Some? && !processes[process].done
      modifies this
      ensures Inv(State()) && State() == Finishes(old(State()), process)
    {
      FinishKeepsInv(State(), process);
      var p := processes[process];
      var status := FinalStatus(p.completion.value);
      processes := processes[process := p.(status := status, done := true)];
      activeByOwner := activeByOwner - {p.owner};
      Emit(process, status);
    }
  }
}
