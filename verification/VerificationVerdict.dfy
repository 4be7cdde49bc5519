/**
What a finished verification run is reported as, told from the events alone: the first event that ended its process,
and the first request before it to terminate the process.
*/
module VerificationVerdict {
  import opened Options
  import opened VerificationRunner

  // ---------------------------------------------------------------- what the events say

  predicate Exists(r: Runner, process: nat) {
    process < |r.processes|
  }

  /** The child process closed, or broke. */
  predicate Ends(e: Event, process: nat) {
    (e.Closes? || e.Breaks?) && e.process == process
  }

  /** A cancel call that names the run, or its timer. */
  function Asked(r: Runner, e: Event, process: nat): Option<Reason> {
    if !Exists(r, process) then None
    else if e == Cancel(r.processes[process].owner, r.processes[process].runId) then Some(ByOperator)
    else if e == TimesOut(process) then Some(ByTimer)
    else None
  }

  /** The earlier of two reasons. */
  function Earlier(a: Option<Reason>, b: Option<Reason>): Option<Reason> {
    if a.Some? then a else b
  }

  /** The first request to terminate the process. */
  function FirstAsk(r: Runner, events: seq<Event>, process: nat): Option<Reason>
    decreases |events|
  {
    if events == [] then None
    else Earlier(Asked(r, events[0], process), FirstAsk(Step(r, events[0]), events[1..], process))
  }

  /** After a request the grace period ran out. */
  predicate Forced(r: Runner, events: seq<Event>, process: nat, asked: bool)
    decreases |events|
  {
    && events != []
    && (|| (asked && events[0] == Forces(process))
        || Forced(Step(r, events[0]), events[1..], process, asked || Asked(r, events[0], process).Some?))
  }

  /** The process does not end. */
  predicate NoEnd(r: Runner, events: seq<Event>, process: nat)
    decreases |events|
  {
    events == []
    || (!(Exists(r, process) && Ends(events[0], process)) && NoEnd(Step(r, events[0]), events[1..], process))
  }

  // ---------------------------------------------------------------- until the process ends

  function ReasonAt(r: Runner, process: nat): Option<Reason> {
    if Exists(r, process) then r.processes[process].reason else None
  }

  predicate ForcedAt(r: Runner, process: nat) {
    Exists(r, process) && r.processes[process].forced
  }

  predicate Open(r: Runner, process: nat) {
    Exists(r, process) ==> r.processes[process].completion.None?
  }

  lemma OpenIsActive(r: Runner, process: nat)
    requires Inv(r) && Exists(r, process) && Open(r, process)
    ensures var p := r.processes[process]; p.owner in r.active && r.active[p.owner] == process
  {
    assert ProcessInv(r.processes[process]);
  }

  lemma OtherOwner(r: Runner, owner: string, process: nat)
    requires Inv(r) && owner in r.active && Exists(r, process) && r.active[owner] == process
    ensures r.processes[process].owner == owner
  {
  }

  lemma CancelAsks(r: Runner, e: Event, process: nat)
    requires Inv(r) && e.Cancel? && Exists(r, process) && Open(r, process)
    ensures Exists(Step(r, e), process)
    ensures var p, p' := r.processes[process], Step(r, e).processes[process];
            p'.reason == Earlier(p.reason, Asked(r, e, process)) && p'.forced == p.forced && p'.completion == None
  {
    OpenIsActive(r, process);
    if e.owner in r.active && r.active[e.owner] == process {
      OtherOwner(r, e.owner, process);
    }
  }

  /** A step of one process, or of none, leaves the reason and the force of every other. */
  lemma OthersAsk(r: Runner, e: Event, process: nat)
    requires Exists(r, process) && !e.Cancel? && !Ends(e, process) && e != TimesOut(process) && e != Forces(process)
    ensures Exists(Step(r, e), process)
    ensures var p, p' := r.processes[process], Step(r, e).processes[process];
            p'.reason == p.reason && p'.forced == p.forced && p'.completion == p.completion
  {
  }

  lemma TimerAsks(r: Runner, process: nat)
    requires Exists(r, process) && Open(r, process)
    ensures var p := r.processes[process];
            && Step(r, TimesOut(process)).processes[process] == p.(reason := Earlier(p.reason, Some(ByTimer)))
            && Step(r, Forces(process)).processes[process] == p.(forced := p.forced || p.reason.Some?)
  {
  }

  lemma StepAsks(r: Runner, e: Event, process: nat)
    requires Inv(r) && Open(r, process) && Exists(r, process) && !Ends(e, process)
    ensures Exists(Step(r, e), process)
    ensures var p, p' := r.processes[process], Step(r, e).processes[process];
            && p'.completion == None && p'.reason == Earlier(p.reason, Asked(r, e, process))
            && p'.forced == (p.forced || (p.reason.Some? && e == Forces(process)))
  {
    if e.Cancel? {
      CancelAsks(r, e, process);
    } else if e == TimesOut(process) || e == Forces(process) {
      TimerAsks(r, process);
    } else {
      OthersAsk(r, e, process);
    }
  }

  lemma StepSpawns(r: Runner, e: Event, process: nat)
    requires !Exists(r, process)
    ensures Open(Step(r, e), process) && ReasonAt(Step(r, e), process) == None && !ForcedAt(Step(r, e), process)
  {
  }

  lemma StepDecides(r: Runner, e: Event, process: nat)
    requires Inv(r) && Open(r, process) && !(Exists(r, process) && Ends(e, process))
    ensures var r' := Step(r, e);
            && Open(r', process)
            && ReasonAt(r', process) == Earlier(ReasonAt(r, process), Asked(r, e, process))
            && ForcedAt(r', process) == (ForcedAt(r, process) || (ReasonAt(r, process).Some? && e == Forces(process)))
  {
    if Exists(r, process) {
      StepAsks(r, e, process);
    } else {
      StepSpawns(r, e, process);
    }
  }

  /** As long as the process does not end, its reason is the first request and nothing of it is complete. */
  lemma {:induction false} UntilEnd(r: Runner, events: seq<Event>, process: nat)
    requires Inv(r) && Open(r, process) && NoEnd(r, events, process)
    ensures var r' := Run(r, events);
            && Inv(r') && Open(r', process)
            && ReasonAt(r', process) == Earlier(ReasonAt(r, process), FirstAsk(r, events, process))
            && (ForcedAt(r', process) <==>
                  ForcedAt(r, process) || Forced(r, events, process, ReasonAt(r, process).Some?))
    decreases |events|
  {
    if events != [] {
      StepDecides(r, events[0], process);
      StepKeepsInv(r, events[0]);
      UntilEnd(Step(r, events[0]), events[1..], process);
    }
  }

  // ---------------------------------------------------------------- the verdict

  /** The whole table of final statuses. */
  predicate Explains(status: RunStatus, end: Event, ask: Option<Reason>) {
    && (status == Passed <==> ask.None? && end.Closes? && end.exitCode == Some(0) && end.signal.None?)
    && (status == Failed <==> && ask.None? && end.Closes? && (end.exitCode.Some? || end.signal.Some?)
                              && !(end.exitCode == Some(0) && end.signal.None?))
    && (status == Cancelled <==> ask == Some(ByOperator) && end.Closes?)
    && (status == TimedOut <==> ask == Some(ByTimer) && end.Closes?)
    && (status == Error <==> end.Breaks? || (ask.None? && end.Closes? && end.exitCode.None? && end.signal.None?))
  }

  /** At this place the process ends, for the first time. */
  predicate EndsAt(maxRuns: nat, events: seq<Event>, process: nat, k: nat) {
    && k < |events| && Ends(events[k], process)
    && Exists(Run(New(maxRuns), events[..k]), process) && NoEnd(New(maxRuns), events[..k], process)
  }

  lemma {:induction false} RunSplits(r: Runner, before: seq<Event>, e: Event, after: seq<Event>)
    ensures Run(r, before + [e] + after) == Run(Step(Run(r, before), e), after)
    decreases |before|
  {
    if before == [] {
      assert ([] + [e] + after)[1..] == after;
    } else {
      assert (before + [e] + after)[1..] == before[1..] + [e] + after;
      RunSplits(Step(r, before[0]), before[1..], e, after);
    }
  }

  lemma {:induction false} SomeEnd(r: Runner, events: seq<Event>, process: nat) returns (k: nat)
    requires !NoEnd(r, events, process)
    ensures k < |events| && Ends(events[k], process)
    ensures Exists(Run(r, events[..k]), process) && NoEnd(r, events[..k], process)
    decreases |events|
  {
    if Exists(r, process) && Ends(events[0], process) {
      k := 0;
    } else {
      var j := SomeEnd(Step(r, events[0]), events[1..], process);
      k := j + 1;
      assert events[..k][1..] == events[1..][..j];
    }
  }

  lemma EndCompletes(r: Runner, e: Event, process: nat)
    requires Inv(r) && Exists(r, process) && Open(r, process) && Ends(e, process)
    ensures var p, p' := r.processes[process], Step(r, e).processes[process];
            && Inv(Step(r, e)) && |Step(r, e).processes| == |r.processes| && p'.reason == p.reason && p'.forced == p.forced
            && p'.completion == Some(if e.Closes? then Exited(e.exitCode, e.signal, p.reason, p.forced) else Broke(e.spawned))
  {
    StepKeepsInv(r, e);
  }

  lemma StatusExplained(p: Process, e: Event, process: nat)
    requires ProcessInv(p) && p.done && Ends(e, process)
    requires p.completion == Some(if e.Closes? then Exited(e.exitCode, e.signal, p.reason, p.forced) else Broke(e.spawned))
    ensures Explains(p.status, e, p.reason)
  {
    assert p.reason.None? || p.reason.value.ByOperator? || p.reason.value.ByTimer?;
  }

  lemma EndDecides(maxRuns: nat, events: seq<Event>, process: nat, k: nat)
    requires EndsAt(maxRuns, events, process, k)
    ensures Exists(Run(New(maxRuns), events), process)
    ensures var p, before, e := Run(New(maxRuns), events).processes[process], events[..k], events[k];
            && ProcessInv(p) && p.reason == FirstAsk(New(maxRuns), before, process)
            && (p.forced <==> Forced(New(maxRuns), before, process, false))
            && p.completion == Some(if e.Closes? then Exited(e.exitCode, e.signal, p.reason, p.forced) else Broke(e.spawned))
  {
    var start, before, e, after := New(maxRuns), events[..k], events[k], events[k + 1..];
    assert events == before + [e] + after;
    RunSplits(start, before, e, after);
    UntilEnd(start, before, process);
    EndCompletes(Run(start, before), e, process);
    FirstReasonStays(Step(Run(start, before), e), after, process);
  }

  /**
  A run that has been reported finished was ended by one event, the first to end its process, and its status says
  exactly what that event and the first request to terminate before it were. It counts as forced exactly when the
  grace period had run out after that request.
  */
  lemma VerdictIsTrue(maxRuns: nat, events: seq<Event>, process: nat)
    requires var r := Run(New(maxRuns), events); Exists(r, process) && r.processes[process].done
    ensures var r := Run(New(maxRuns), events);
            var p, told := r.processes[process], Told(r.reports, process);
            exists k: nat :: && EndsAt(maxRuns, events, process, k) && told != []
                             && Explains(told[|told| - 1], events[k], FirstAsk(New(maxRuns), events[..k], process))
                             && (p.forced <==> Forced(New(maxRuns), events[..k], process, false))
  {
    var r := Run(New(maxRuns), events);
    RunKeepsInv(New(maxRuns), events);
    assert Reachable(r, maxRuns);
    ReportsOfARun(r, maxRuns, process);
    assert ProcessInv(r.processes[process]);
    if NoEnd(New(maxRuns), events, process) {
      UntilEnd(New(maxRuns), events, process);
    }
    var k := SomeEnd(New(maxRuns), events, process);
    EndDecides(maxRuns, events, process, k);
    StatusExplained(r.processes[process], events[k], process);
    assert EndsAt(maxRuns, events, process, k);
  }
}
