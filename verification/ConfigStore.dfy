/**
The configuration file: replaced by compare-and-swap on its revision, under the same write discipline as the
queue state.
*/
module ConfigStore {
  import opened SerialStore
  import opened Options

  const MAX_SAFE_INTEGER: nat := 9007199254740991

  datatype Workspace = Workspace(content: string)

  /** A missing file counts as revision 0. */
  datatype Config = Unconfigured | Ready(revision: nat, workspace: Workspace)

  datatype Replace = Replace(expected: int, workspace: Workspace)

  function Revision(config: Config): nat {
    if config.Unconfigured? then 0 else config.revision
  }

  /** The error a caller sees: a workspace too large for the file counts as an invalid one. */
  function Reported(code: WriteError): WriteError {
    if code == TooLarge then InvalidWorkspace else code
  }

  /** normalise validates the workspace against the server. */
  function PlanReplace(normalise: Workspace -> Option<Workspace>, op: Replace, current: Config): Plan<Config> {
    if op.expected < 0 || MAX_SAFE_INTEGER < op.expected then Refuse(InvalidWorkspace)
    else if Revision(current) != op.expected then Refuse(Conflict)
    else if MAX_SAFE_INTEGER <= Revision(current) then Refuse(InvalidState)
    else
      var normalised := normalise(op.workspace);
      if normalised.None? then Refuse(InvalidWorkspace)
      else Write(Ready(op.expected + 1, normalised.value))
  }

  function ConfigPlan(normalise: Workspace -> Option<Workspace>): (Replace, Config) -> Plan<Config> {
    (op: Replace, current: Config) => PlanReplace(normalise, op, current)
  }

  type ConfigState = State<Config, Replace>

  lemma WriteAdvances(normalise: Workspace -> Option<Workspace>, op: Replace, a: Config, b: Config)
    requires ConfigPlan(normalise)(op, a) == Write(b)
    ensures Revision(b) == Revision(a) + 1 == op.expected + 1
  {
  }

  lemma {:induction false} HistoryAdvances(
      normalise: Workspace -> Option<Workspace>, path: seq<Config>, a: Config, b: Config)
    requires IsHistory(ConfigPlan(normalise), path, a, b)
    ensures Revision(b) == Revision(a) + |path| - 1
  {
    var n := |path| - 1;
    if 0 < n {
      HistoryAdvances(normalise, path[..n], a, path[n - 1]);
      var op :| ConfigPlan(normalise)(op, path[n - 1]) == Write(b);
      WriteAdvances(normalise, op, path[n - 1], b);
    }
  }

  lemma DescendsAdvances(normalise: Workspace -> Option<Workspace>, a: Config, b: Config)
    requires Descends(ConfigPlan(normalise), a, b)
    ensures Revision(a) <= Revision(b)
  {
    var path :| IsHistory(ConfigPlan(normalise), path, a, b);
    HistoryAdvances(normalise, path, a, b);
  }

  // ---------------------------------------------------------------- the chain of successes

  predicate Succeeded(s: ConfigState, t: nat) {
    t in s.answers && s.answers[t].Recorded?
  }

  /** Each success was answered with the document it asked for, and later ones build on it. */
  ghost predicate Follows(normalise: Workspace -> Option<Workspace>, a: Answer<Config, Replace>, b: Answer<Config, Replace>)
    requires a.Recorded? && b.Recorded?
  {
    Revision(a.doc) <= b.op.expected && Descends(ConfigPlan(normalise), a.doc, b.doc)
  }

  predicate Swapped(normalise: Workspace -> Option<Workspace>, answer: Answer<Config, Replace>)
    requires answer.Recorded?
  {
    && 0 <= answer.op.expected
    && normalise(answer.op.workspace).Some?
    && answer.doc == Ready(answer.op.expected + 1, normalise(answer.op.workspace).value)
  }

  ghost predicate HeadWrites(normalise: Workspace -> Option<Workspace>, s: ConfigState) {
    s.phase != Idle ==>
      && s.queue != []
      && Swapped(normalise, Recorded(s.queue[0], s.phase.next))
      && forall t | Succeeded(s, t) :: Revision(s.answers[t].doc) <= s.queue[0].expected
  }

  ghost predicate ChainInv(normalise: Workspace -> Option<Workspace>, s: ConfigState) {
    && Inv(ConfigPlan(normalise), s)
    && HeadWrites(normalise, s)
    && (forall t | Succeeded(s, t) :: Swapped(normalise, s.answers[t]))
    && (forall t, u | t < u && Succeeded(s, t) && Succeeded(s, u) :: Follows(normalise, s.answers[t], s.answers[u]))
  }

  lemma StepKeepsHead(normalise: Workspace -> Option<Workspace>, s: ConfigState, step: Step<Config, Replace>)
    requires Inv(ConfigPlan(normalise), s) && HeadWrites(normalise, s)
    ensures HeadWrites(normalise, Do(ConfigPlan(normalise), s, step))
  {
    var s' := Do(ConfigPlan(normalise), s, step);
    if s.phase == Idle && s'.phase != Idle {
      forall t | Succeeded(s', t) ensures Revision(s'.answers[t].doc) <= s.queue[0].expected {
        assert s.disk.visible in s.disk.possible && s.answers[t].Recorded?;
        DescendsAdvances(normalise, s.answers[t].doc, s.disk.visible);
      }
    }
  }

  /** A step answers at most the head, and with success only what the head has made durable. */
  lemma StepAnswers(plan: (Replace, Config) -> Plan<Config>, s: ConfigState, step: Step<Config, Replace>)
    requires Inv(plan, s)
    ensures var s' := Do(plan, s, step);
            forall t | Succeeded(s', t) && !(t in s.answers && s.answers[t] == s'.answers[t]) ::
              && t == s.Head() && s.phase.Durable? && s.queue != []
              && s'.answers[t] == Recorded(s.queue[0], s.phase.next)
    ensures forall t | t in s.answers :: t < s.Head()
  {
  }

  lemma SuccessIsAncestor(plan: (Replace, Config) -> Plan<Config>, s: ConfigState, t: nat)
    requires Inv(plan, s) && Succeeded(s, t)
    ensures Descends(plan, s.answers[t].doc, s.disk.visible)
  {
    assert s.answers[t].Recorded? && s.disk.visible in s.disk.possible;
  }

  lemma DurableIsVisible(plan: (Replace, Config) -> Plan<Config>, s: ConfigState)
    requires Inv(plan, s) && s.phase.Durable?
    ensures s.disk.visible == s.phase.next
  {
  }

  lemma StepKeepsPairs(
      normalise: Workspace -> Option<Workspace>, s: ConfigState, step: Step<Config, Replace>, t: nat, u: nat)
    requires ChainInv(normalise, s) && t < u
    requires Succeeded(Do(ConfigPlan(normalise), s, step), t) && Succeeded(Do(ConfigPlan(normalise), s, step), u)
    ensures var s' := Do(ConfigPlan(normalise), s, step); Follows(normalise, s'.answers[t], s'.answers[u])
  {
    var s' := Do(ConfigPlan(normalise), s, step);
    StepAnswers(ConfigPlan(normalise), s, step);
    assert t in s.answers && s.answers[t] == s'.answers[t];
    if !(u in s.answers && s.answers[u] == s'.answers[u]) {
      SuccessIsAncestor(ConfigPlan(normalise), s, t);
      DurableIsVisible(ConfigPlan(normalise), s);
      assert Succeeded(s, t);
    }
  }

  lemma StepKeepsChain(normalise: Workspace -> Option<Workspace>, s: ConfigState, step: Step<Config, Replace>)
    requires ChainInv(normalise, s)
    ensures ChainInv(normalise, Do(ConfigPlan(normalise), s, step))
  {
    var s' := Do(ConfigPlan(normalise), s, step);
    forall t | Succeeded(s', t) ensures Swapped(normalise, s'.answers[t]) {
      StepAnswers(ConfigPlan(normalise), s, step);
    }
    forall t, u | t < u && Succeeded(s', t) && Succeeded(s', u)
      ensures Follows(normalise, s'.answers[t], s'.answers[u])
    {
      StepKeepsPairs(normalise, s, step, t, u);
    }
    DoKeepsInv(ConfigPlan(normalise), s, step);
    StepKeepsHead(normalise, s, step);
  }

  lemma {:induction false} RunKeepsChain(
      normalise: Workspace -> Option<Workspace>, s: ConfigState, steps: seq<Step<Config, Replace>>)
    requires ChainInv(normalise, s)
    ensures ChainInv(normalise, Exec(ConfigPlan(normalise), s, steps))
    decreases |steps|
  {
    if steps != [] {
      StepKeepsChain(normalise, s, steps[0]);
      RunKeepsChain(normalise, Do(ConfigPlan(normalise), s, steps[0]), steps[1..]);
    }
  }

  /**
  Compare-and-swap, over every run with overlapping calls, failures, restarts and power losses: a later
  success expected a revision no lower than the one the earlier success installed, so no two calls with
  one expected revision both succeed, revisions rise strictly along the successes, and the later document
  was made from the earlier one by such replacements: no update is lost.
  */
  lemma CompareAndSwap(
      normalise: Workspace -> Option<Workspace>, doc: Config, steps: seq<Step<Config, Replace>>, t: nat, u: nat)
    requires t < u
    requires Succeeded(Exec(ConfigPlan(normalise), Fresh<Config, Replace>(doc), steps), t)
    requires Succeeded(Exec(ConfigPlan(normalise), Fresh<Config, Replace>(doc), steps), u)
    ensures var s := Exec(ConfigPlan(normalise), Fresh<Config, Replace>(doc), steps);
            var a, b := s.answers[t], s.answers[u];
            && Swapped(normalise, a) && Swapped(normalise, b)
            && a.op.expected < b.op.expected && Revision(a.doc) < Revision(b.doc)
            && Descends(ConfigPlan(normalise), a.doc, b.doc)
  {
    FreshInv<Config, Replace>(ConfigPlan(normalise), doc);
    RunKeepsChain(normalise, Fresh(doc), steps);
    var s := Exec(ConfigPlan(normalise), Fresh<Config, Replace>(doc), steps);
    assert Follows(normalise, s.answers[t], s.answers[u]);
  }

  // ---------------------------------------------------------------- the effect of one replacement

  /** The answers that leave the visible document in doubt. */
  predicate InDoubt(answer: Answer<Config, Replace>) {
    answer.Failed? && (answer.code == DurabilityUnknown || answer.code == InvalidResult)
  }

  /**
  A replacement changes the visible document exactly when it succeeds or leaves it in doubt, and then to
  the next revision with the normalised workspace; every other failure leaves the disk as it was. It is
  refused as a conflict exactly when the expected revision is not the current one, which is 0 without a file, and as
  an invalid workspace exactly when the expected revision or the workspace is invalid or the file would be too large.
  */
  lemma ReplaceEffect(normalise: Workspace -> Option<Workspace>, disk: Disk<Config>, op: Replace, io: Io)
    ensures var (after, answer) := RunOnce(ConfigPlan(normalise), disk, op, io);
            var expectedOk := 0 <= op.expected <= MAX_SAFE_INTEGER;
            var revision := if disk.visible.Unconfigured? then 0 else disk.visible.revision;
            var current := revision == op.expected < MAX_SAFE_INTEGER;
            && (after.visible != disk.visible <==> answer.Recorded? || InDoubt(answer))
            && (after.visible == disk.visible ==> after == disk)
            && (after.visible != disk.visible ==>
                  revision == op.expected && Swapped(normalise, Recorded(op, after.visible)))
            && (answer == Failed(op, Conflict) <==>
                  io.inspected && expectedOk && revision != op.expected)
            && (answer == Failed(op, InvalidState) <==>
                  !io.inspected || (revision == op.expected == MAX_SAFE_INTEGER))
            && (answer == Failed(op, WriteFailed) <==>
                  io.inspected && 0 <= op.expected && current && normalise(op.workspace).Some? && io.fits && !io.Staged())
            && (answer.Recorded? <==>
                  && io.inspected && 0 <= op.expected && current && normalise(op.workspace).Some? && io.fits
                  && io.Staged() && io.directorySynced && io.verified)
            && (answer.Failed? && Reported(answer.code) == InvalidWorkspace <==>
                  io.inspected && (!expectedOk || (current && (normalise(op.workspace).None? || !io.fits))))
  {
  }

  /** Overlapping replacements behave like the same replacements one after another, in call order. */
  lemma ReplacementsLinearise(
      normalise: Workspace -> Option<Workspace>, doc: Config, steps: seq<Step<Config, Replace>>)
    requires forall i | 0 <= i < |steps| :: !steps[i].Restart? && !steps[i].PowerLoss?
    ensures Linearised(ConfigPlan(normalise), doc, Submissions(steps),
                       Exec(ConfigPlan(normalise), Fresh<Config, Replace>(doc), steps))
  {
    var s: ConfigState := Fresh(doc);
    assert Linear(ConfigPlan(normalise), doc, [], s, []);
    RunLinearises(ConfigPlan(normalise), doc, [], s, steps, Submissions(steps));
  }
}
