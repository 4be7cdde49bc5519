/**
The write discipline shared by the queue state store and the configuration store.

Mutations are chained on one promise tail, so they run one at a time in call order. Each one inspects
the file, plans a replacement, and installs it by temporary file, rename and directory sync. The disk
is the visible document together with every document a power loss may leave behind: a rename adds to
that set and a successful directory sync collapses it.
*/
module SerialStore {
  import opened Options

  /** TooLarge: over the size bound of the file, reported by the queue as full and by the configuration as invalid. */
  datatype WriteError =
    | InvalidState | StateFull | TooLarge | AlreadyDecided | Conflict | InvalidWorkspace
    | WriteFailed | DurabilityUnknown | InvalidResult

  /** What a mutation decides from the inspected document. */
  datatype Plan<+D> = Refuse(code: WriteError) | Existing | Write(next: D)

  datatype Answer<+D, +Op> =
    | Recorded(op: Op, doc: D)
    | Already(op: Op, doc: D)
    | Failed(op: Op, code: WriteError)

  datatype Disk<D(==)> = Disk(visible: D, possible: set<D>) {
    function Replace(next: D): Disk<D> {
      Disk(next, possible + {next})
    }

    function Settle(): Disk<D> {
      Disk(visible, {visible})
    }
  }

  /** How far the mutation at the head of the tail has come. */
  datatype Phase<+D> = Idle | Writing(next: D) | Replaced(next: D) | Durable(next: D)

  datatype State<D(==), Op> = State(
    disk: Disk<D>,
    queue: seq<Op>,
    phase: Phase<D>,
    tickets: nat,
    answers: map<nat, Answer<D, Op>>)
  {
    function Head(): nat
      requires |queue| <= tickets
    {
      tickets - |queue|
    }
  }

  /** One atomic stretch of execution; the flags are the outcomes the environment chooses. */
  datatype Step<+D, +Op> =
    | Submit(op: Op)
    | Inspect(ok: bool, fits: bool)
    | FailBeforeRename
    | Rename
    | SyncDirectory(ok: bool)
    | Verify(ok: bool)
    | Restart
    | PowerLoss(kept: D)

  function Fresh<D(==), Op>(doc: D): State<D, Op> {
    State(Disk(doc, {doc}), [], Idle, 0, map[])
  }

  function Answered<D(==), Op>(s: State<D, Op>, answer: Answer<D, Op>): State<D, Op>
    requires 0 < |s.queue| <= s.tickets
  {
    s.(queue := s.queue[1..], phase := Idle, answers := s.answers[s.Head() := answer])
  }

  /** The next state; a step that is not enabled changes nothing. */
  function Do<D(==), Op>(plan: (Op, D) -> Plan<D>, s: State<D, Op>, step: Step<D, Op>): State<D, Op> {
    match step
    case Submit(op) =>
      s.(queue := s.queue + [op], tickets := s.tickets + 1)
    case Restart =>
      s.(queue := [], phase := Idle)
    case PowerLoss(kept) =>
      if kept in s.disk.possible then s.(disk := Disk(kept, {kept}), queue := [], phase := Idle) else s
    case _ =>
      if 0 < |s.queue| <= s.tickets then Advance(plan, s, step) else s
  }

  function Advance<D(==), Op>(plan: (Op, D) -> Plan<D>, s: State<D, Op>, step: Step<D, Op>): State<D, Op>
    requires 0 < |s.queue| <= s.tickets
  {
    var op := s.queue[0];
    match (s.phase, step)
    case (Idle, Inspect(ok, fits)) =>
      if !ok then Answered(s, Failed(op, InvalidState))
      else (
        match plan(op, s.disk.visible)
        case Refuse(code) => Answered(s, Failed(op, code))
        case Existing => Answered(s, Already(op, s.disk.visible))
        case Write(next) => if fits then s.(phase := Writing(next)) else Answered(s, Failed(op, TooLarge))
      )
    case (Writing(_), FailBeforeRename) => Answered(s, Failed(op, WriteFailed))
    case (Writing(next), Rename) => s.(disk := s.disk.Replace(next), phase := Replaced(next))
    case (Replaced(next), SyncDirectory(ok)) =>
      if ok then s.(disk := s.disk.Settle(), phase := Durable(next))
      else Answered(s, Failed(op, DurabilityUnknown))
    case (Durable(next), Verify(ok)) =>
      Answered(s, if ok then Recorded(op, next) else Failed(op, InvalidResult))
    case _ => s
  }

  function Exec<D(==), Op>(plan: (Op, D) -> Plan<D>, s: State<D, Op>, steps: seq<Step<D, Op>>): State<D, Op>
    decreases |steps|
  {
    if steps == [] then s else Exec(plan, Do(plan, s, steps[0]), steps[1..])
  }

  // ---------------------------------------------------------------- document history

  ghost predicate OneWrite<D, Op(!new)>(plan: (Op, D) -> Plan<D>, a: D, b: D) {
    exists op :: plan(op, a) == Write(b)
  }

  /** path lists the successive documents from a to b. */
  ghost predicate IsHistory<D, Op(!new)>(plan: (Op, D) -> Plan<D>, path: seq<D>, a: D, b: D)
    decreases |path|
  {
    var n := |path| - 1;
    if n < 0 then false
    else if n == 0 then path[0] == a == b
    else path[n] == b && OneWrite(plan, path[n - 1], b) && IsHistory(plan, path[..n], a, path[n - 1])
  }

  /** b is reached from a by mutations the planner allowed, each applied to the previous result. */
  ghost predicate Descends<D(!new), Op(!new)>(plan: (Op, D) -> Plan<D>, a: D, b: D) {
    exists path: seq<D> :: IsHistory(plan, path, a, b)
  }

  lemma DescendsRefl<D(!new), Op(!new)>(plan: (Op, D) -> Plan<D>, a: D)
    ensures Descends(plan, a, a)
  {
    assert IsHistory(plan, [a], a, a);
  }

  lemma DescendsWrite<D(!new), Op(!new)>(plan: (Op, D) -> Plan<D>, a: D, b: D, op: Op, c: D)
    requires Descends(plan, a, b) && plan(op, b) == Write(c)
    ensures Descends(plan, a, c)
  {
    var path: seq<D> :| IsHistory(plan, path, a, b);
    assert (path + [c])[..|path|] == path && path[|path| - 1] == b;
    assert IsHistory(plan, path + [c], a, c);
  }

  // ---------------------------------------------------------------- invariant

  ghost predicate PhaseAgrees<D, Op>(plan: (Op, D) -> Plan<D>, s: State<D, Op>) {
    match s.phase
    case Idle => true
    case Writing(next) => s.queue != [] && plan(s.queue[0], s.disk.visible) == Write(next)
    case Replaced(next) => s.queue != [] && s.disk.visible == next
    case Durable(next) => s.queue != [] && s.disk == Disk(next, {next})
  }

  ghost predicate Inv<D(!new), Op(!new)>(plan: (Op, D) -> Plan<D>, s: State<D, Op>) {
    && |s.queue| <= s.tickets
    && s.disk.visible in s.disk.possible
    && (forall d | d in s.disk.possible :: Descends(plan, d, s.disk.visible))
    && PhaseAgrees(plan, s)
    && (forall t | t in s.answers :: t < s.Head())
    && (forall t, d | t in s.answers && s.answers[t].Recorded? && d in s.disk.possible ::
          Descends(plan, s.answers[t].doc, d))
  }

  lemma DoKeepsInv<D(!new), Op(!new)>(plan: (Op, D) -> Plan<D>, s: State<D, Op>, step: Step<D, Op>)
    requires Inv(plan, s)
    ensures Inv(plan, Do(plan, s, step))
  {
    var s' := Do(plan, s, step);
    match step {
      case Rename =>
        if 0 < |s.queue| && s.phase.Writing? {
          var next := s.phase.next;
          forall d | d in s.disk.possible ensures Descends(plan, d, next) {
            DescendsWrite(plan, d, s.disk.visible, s.queue[0], next);
          }
          DescendsRefl(plan, next);
          forall t, d | t in s.answers && s.answers[t].Recorded? && d in s'.disk.possible
            ensures Descends(plan, s.answers[t].doc, d)
          {
            assert s.disk.visible in s.disk.possible;
            DescendsWrite(plan, s.answers[t].doc, s.disk.visible, s.queue[0], next);
          }
        }
      case PowerLoss(kept) =>
        DescendsRefl(plan, kept);
      case SyncDirectory(_) =>
        DescendsRefl(plan, s.disk.visible);
      case Verify(_) =>
        DescendsRefl(plan, s.disk.visible);
      case _ =>
    }
  }

  // ---------------------------------------------------------------- what one step changes

  /** A document a crash could leave after a step was possible before, or is the write of the head. */
  lemma DoPossible<D(!new), Op(!new)>(plan: (Op, D) -> Plan<D>, s: State<D, Op>, step: Step<D, Op>, d: D)
    requires Inv(plan, s) && d in Do(plan, s, step).disk.possible
    ensures d in s.disk.possible || (s.queue != [] && plan(s.queue[0], s.disk.visible) == Write(d))
  {
  }

  /** The visible document stays, is replaced by the write of the head, or goes back when power fails. */
  lemma DoVisible<D(!new), Op(!new)>(plan: (Op, D) -> Plan<D>, s: State<D, Op>, step: Step<D, Op>)
    requires Inv(plan, s)
    ensures var before, after := s.disk.visible, Do(plan, s, step).disk.visible;
            || after == before
            || (s.queue != [] && plan(s.queue[0], before) == Write(after))
            || (step == PowerLoss(after) && after in s.disk.possible)
  {
  }

  lemma DoQueue<D(!new), Op(!new)>(plan: (Op, D) -> Plan<D>, s: State<D, Op>, step: Step<D, Op>, op: Op)
    requires op in Do(plan, s, step).queue
    ensures op in s.queue || step == Submit(op)
  {
  }

  predicate Installed<D(==), Op(==)>(s: State<D, Op>, op: Op, next: D) {
    (s.phase == Replaced(next) || s.phase == Durable(next)) && s.queue != [] && s.queue[0] == op
  }

  /** What the head has installed it installed before, or installs now by its planned write. */
  lemma DoInstalls<D(!new), Op(!new)>(
      plan: (Op, D) -> Plan<D>, s: State<D, Op>, step: Step<D, Op>, op: Op, next: D)
    requires Inv(plan, s) && Installed(Do(plan, s, step), op, next)
    ensures Installed(s, op, next) || plan(op, s.disk.visible) == Write(next)
  {
  }

  /** An answer "recorded" was there before, or is that of the head about what it installed. */
  lemma DoRecords<D(!new), Op(!new)>(plan: (Op, D) -> Plan<D>, s: State<D, Op>, step: Step<D, Op>, t: nat)
    requires Inv(plan, s) && t in Do(plan, s, step).answers && Do(plan, s, step).answers[t].Recorded?
    ensures var answer := Do(plan, s, step).answers[t];
            (t in s.answers && s.answers[t] == answer) || Installed(s, answer.op, answer.doc)
  {
  }

  /**
  Along every run, through restarts and power losses, whatever an answered "recorded" saw is an ancestor
  of every document a crash could leave, and so of the visible one.
  */
  lemma {:induction false} ExecKeepsInv<D(!new), Op(!new)>(
      plan: (Op, D) -> Plan<D>, s: State<D, Op>, steps: seq<Step<D, Op>>)
    requires Inv(plan, s)
    ensures Inv(plan, Exec(plan, s, steps))
    decreases |steps|
  {
    if steps != [] {
      DoKeepsInv(plan, s, steps[0]);
      ExecKeepsInv(plan, Do(plan, s, steps[0]), steps[1..]);
    }
  }

  lemma FreshInv<D(!new), Op(!new)>(plan: (Op, D) -> Plan<D>, doc: D)
    ensures Inv(plan, Fresh<D, Op>(doc))
  {
    DescendsRefl(plan, doc);
  }

  /** No ticket below the bound is waiting, and this one has not been answered. */
  predicate Silent<D(==), Op>(s: State<D, Op>, t: nat, bound: nat) {
    |s.queue| <= s.tickets && t < bound <= s.Head() && t !in s.answers
  }

  lemma StepKeepsSilent<D, Op>(plan: (Op, D) -> Plan<D>, s: State<D, Op>, step: Step<D, Op>, t: nat, bound: nat)
    requires Silent(s, t, bound)
    ensures Silent(Do(plan, s, step), t, bound)
  {
  }

  lemma {:induction false} RunKeepsSilent<D, Op>(
      plan: (Op, D) -> Plan<D>, s: State<D, Op>, steps: seq<Step<D, Op>>, t: nat, bound: nat)
    requires Silent(s, t, bound)
    ensures t !in Exec(plan, s, steps).answers
    decreases |steps|
  {
    if steps != [] {
      StepKeepsSilent(plan, s, steps[0], t, bound);
      RunKeepsSilent(plan, Do(plan, s, steps[0]), steps[1..], t, bound);
    }
  }

  /**
  What was not answered when the process or the machine stopped is never answered afterwards; a process leaves the
  disk as it was, and a machine one of the documents that were possible, which is then certain.
  */
  lemma StoppedIsSilent<D(!new), Op(!new)>(
      plan: (Op, D) -> Plan<D>, s: State<D, Op>, stop: Step<D, Op>, steps: seq<Step<D, Op>>, t: nat)
    requires Inv(plan, s) && t < s.tickets && t !in s.answers
    requires stop.Restart? || (stop.PowerLoss? && stop.kept in s.disk.possible)
    ensures t !in Exec(plan, Do(plan, s, stop), steps).answers
    ensures Do(plan, s, stop).disk == if stop.PowerLoss? then Disk(stop.kept, {stop.kept}) else s.disk
  {
    RunKeepsSilent(plan, Do(plan, s, stop), steps, t, s.tickets);
  }

  /** The ticket is queued for, or was answered about, exactly this mutation. */
  predicate Tracks<D(==), Op(==)>(s: State<D, Op>, ticket: nat, op: Op) {
    if ticket in s.answers then s.answers[ticket].op == op
    else |s.queue| <= s.tickets && s.Head() <= ticket < s.tickets && s.queue[ticket - s.Head()] == op
  }

  lemma TracksAdvance<D(!new), Op(!new)>(
      plan: (Op, D) -> Plan<D>, s: State<D, Op>, step: Step<D, Op>, ticket: nat, op: Op)
    requires Inv(plan, s) && Tracks(s, ticket, op)
    requires !step.Restart? && !step.PowerLoss?
    ensures Tracks(Do(plan, s, step), ticket, op)
  {
  }

  lemma TracksSubmitted<D(!new), Op(!new)>(plan: (Op, D) -> Plan<D>, s: State<D, Op>, op: Op)
    requires Inv(plan, s)
    ensures Tracks(Do(plan, s, Submit(op)), s.tickets, op)
  {
  }

  // ---------------------------------------------------------------- one mutation without interruption

  /** The outcomes of the file operations of one mutation. */
  datatype Io = Io(
    inspected: bool, fits: bool, created: bool, written: bool, synced: bool, closed: bool,
    renamed: bool, unlinked: bool, directorySynced: bool, verified: bool)
  {
    predicate Staged() {
      created && written && synced && closed && renamed
    }
  }

  /** The disk and the answer of one whole mutation, as if it were atomic. */
  function RunOnce<D(==), Op>(plan: (Op, D) -> Plan<D>, disk: Disk<D>, op: Op, io: Io): (Disk<D>, Answer<D, Op>) {
    if !io.inspected then (disk, Failed(op, InvalidState))
    else
      match plan(op, disk.visible)
      case Refuse(code) => (disk, Failed(op, code))
      case Existing => (disk, Already(op, disk.visible))
      case Write(next) =>
        if !io.fits then (disk, Failed(op, TooLarge))
        else if !io.Staged() then (disk, Failed(op, WriteFailed))
        else if !io.directorySynced then (disk.Replace(next), Failed(op, DurabilityUnknown))
        else (Disk(next, {next}), if io.verified then Recorded(op, next) else Failed(op, InvalidResult))
  }

  function StepsOf<D, Op>(io: Io): seq<Step<D, Op>> {
    [ Inspect(io.inspected, io.fits),
      if io.Staged() then Rename else FailBeforeRename,
      SyncDirectory(io.directorySynced),
      Verify(io.verified) ]
  }

  lemma ExecFour<D, Op>(plan: (Op, D) -> Plan<D>, s: State<D, Op>, steps: seq<Step<D, Op>>)
    requires |steps| == 4
    ensures Exec(plan, s, steps)
         == Do(plan, Do(plan, Do(plan, Do(plan, s, steps[0]), steps[1]), steps[2]), steps[3])
  {
    var s1 := Do(plan, s, steps[0]);
    var s2 := Do(plan, s1, steps[1]);
    var rest := steps[1..][1..][1..];
    assert Exec(plan, s, steps) == Exec(plan, s1, steps[1..]);
    assert Exec(plan, s1, steps[1..]) == Exec(plan, s2, steps[1..][1..]);
    assert Exec(plan, s2, steps[1..][1..]) == Exec(plan, Do(plan, s2, steps[2]), rest);
  }

  predicate AfterInspect<D, Op>(step: Step<D, Op>) {
    step.Rename? || step.FailBeforeRename? || step.SyncDirectory? || step.Verify?
  }

  lemma IdleIgnores<D, Op>(plan: (Op, D) -> Plan<D>, s: State<D, Op>, step: Step<D, Op>)
    requires s.phase == Idle && AfterInspect(step)
    ensures Do(plan, s, step) == s
  {
  }

  lemma ReplacedCompletes<D, Op>(plan: (Op, D) -> Plan<D>, s: State<D, Op>, next: D, io: Io)
    requires 0 < |s.queue| <= s.tickets && s.phase == Replaced(next) && s.disk.visible == next
    ensures Do(plan, Do(plan, s, SyncDirectory(io.directorySynced)), Verify(io.verified))
         == if !io.directorySynced then Answered(s, Failed(s.queue[0], DurabilityUnknown))
            else Answered(s.(disk := Disk(next, {next})),
                          if io.verified then Recorded(s.queue[0], next) else Failed(s.queue[0], InvalidResult))
  {
    var s' := Do(plan, s, SyncDirectory(io.directorySynced));
    if s'.phase == Idle {
      IdleIgnores(plan, s', Verify(io.verified));
    }
  }

  lemma WritingCompletes<D, Op>(plan: (Op, D) -> Plan<D>, s: State<D, Op>, next: D, io: Io)
    requires 0 < |s.queue| <= s.tickets && s.phase == Writing(next)
    requires io.inspected && io.fits && plan(s.queue[0], s.disk.visible) == Write(next)
    ensures var (disk, answer) := RunOnce(plan, s.disk, s.queue[0], io);
            var moved := if io.Staged() then Rename else FailBeforeRename;
            Do(plan, Do(plan, Do(plan, s, moved), SyncDirectory(io.directorySynced)), Verify(io.verified))
            == Answered(s.(disk := disk), answer)
  {
    if io.Staged() {
      ReplacedCompletes(plan, Do(plan, s, Rename), next, io);
    } else {
      var s' := Do(plan, s, FailBeforeRename);
      IdleIgnores(plan, s', SyncDirectory(io.directorySynced));
      IdleIgnores(plan, s', Verify(io.verified));
    }
  }

  lemma InspectDecides<D, Op>(plan: (Op, D) -> Plan<D>, s: State<D, Op>, io: Io)
    requires 0 < |s.queue| <= s.tickets && s.phase == Idle
    ensures var decided := plan(s.queue[0], s.disk.visible);
            Do(plan, s, Inspect(io.inspected, io.fits))
            == if io.inspected && decided.Write? && io.fits then s.(phase := Writing(decided.next))
               else Answered(s.(disk := RunOnce(plan, s.disk, s.queue[0], io).0), RunOnce(plan, s.disk, s.queue[0], io).1)
  {
  }

  lemma IdleStays<D, Op>(plan: (Op, D) -> Plan<D>, s: State<D, Op>, a: Step<D, Op>, b: Step<D, Op>, c: Step<D, Op>)
    requires s.phase == Idle && AfterInspect(a) && AfterInspect(b) && AfterInspect(c)
    ensures Do(plan, Do(plan, Do(plan, s, a), b), c) == s
  {
    IdleIgnores(plan, s, a);
    IdleIgnores(plan, s, b);
    IdleIgnores(plan, s, c);
  }

  lemma InspectedCompletes<D, Op>(plan: (Op, D) -> Plan<D>, s: State<D, Op>, io: Io, s1: State<D, Op>)
    requires 0 < |s.queue| <= s.tickets && s.phase == Idle
    requires var decided := plan(s.queue[0], s.disk.visible);
             s1 == if io.inspected && decided.Write? && io.fits then s.(phase := Writing(decided.next))
                   else Answered(s.(disk := RunOnce(plan, s.disk, s.queue[0], io).0), RunOnce(plan, s.disk, s.queue[0], io).1)
    ensures var moved := if io.Staged() then Rename else FailBeforeRename;
            Do(plan, Do(plan, Do(plan, s1, moved), SyncDirectory(io.directorySynced)), Verify(io.verified))
            == Answered(s.(disk := RunOnce(plan, s.disk, s.queue[0], io).0), RunOnce(plan, s.disk, s.queue[0], io).1)
  {
    if s1.phase == Idle {
      IdleStays(plan, s1, if io.Staged() then Rename else FailBeforeRename,
                SyncDirectory(io.directorySynced), Verify(io.verified));
    } else {
      WritingCompletes(plan, s1, s1.phase.next, io);
    }
  }

  /** The stepped protocol refines the atomic form: uninterrupted, the head mutation does exactly RunOnce. */
  lemma HeadCompletes<D, Op>(plan: (Op, D) -> Plan<D>, s: State<D, Op>, io: Io)
    requires 0 < |s.queue| <= s.tickets && s.phase == Idle
    ensures var (disk, answer) := RunOnce(plan, s.disk, s.queue[0], io);
            Exec(plan, s, StepsOf(io)) == Answered(s.(disk := disk), answer)
  {
    ExecFour(plan, s, StepsOf(io));
    InspectDecides(plan, s, io);
    InspectedCompletes(plan, s, io, Do(plan, s, Inspect(io.inspected, io.fits)));
  }

  // ---------------------------------------------------------------- linearisation

  /** The mutations one after another, each atomic. */
  function Serial<D(==), Op>(plan: (Op, D) -> Plan<D>, disk: Disk<D>, ops: seq<Op>, ios: seq<Io>)
    : (r: (Disk<D>, seq<Answer<D, Op>>))
    requires |ops| == |ios|
    ensures |r.1| == |ops|
    decreases |ops|
  {
    var n := |ops|;
    if n == 0 then (disk, [])
    else
      var (before, answers) := Serial(plan, disk, ops[..n - 1], ios[..n - 1]);
      var (after, answer) := RunOnce(plan, before, ops[n - 1], ios[n - 1]);
      (after, answers + [answer])
  }

  function Submissions<D, Op>(steps: seq<Step<D, Op>>): seq<Op>
    decreases |steps|
  {
    if steps == [] then []
    else (if steps[0].Submit? then [steps[0].op] else []) + Submissions(steps[1..])
  }

  /** Everything answered so far is what the serial order gives; the head has added at most its own write. */
  ghost predicate Linear<D, Op>(
      plan: (Op, D) -> Plan<D>, doc: D, ops: seq<Op>, s: State<D, Op>, ios: seq<Io>)
  {
    && |s.queue| <= s.tickets == |ops|
    && |ios| == s.Head()
    && s.queue == ops[s.Head()..]
    && var (disk, answers) := Serial(plan, Disk(doc, {doc}), ops[..s.Head()], ios);
    && (forall t | 0 <= t < |answers| :: t in s.answers && s.answers[t] == answers[t])
    && (s.phase != Idle ==> s.queue != [] && plan(s.queue[0], disk.visible) == Write(s.phase.next))
    && s.disk == (
         match s.phase
         case Idle => disk
         case Writing(_) => disk
         case Replaced(next) => disk.Replace(next)
         case Durable(next) => Disk(next, {next}))
  }

  /** The file outcomes the head mutation has met when it is answered by step. */
  function Met<D, Op>(step: Step<D, Op>): Io {
    match step
    case Inspect(ok, fits) => Io(ok, fits, true, true, true, true, true, true, true, true)
    case FailBeforeRename => Io(true, true, true, true, true, true, false, true, true, true)
    case SyncDirectory(ok) => Io(true, true, true, true, true, true, true, true, ok, true)
    case Verify(ok) => Io(true, true, true, true, true, true, true, true, true, ok)
    case _ => Io(true, true, true, true, true, true, true, true, true, true)
  }

  ghost predicate Linearised<D, Op>(plan: (Op, D) -> Plan<D>, doc: D, ops: seq<Op>, s: State<D, Op>) {
    exists ios :: Linear(plan, doc, ops, s, ios)
  }

  lemma AnswerKeepsLinear<D, Op>(
      plan: (Op, D) -> Plan<D>, doc: D, ops: seq<Op>, s: State<D, Op>, ios: seq<Io>, io: Io, s': State<D, Op>)
    requires Linear(plan, doc, ops, s, ios) && s.queue != []
    requires var before := Serial(plan, Disk(doc, {doc}), ops[..s.Head()], ios).0;
             var (after, answer) := RunOnce(plan, before, s.queue[0], io);
             s' == Answered(s, answer).(disk := after)
    ensures Linear(plan, doc, ops, s', ios + [io])
  {
    var h := s.Head();
    assert (ios + [io])[..h] == ios && ops[..h + 1][..h] == ops[..h] && ops[h] == s.queue[0];
  }

  lemma SubmitKeepsLinear<D, Op>(
      plan: (Op, D) -> Plan<D>, doc: D, ops: seq<Op>, s: State<D, Op>, ios: seq<Io>, op: Op)
    requires Linear(plan, doc, ops, s, ios)
    ensures Linear(plan, doc, ops + [op], Do(plan, s, Submit(op)), ios)
  {
    var h := s.Head();
    assert (ops + [op])[..h] == ops[..h];
    assert Do(plan, s, Submit(op)).queue == (ops + [op])[h..];
  }

  /** A step that answers the head does what the atomic form does with the outcomes met. */
  lemma AnswersAtomically<D, Op>(
      plan: (Op, D) -> Plan<D>, doc: D, ops: seq<Op>, s: State<D, Op>, ios: seq<Io>, step: Step<D, Op>)
    requires Linear(plan, doc, ops, s, ios)
    requires !step.Restart? && !step.PowerLoss? && |Do(plan, s, step).queue| < |s.queue|
    ensures var before := Serial(plan, Disk(doc, {doc}), ops[..s.Head()], ios).0;
            var (after, answer) := RunOnce(plan, before, s.queue[0], Met(step));
            Do(plan, s, step) == Answered(s, answer).(disk := after)
  {
  }

  lemma DoKeepsLinear<D, Op>(
      plan: (Op, D) -> Plan<D>, doc: D, ops: seq<Op>, s: State<D, Op>, step: Step<D, Op>)
    requires Linearised(plan, doc, ops, s)
    requires !step.Restart? && !step.PowerLoss?
    ensures Linearised(plan, doc, ops + (if step.Submit? then [step.op] else []), Do(plan, s, step))
  {
    var ios :| Linear(plan, doc, ops, s, ios);
    if step.Submit? {
      SubmitKeepsLinear(plan, doc, ops, s, ios, step.op);
    } else {
      assert ops + [] == ops;
      if |Do(plan, s, step).queue| < |s.queue| {
        AnswersAtomically(plan, doc, ops, s, ios, step);
        AnswerKeepsLinear(plan, doc, ops, s, ios, Met(step), Do(plan, s, step));
      } else {
        SilentKeepsLinear(plan, doc, ops, s, ios, step);
      }
    }
  }

  lemma SilentKeepsLinear<D, Op>(
      plan: (Op, D) -> Plan<D>, doc: D, ops: seq<Op>, s: State<D, Op>, ios: seq<Io>, step: Step<D, Op>)
    requires Linear(plan, doc, ops, s, ios)
    requires !step.Submit? && !step.Restart? && !step.PowerLoss? && |s.queue| <= |Do(plan, s, step).queue|
    ensures Linear(plan, doc, ops, Do(plan, s, step), ios)
  {
  }

  /**
  Overlapping mutations linearise in call order: in a run without a crash there are file outcomes for
  which the answers given so far, and the disk whenever no mutation is under way, are those of the serial
  execution of the submitted mutations.
  */
  lemma {:induction false} RunLinearises<D, Op>(
      plan: (Op, D) -> Plan<D>, doc: D, ops: seq<Op>, s: State<D, Op>, steps: seq<Step<D, Op>>, all: seq<Op>)
    requires Linearised(plan, doc, ops, s)
    requires forall i | 0 <= i < |steps| :: !steps[i].Restart? && !steps[i].PowerLoss?
    requires all == ops + Submissions(steps)
    ensures Linearised(plan, doc, all, Exec(plan, s, steps))
    decreases |steps|
  {
    if steps == [] {
      assert all == ops;
    } else {
      var ops' := ops + if steps[0].Submit? then [steps[0].op] else [];
      assert all == ops' + Submissions(steps[1..]);
      DoKeepsLinear(plan, doc, ops, s, steps[0]);
      RunLinearises(plan, doc, ops', Do(plan, s, steps[0]), steps[1..], all);
    }
  }

  /** The file behind a store, replaced step by step. */
  class StateFile<D(==)> {
    var visible: D
    ghost var possible: set<D>
    var temporary: Option<D>
    var handleOpen: bool

    constructor (doc: D)
      ensures OnDisk() == Disk.Disk(doc, {doc}) && temporary == None && !handleOpen
    {
      visible, possible, temporary, handleOpen := doc, {doc}, None, false;
    }

    ghost function OnDisk(): Disk<D>
      reads this
    {
      Disk.Disk(visible, possible)
    }

    /**
    Writes, syncs and renames a temporary file under a new random name, then syncs the directory; leaves no open
    handle, and a temporary file only when it could not be unlinked.
    */
    method AtomicWrite(next: D, io: Io) returns (error: Option<WriteError>)
      requires !handleOpen
      modifies this
      ensures !io.Staged() ==> error == Some(WriteFailed) && OnDisk() == old(OnDisk())
      ensures io.Staged() && !io.directorySynced ==>
                error == Some(DurabilityUnknown) && OnDisk() == old(OnDisk()).Replace(next)
      ensures io.Staged() && io.directorySynced ==>
                error == None && OnDisk() == Disk.Disk(next, {next})
      ensures !handleOpen
      ensures temporary == if io.created && !io.Staged() && !io.unlinked then Some(next) else None
    {
      var renamed := false;
      temporary := None;
      var failed := !io.created;
      if !failed {
        temporary, handleOpen := Some(next), true;
        failed := !(io.written && io.synced);
      }
      if !failed {
        failed := !io.closed;
        handleOpen := failed;
      }
      if !failed {
        failed := !io.renamed;
        if !failed {
          visible, possible, temporary := next, possible + {next}, None;
          renamed := true;
        }
      }
      if !failed {
        failed := !io.directorySynced;
        if !failed {
          possible := {visible};
        }
      }
      if failed {
        if handleOpen {
          handleOpen := false;
        }
        if !renamed {
          if io.unlinked {
            temporary := None;
          }
        }
        return Some(if renamed then DurabilityUnknown else WriteFailed);
      }
      return None;
    }

    /** One mutation: inspect, plan, persist and inspect again. */
    method Mutate<Op>(plan: (Op, D) -> Plan<D>, op: Op, io: Io) returns (answer: Answer<D, Op>)
      requires !handleOpen
      modifies this
      ensures (OnDisk(), answer) == RunOnce(plan, old(OnDisk()), op, io)
      ensures !handleOpen
    {
      if !io.inspected {
        return Failed(op, InvalidState);
      }
      var current := visible;
      match plan(op, current) {
        case Refuse(code) =>
          return Failed(op, code);
        case Existing =>
          return Already(op, current);
        case Write(next) =>
          if !io.fits {
            return Failed(op, TooLarge);
          }
          var error := AtomicWrite(next, io);
          if error.Some? {
            return Failed(op, error.value);
          }
          if !io.verified {
            return Failed(op, InvalidResult);
          }
          return Recorded(op, visible);
      }
    }
  }
}
