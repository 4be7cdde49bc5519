/**
One terminal session on the server. Every chunk of output is numbered and appended to a promise chain whose
link for a chunk writes it to the headless terminal; a snapshot waits for the link that was last when it was
asked for. Promise jobs run first-in first-out (section 9.5 of ECMA-262), the terminal parses what it was
given at its own pace, and output and snapshot requests may arrive between any two steps.
*/
module TerminalSession {
  import opened Options
  import opened TerminalSplit

  /** Start and Serialise are reactions to a link of the chain; Fulfil settles the link of a chunk. */
  datatype Job = Start(chunk: nat) | Serialise(origin: Option<nat>, target: nat) | Fulfil(chunk: nat)

  /** A chunk handed to the terminal, of which a part has been parsed. */
  datatype Write = Write(chunk: nat, text: Text, parsed: nat)

  datatype Snapshot = Snapshot(origin: Option<nat>, sequence: nat, data: seq<Text>)

  /**
  chunks is all output so far, fulfilled the number of settled links, buffer what the terminal has yet to
  parse, terminal what it has parsed, jobs the queue of runnable jobs and waiting the reactions to links not
  yet settled, in order of registration.
  */
  datatype Session = Session(
    chunks: seq<Text>, fulfilled: nat, buffer: seq<Write>, terminal: seq<Text>,
    jobs: seq<Job>, waiting: seq<Job>, replies: seq<Snapshot>)

  function Opened(): Session {
    Session([], 0, [], [], [], [], [])
  }

  /** The number of the link a reaction waits for. */
  function WaitsFor(job: Job): int {
    match job
    case Start(chunk) => chunk - 1
    case Serialise(_, target) => target
    case Fulfil(chunk) => chunk
  }

  function Then(s: Session, reaction: Job): Session {
    if WaitsFor(reaction) <= s.fulfilled then s.(jobs := s.jobs + [reaction])
    else s.(waiting := s.waiting + [reaction])
  }

  function HandleChunk(s: Session, data: Text): Session {
    Then(s.(chunks := s.chunks + [data]), Start(|s.chunks| + 1))
  }

  function AskSnapshot(s: Session, origin: Option<nat>): Session {
    Then(s, Serialise(origin, |s.chunks|))
  }

  /** What the serializer sees: all parsed writes, and the parsed part of the one under way. */
  function Screen(s: Session): seq<Text> {
    if s.buffer != [] && 0 < s.buffer[0].parsed <= |s.buffer[0].text|
    then s.terminal + [s.buffer[0].text[..s.buffer[0].parsed]]
    else s.terminal
  }

  function Released(waiting: seq<Job>, link: nat): seq<Job> {
    if waiting == [] then []
    else (if WaitsFor(waiting[0]) == link then [waiting[0]] else []) + Released(waiting[1..], link)
  }

  function StillWaiting(waiting: seq<Job>, link: nat): seq<Job> {
    if waiting == [] then []
    else (if WaitsFor(waiting[0]) == link then [] else [waiting[0]]) + StillWaiting(waiting[1..], link)
  }

  function RunJob(s: Session): Session {
    if s.jobs == [] then s
    else
      var s1 := s.(jobs := s.jobs[1..]);
      match s.jobs[0]
      case Start(chunk) =>
        if 1 <= chunk <= |s.chunks| then s1.(buffer := s.buffer + [Write(chunk, s.chunks[chunk - 1], 0)]) else s1
      case Serialise(origin, target) =>
        s1.(replies := s.replies + [Snapshot(origin, target, Screen(s))])
      case Fulfil(chunk) =>
        s1.(fulfilled := chunk,
            jobs := s1.jobs + Released(s.waiting, chunk),
            waiting := StillWaiting(s.waiting, chunk))
  }

  /** The terminal parses up to amount more units of its first write; finishing it queues its callback. */
  function Parse(s: Session, amount: nat): Session {
    if s.buffer == [] then s
    else
      var w := s.buffer[0];
      if w.parsed + amount < |w.text| then
        s.(buffer := [w.(parsed := w.parsed + amount)] + s.buffer[1..])
      else
        s.(buffer := s.buffer[1..], terminal := s.terminal + [w.text], jobs := s.jobs + [Fulfil(w.chunk)])
  }

  // ---------------------------------------------------------------- invariant

  /**
  The reactions yet to run, from the point where `at` chunks have been written: every further chunk is
  started once and in order, and a snapshot of a target runs between that chunk and the next.
  */
  predicate Schedule(plan: seq<Job>, at: nat, total: nat) {
    if plan == [] then at == total
    else
      match plan[0]
      case Serialise(_, target) => target == at && Schedule(plan[1..], at, total)
      case Start(chunk) => chunk == at + 1 && at < total && Schedule(plan[1..], at + 1, total)
      case Fulfil(_) => false
  }

  /** A reaction registered when total chunks have arrived. */
  predicate IsNext(job: Job, total: nat) {
    match job
    case Start(chunk) => chunk == total + 1
    case Serialise(_, target) => target == total
    case Fulfil(_) => false
  }

  predicate AllReady(jobs: seq<Job>, link: nat) {
    forall j <- jobs :: WaitsFor(j) <= link
  }

  predicate AllLater(jobs: seq<Job>, link: nat) {
    forall j <- jobs :: link < WaitsFor(j)
  }

  predicate IsIdle(s: Session) {
    && s.fulfilled <= |s.chunks|
    && s.buffer == []
    && s.terminal == s.chunks[..s.fulfilled]
    && Schedule(s.jobs + s.waiting, s.fulfilled, |s.chunks|)
    && AllReady(s.jobs, s.fulfilled) && AllLater(s.waiting, s.fulfilled)
  }

  predicate IsWriting(s: Session) {
    && s.fulfilled < |s.chunks|
    && |s.buffer| == 1 && s.buffer[0].chunk == s.fulfilled + 1 && s.buffer[0].text == s.chunks[s.fulfilled]
    && s.terminal == s.chunks[..s.fulfilled]
    && s.jobs == [] && Schedule(s.waiting, s.fulfilled + 1, |s.chunks|)
  }

  predicate IsWritten(s: Session) {
    && s.fulfilled < |s.chunks|
    && s.buffer == []
    && s.terminal == s.chunks[..s.fulfilled + 1]
    && s.jobs == [Fulfil(s.fulfilled + 1)] && Schedule(s.waiting, s.fulfilled + 1, |s.chunks|)
  }

  predicate IsExact(r: Snapshot, chunks: seq<Text>) {
    r.sequence <= |chunks| && r.data == chunks[..r.sequence]
  }

  predicate Valid(s: Session) {
    && (IsIdle(s) || IsWriting(s) || IsWritten(s))
    && forall r <- s.replies :: IsExact(r, s.chunks)
  }

  lemma {:induction false} ScheduleAppend(plan: seq<Job>, at: nat, total: nat, job: Job)
    requires Schedule(plan, at, total)
    requires IsNext(job, total)
    ensures Schedule(plan + [job], at, if job.Start? then total + 1 else total)
  {
    if plan == [] {
      assert [] + [job] == [job] && [job][1..] == [];
    } else {
      assert (plan + [job])[1..] == plan[1..] + [job];
      ScheduleAppend(plan[1..], if plan[0].Start? then at + 1 else at, total, job);
    }
  }

  lemma {:induction false} ScheduleBounds(plan: seq<Job>, at: nat, total: nat)
    requires Schedule(plan, at, total)
    ensures at <= total && forall j <- plan :: !j.Fulfil? && at <= WaitsFor(j) <= total
  {
    if plan != [] {
      ScheduleBounds(plan[1..], if plan[0].Start? then at + 1 else at, total);
      assert plan == [plan[0]] + plan[1..];
    }
  }

  lemma {:induction false} NothingReleased(plan: seq<Job>, link: nat)
    requires AllLater(plan, link)
    ensures Released(plan, link) == [] && StillWaiting(plan, link) == plan
  {
    if plan != [] {
      assert plan[0] in plan && forall j <- plan[1..] :: j in plan;
      NothingReleased(plan[1..], link);
    }
  }

  /** Settling a link releases exactly the front of what waits. */
  lemma {:induction false} ReleaseSplits(plan: seq<Job>, at: nat, total: nat)
    requires Schedule(plan, at, total)
    ensures Released(plan, at) + StillWaiting(plan, at) == plan
    ensures AllReady(Released(plan, at), at) && AllLater(StillWaiting(plan, at), at)
  {
    if plan != [] {
      ScheduleBounds(plan, at, total);
      if plan[0].Start? {
        ScheduleBounds(plan[1..], at + 1, total);
        NothingReleased(plan[1..], at);
      } else {
        ReleaseSplits(plan[1..], at, total);
      }
    }
  }

  lemma NotBoth(jobs: seq<Job>, link: nat)
    requires jobs != []
    ensures !AllReady(jobs, link) || !AllLater(jobs, link)
  {
    assert jobs[0] in jobs;
  }

  lemma AllWrittenIsReady(s: Session)
    requires IsIdle(s) && s.fulfilled == |s.chunks|
    ensures s.waiting == []
  {
    ScheduleBounds(s.jobs + s.waiting, s.fulfilled, |s.chunks|);
    if s.waiting != [] {
      NotBoth(s.waiting, s.fulfilled);
    }
  }

  lemma ThenKeepsIdle(s: Session, job: Job, s': Session)
    requires IsIdle(s)
    requires IsNext(job, |s.chunks|)
    requires s' == Then(s.(chunks := s'.chunks), job)
    requires s.chunks <= s'.chunks
    requires |s'.chunks| == if job.Start? then |s.chunks| + 1 else |s.chunks|
    ensures IsIdle(s')
  {
    var plan := s.jobs + s.waiting;
    ScheduleAppend(plan, s.fulfilled, |s.chunks|, job);
    assert s'.chunks[..s.fulfilled] == s.chunks[..s.fulfilled];
    if |s.chunks| == s.fulfilled {
      AllWrittenIsReady(s);
      assert s'.jobs + s'.waiting == plan + [job];
    } else {
      assert s'.jobs + s'.waiting == plan + [job];
    }
  }

  lemma ThenKeepsValid(s: Session, job: Job, s': Session)
    requires Valid(s)
    requires IsNext(job, |s.chunks|)
    requires s' == Then(s.(chunks := s'.chunks), job)
    requires s.chunks <= s'.chunks
    requires |s'.chunks| == if job.Start? then |s.chunks| + 1 else |s.chunks|
    ensures Valid(s')
  {
    forall r | r in s'.replies ensures IsExact(r, s'.chunks) {
      assert IsExact(r, s.chunks) && s'.chunks[..r.sequence] == s.chunks[..r.sequence];
    }
    if IsIdle(s) {
      ThenKeepsIdle(s, job, s');
    } else {
      ScheduleAppend(s.waiting, s.fulfilled + 1, |s.chunks|, job);
      assert s'.chunks[..s.fulfilled] == s.chunks[..s.fulfilled];
      assert s'.chunks[..s.fulfilled + 1] == s.chunks[..s.fulfilled + 1];
    }
  }

  lemma ChunkKeepsValid(s: Session, data: Text)
    requires Valid(s)
    ensures Valid(HandleChunk(s, data))
  {
    ThenKeepsValid(s, Start(|s.chunks| + 1), HandleChunk(s, data));
  }

  lemma AskKeepsValid(s: Session, origin: Option<nat>)
    requires Valid(s)
    ensures Valid(AskSnapshot(s, origin))
  {
    ThenKeepsValid(s, Serialise(origin, |s.chunks|), AskSnapshot(s, origin));
  }

  lemma RunIdleJob(s: Session)
    requires Valid(s) && IsIdle(s) && s.jobs != []
    ensures Valid(RunJob(s))
  {
    var s' := RunJob(s);
    var plan := s.jobs + s.waiting;
    assert plan[1..] == s.jobs[1..] + s.waiting;
    ScheduleBounds(plan, s.fulfilled, |s.chunks|);
    assert plan[0] in plan && forall j <- s.jobs[1..] :: j in s.jobs;
    match s.jobs[0] {
      case Start(chunk) =>
        ScheduleBounds(plan[1..], s.fulfilled + 1, |s.chunks|);
        if s.jobs[1..] != [] {
          NotBoth(s.jobs[1..], s.fulfilled);
        }
        assert s'.jobs == [] && plan[1..] == s'.waiting;
        assert IsWriting(s');
      case Serialise(_, _) =>
        assert IsIdle(s');
      case Fulfil(_) =>
    }
  }

  lemma RunKeepsValid(s: Session)
    requires Valid(s)
    ensures Valid(RunJob(s))
  {
    if s.jobs != [] {
      if IsIdle(s) {
        RunIdleJob(s);
      } else {
        ReleaseSplits(s.waiting, s.fulfilled + 1, |s.chunks|);
        if IsWritten(s) {
          var s' := RunJob(s);
          assert s'.jobs + s'.waiting == s.waiting;
          assert IsIdle(s');
        }
      }
    }
  }

  lemma ParseKeepsValid(s: Session, amount: nat)
    requires Valid(s)
    ensures Valid(Parse(s, amount))
  {
    if s.buffer != [] {
      var s' := Parse(s, amount);
      assert s.chunks[..s.fulfilled] + [s.chunks[s.fulfilled]] == s.chunks[..s.fulfilled + 1];
      assert IsWriting(s') || IsWritten(s');
    }
  }

  datatype Event = Output(data: Text) | Ask(origin: Option<nat>) | Job | Parsed(amount: nat)

  function Step(s: Session, e: Event): Session {
    match e
    case Output(data) => HandleChunk(s, data)
    case Ask(origin) => AskSnapshot(s, origin)
    case Job => RunJob(s)
    case Parsed(amount) => Parse(s, amount)
  }

  function Run(s: Session, events: seq<Event>): Session
    decreases |events|
  {
    if events == [] then s else Run(Step(s, events[0]), events[1..])
  }

  lemma StepKeepsValid(s: Session, e: Event)
    requires Valid(s)
    ensures Valid(Step(s, e))
  {
    match e {
      case Output(data) => ChunkKeepsValid(s, data);
      case Ask(origin) => AskKeepsValid(s, origin);
      case Job => RunKeepsValid(s);
      case Parsed(amount) => ParseKeepsValid(s, amount);
    }
  }

  lemma {:induction false} RunKeepsValidity(s: Session, events: seq<Event>)
    requires Valid(s)
    ensures Valid(Run(s, events))
    decreases |events|
  {
    if events != [] {
      StepKeepsValid(s, events[0]);
      RunKeepsValidity(Step(s, events[0]), events[1..]);
    }
  }

  // ---------------------------------------------------------------- snapshots linearise

  function Outputs(events: seq<Event>): seq<Text>
    decreases |events|
  {
    if events == [] then []
    else (if events[0].Output? then [events[0].data] else []) + Outputs(events[1..])
  }

  lemma {:induction false} RunCollects(s: Session, events: seq<Event>)
    ensures Run(s, events).chunks == s.chunks + Outputs(events)
    decreases |events|
  {
    if events != [] {
      RunCollects(Step(s, events[0]), events[1..]);
    }
  }

  /** Every request and reply of this origin is about the first target chunks; none can be about -1. */
  predicate About(s: Session, origin: Option<nat>, target: int) {
    && (forall j <- s.jobs + s.waiting :: j.Serialise? && j.origin == origin ==> j.target == target)
    && (forall r <- s.replies :: r.origin == origin ==> r.sequence == target)
  }

  lemma {:induction false} ReleaseSelects(plan: seq<Job>, link: nat)
    ensures forall j <- Released(plan, link) + StillWaiting(plan, link) :: j in plan
  {
    if plan != [] {
      ReleaseSelects(plan[1..], link);
      assert plan == [plan[0]] + plan[1..];
    }
  }

  lemma StepKeepsAbout(s: Session, e: Event, origin: Option<nat>, target: int)
    requires About(s, origin, target)
    requires e == Ask(origin) ==> target == |s.chunks|
    ensures About(Step(s, e), origin, target)
  {
    if e.Job? && s.jobs != [] {
      var job := s.jobs[0];
      assert job in s.jobs + s.waiting;
      if job.Fulfil? {
        ReleaseSelects(s.waiting, job.chunk);
      }
    }
  }

  lemma {:induction false} RunKeepsAbout(s: Session, events: seq<Event>, origin: Option<nat>, target: int)
    requires About(s, origin, target) && Ask(origin) !in events
    ensures About(Run(s, events), origin, target)
    decreases |events|
  {
    if events != [] {
      assert events[0] in events && forall e <- events[1..] :: e in events;
      StepKeepsAbout(s, events[0], origin, target);
      RunKeepsAbout(Step(s, events[0]), events[1..], origin, target);
    }
  }

  lemma {:induction false} RunSplits(s: Session, first: seq<Event>, second: seq<Event>)
    ensures Run(s, first + second) == Run(Run(s, first), second)
    decreases |first|
  {
    if first == [] {
      assert first + second == second;
    } else {
      assert (first + second)[1..] == first[1..] + second;
      RunSplits(Step(s, first[0]), first[1..], second);
    }
  }

  /**
  Snapshot linearisation: whatever arrives while it waits, a snapshot shows exactly the output that had
  arrived when it was asked for, and is numbered accordingly.
  */
  lemma SnapshotLinearises(before: seq<Event>, origin: Option<nat>, after: seq<Event>, r: Snapshot)
    requires Ask(origin) !in before && Ask(origin) !in after
    requires r in Run(Opened(), before + [Ask(origin)] + after).replies && r.origin == origin
    ensures r.data == Outputs(before) && r.sequence == |Outputs(before)|
  {
    var s := Run(Opened(), before);
    var asked := AskSnapshot(s, origin);
    var end := Run(asked, after);
    RunSplits(Opened(), before + [Ask(origin)], after);
    RunSplits(Opened(), before, [Ask(origin)]);
    assert Run(s, [Ask(origin)]) == Run(asked, [Ask(origin)][1..]) == asked;
    RunKeepsAbout(Opened(), before, origin, -1);
    assert forall j <- s.jobs + s.waiting :: !(j.Serialise? && j.origin == origin);
    assert About(s, origin, |s.chunks|);
    StepKeepsAbout(s, Ask(origin), origin, |s.chunks|);
    RunKeepsAbout(asked, after, origin, |s.chunks|);
    RunKeepsValidity(Opened(), before + [Ask(origin)] + after);
    RunCollects(Opened(), before);
    RunCollects(asked, after);
    assert IsExact(r, end.chunks);
    assert end.chunks[..|s.chunks|] == s.chunks;
  }

  // ---------------------------------------------------------------- nothing gets stuck

  predicate Quiet(s: Session) {
    s.jobs == [] && s.buffer == []
  }

  lemma FirstIsReady(plan: seq<Job>, at: nat, total: nat)
    requires Schedule(plan, at, total) && plan != []
    ensures !AllLater(plan, at)
  {
    assert plan[0] in plan;
  }

  lemma QuietIsComplete(s: Session)
    requires Valid(s) && Quiet(s)
    ensures s.waiting == [] && s.terminal == s.chunks && s.fulfilled == |s.chunks|
  {
    assert IsIdle(s);
    assert s.jobs + s.waiting == s.waiting;
    if s.waiting != [] {
      FirstIsReady(s.waiting, s.fulfilled, |s.chunks|);
    }
  }

  function Remaining(s: Session): nat {
    3 * (|s.jobs| + |s.waiting|) + 2 * |s.buffer| - (if IsWritten(s) then 2 else 0)
  }

  /** From every reachable state the chain runs dry by itself, and then everything has been written. */
  lemma {:induction false} Settles(s: Session) returns (events: seq<Event>)
    requires Valid(s)
    ensures Quiet(Run(s, events)) && forall e <- events :: e.Job? || e.Parsed?
    decreases Remaining(s)
  {
    if Quiet(s) {
      return [];
    }
    var e := if s.jobs != [] then Job else Parsed(|s.buffer[0].text|);
    StepKeepsValid(s, e);
    if s.jobs != [] && s.jobs[0].Fulfil? {
      RunDoesLess(s);
    }
    var rest := Settles(Step(s, e));
    events := [e] + rest;
    assert events[1..] == rest;
  }

  lemma RunDoesLess(s: Session)
    requires Valid(s) && s.jobs != []
    ensures Remaining(RunJob(s)) < Remaining(s)
  {
    if IsWritten(s) {
      ReleaseSplits(s.waiting, s.fulfilled + 1, |s.chunks|);
    }
  }

  // ---------------------------------------------------------------- the object

  function HandleChunks(s: Session, pieces: seq<Text>): Session {
    if pieces == [] then s
    else HandleChunk(HandleChunks(s, pieces[..|pieces| - 1]), pieces[|pieces| - 1])
  }

  lemma NextPiece(s: Session, pieces: seq<Text>, i: nat)
    requires i < |pieces|
    ensures HandleChunks(s, pieces[..i + 1]) == HandleChunk(HandleChunks(s, pieces[..i]), pieces[i])
  {
    assert pieces[..i + 1][..i] == pieces[..i];
  }

  lemma {:induction false} PiecesCollect(s: Session, pieces: seq<Text>)
    ensures HandleChunks(s, pieces).chunks == s.chunks + pieces
  {
    var n := |pieces|;
    if 0 < n {
      PiecesCollect(s, pieces[..n - 1]);
      assert pieces == pieces[..n - 1] + [pieces[n - 1]];
    }
  }

  class ManagedSession {
    var sequence: nat
    var chunks: seq<Text>
    var fulfilled: nat
    var buffer: seq<Write>
    var terminal: seq<Text>
    var jobs: seq<Job>
    var waiting: seq<Job>
    var replies: seq<Snapshot>

    ghost function State(): Session
      reads this
    {
      Session(chunks, fulfilled, buffer, terminal, jobs, waiting, replies)
    }

    ghost predicate Consistent()
      reads this
    {
      sequence == |chunks| && Valid(State())
    }

    constructor ()
      ensures Consistent() && State() == Opened()
    {
      sequence, chunks, fulfilled, buffer, terminal, jobs, waiting, replies := 0, [], 0, [], [], [], [], [];
    }

    /** Registers a reaction on the last link of the chain. */
    method OnLastLink(reaction: Job)
      modifies this`jobs, this`waiting
      ensures State() == Then(old(State()), reaction)
    {
      if WaitsFor(reaction) <= fulfilled {
        jobs := jobs + [reaction];
      } else {
        waiting := waiting + [reaction];
      }
    }

    method HandleDataChunk(data: Text)
      requires Consistent()
      modifies this
      ensures Consistent() && State() == HandleChunk(old(State()), data)
    {
      ChunkKeepsValid(State(), data);
      sequence := sequence + 1;
      chunks := chunks + [data];
      OnLastLink(Start(sequence));
    }

    /**
    One PTY event: its text is cut into frames, each numbered and chained in order. Up to the bound, and so for
    an empty event too, that is one frame.
    */
    method HandleData(data: Text) returns (pieces: seq<Text>)
      requires Consistent()
      modifies this
      ensures Consistent() && State() == HandleChunks(old(State()), pieces)
      ensures Joined(pieces) == data && WellSplit(pieces) && (data != [] ==> Complete(pieces))
      ensures |data| <= MAXIMUM_CHARACTERS ==> pieces == [data]
      ensures chunks == old(chunks) + pieces
    {
      pieces := Split(data);
      ghost var start := State();
      HandlePieces(pieces);
      PiecesCollect(start, pieces);
    }

    method HandlePieces(pieces: seq<Text>)
      requires Consistent()
      modifies this
      ensures Consistent() && State() == HandleChunks(old(State()), pieces)
    {
      var i := 0;
      ghost var start := State();
      assert HandleChunks(start, pieces[..0]) == start;
      while i < |pieces|
        invariant 0 <= i <= |pieces|
        invariant Consistent() && State() == HandleChunks(start, pieces[..i])
      {
        NextPiece(start, pieces, i);
        HandleDataChunk(pieces[i]);
        i := i + 1;
      }
      assert pieces[..i] == pieces;
    }

    method AskForSnapshot(origin: Option<nat>) returns (target: nat)
      requires Consistent()
      modifies this`jobs, this`waiting
      ensures Consistent() && State() == AskSnapshot(old(State()), origin) && target == sequence
    {
      AskKeepsValid(State(), origin);
      target := sequence;
      OnLastLink(Serialise(origin, target));
    }
  }
}
