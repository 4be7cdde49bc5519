/**
The terminal mirror: the hub subscribes a client before it asks for a snapshot, the client buffers frames
until the snapshot arrives, replays the buffer and then streams. A terminal is the list of chunks it was
given, of which its contents are a fold.
*/
module TerminalMirror {
  import opened Options
  import opened TerminalSplit
  import Server = TerminalSession

  const MAX_PENDING: nat := 1000

  datatype Frame = Frame(number: nat, data: Text)

  datatype Message = Chunk(frame: Frame) | Restore(sequence: nat, data: seq<Text>)

  /**
  The client's record of one mounted terminal. The other fields are bookkeeping the source does not have: the
  frames offered before the first snapshot came, and of the last snapshot its number, the last frame before
  those replayed over it, where the replay ended, and the last frame delivered by then.
  */
  datatype Sync = Sync(
    sequence: nat, applied: bool, pending: seq<Frame>, screen: seq<Text>,
    offered: nat, snapshot: nat, start: nat, restored: nat, seen: nat)

  datatype Client = Detached | Attached(sync: Sync)

  /** The current connection; delivered is the number of the last frame that was sent and has arrived. */
  datatype Link = Link(
    connection: nat, open: bool, subscribed: bool, requests: nat, wire: seq<Message>, delivered: nat)

  datatype World = World(session: Server.Session, link: Link, client: Client)

  // ---------------------------------------------------------------- the client

  function NewSync(): Sync {
    Sync(0, false, [], [], 0, 0, 0, 0, 0)
  }

  function WriteFrame(sync: Sync, f: Frame): Sync {
    if f.number <= sync.sequence then sync
    else sync.(screen := sync.screen + [f.data], sequence := f.number)
  }

  function ApplyFrame(sync: Sync, f: Frame): Sync {
    if sync.applied then WriteFrame(sync, f)
    else sync.(pending := if |sync.pending| < MAX_PENDING then sync.pending + [f] else sync.pending,
               offered := sync.offered + 1)
  }

  function Replay(sync: Sync, pending: seq<Frame>): Sync
    decreases pending
  {
    if pending == [] then sync else Replay(WriteFrame(sync, pending[0]), pending[1..])
  }

  function ApplySnapshot(sync: Sync, sequence: nat, data: seq<Text>, delivered: nat): Sync {
    var replayed := Replay(sync.(sequence := sequence, applied := true, screen := data), sync.pending);
    replayed.(pending := [], snapshot := sequence, restored := replayed.sequence, seen := delivered,
              start := if sync.applied || delivered < sync.offered then delivered else delivered - sync.offered)
  }

  // ---------------------------------------------------------------- the whole

  datatype Move =
    | Output(data: Text)
    | RunsJob
    | Parses(amount: nat)
    | AsksElsewhere
    | Subscribes
    | HandlesAttach
    | Sends(index: nat)
    | Delivers
    | Selects
    | Deselects
    | Closes(kept: nat)
    | Reconnects

  function Subscribed(link: Link, total: nat): Link {
    if link.subscribed then link else link.(subscribed := true, delivered := total)
  }

  function Next(w: World, move: Move): World {
    var link := w.link;
    var total := |w.session.chunks|;
    match move
    case Output(data) =>
      World(Server.HandleChunk(w.session, data),
            if link.open && link.subscribed
            then link.(wire := link.wire + [Chunk(Frame(total + 1, data))]) else link,
            w.client)
    case RunsJob => w.(session := Server.RunJob(w.session))
    case Parses(amount) => w.(session := Server.Parse(w.session, amount))
    case AsksElsewhere => w.(session := Server.AskSnapshot(w.session, None))
    case Subscribes =>
      if !link.open then w else w.(link := Subscribed(link, total))
    case HandlesAttach =>
      if !link.open || link.requests == 0 then w
      else w.(session := Server.AskSnapshot(w.session, Some(link.connection)),
              link := Subscribed(link, total).(requests := link.requests - 1))
    case Sends(index) =>
      if |w.session.replies| <= index then w
      else
        var r := w.session.replies[index];
        World(w.session.(replies := w.session.replies[..index] + w.session.replies[index + 1..]),
              if link.open && r.origin == Some(link.connection)
              then link.(wire := link.wire + [Restore(r.sequence, r.data)]) else link,
              w.client)
    case Delivers =>
      if link.wire == [] then w
      else Receives(w.(link := link.(wire := link.wire[1..])), link.wire[0])
    case Selects => w.(client := Attached(NewSync()), link := link.(requests := link.requests + 1))
    case Deselects => w.(client := Detached)
    case Closes(kept) =>
      if |link.wire| < kept then w else w.(link := link.(open := false, wire := link.wire[..kept]))
    case Reconnects =>
      World(w.session, Link(link.connection + 1, true, false, 0, [], 0), Detached)
  }

  function Receives(w: World, message: Message): World {
    match message
    case Chunk(f) =>
      World(w.session, w.link.(delivered := f.number),
            if w.client.Attached? then Attached(ApplyFrame(w.client.sync, f)) else Detached)
    case Restore(sequence, data) =>
      if w.client.Attached?
      then w.(client := Attached(ApplySnapshot(w.client.sync, sequence, data, w.link.delivered))) else w
  }

  // ---------------------------------------------------------------- outstanding attaches

  function Asked(jobs: seq<Server.Job>, connection: nat): nat {
    if jobs == [] then 0
    else (if jobs[0].Serialise? && jobs[0].origin == Some(connection) then 1 else 0) + Asked(jobs[1..], connection)
  }

  function Answered(replies: seq<Server.Snapshot>, connection: nat): nat {
    if replies == [] then 0
    else (if replies[0].origin == Some(connection) then 1 else 0) + Answered(replies[1..], connection)
  }

  function Restores(wire: seq<Message>): nat {
    if wire == [] then 0 else (if wire[0].Restore? then 1 else 0) + Restores(wire[1..])
  }

  function AtServer(s: Server.Session, connection: nat): nat {
    Asked(s.jobs, connection) + Asked(s.waiting, connection) + Answered(s.replies, connection)
  }

  /** Attaches of the current connection whose snapshot has not reached the client. */
  function Outstanding(w: World): nat {
    w.link.requests + AtServer(w.session, w.link.connection) + Restores(w.link.wire)
  }

  lemma {:induction false} AskedConcat(a: seq<Server.Job>, b: seq<Server.Job>, c: nat)
    ensures Asked(a + b, c) == Asked(a, c) + Asked(b, c)
  {
    if a == [] {
      assert a + b == b;
    } else {
      assert (a + b)[1..] == a[1..] + b;
      AskedConcat(a[1..], b, c);
    }
  }

  lemma {:induction false} AnsweredConcat(a: seq<Server.Snapshot>, b: seq<Server.Snapshot>, c: nat)
    ensures Answered(a + b, c) == Answered(a, c) + Answered(b, c)
  {
    if a == [] {
      assert a + b == b;
    } else {
      assert (a + b)[1..] == a[1..] + b;
      AnsweredConcat(a[1..], b, c);
    }
  }

  lemma {:induction false} RestoresConcat(a: seq<Message>, b: seq<Message>)
    ensures Restores(a + b) == Restores(a) + Restores(b)
  {
    if a == [] {
      assert a + b == b;
    } else {
      assert (a + b)[1..] == a[1..] + b;
      RestoresConcat(a[1..], b);
    }
  }

  lemma AskedOne(job: Server.Job, c: nat)
    ensures Asked([job], c) == if job.Serialise? && job.origin == Some(c) then 1 else 0
  {
    assert [job][1..] == [];
  }

  lemma ThenCounts(s: Server.Session, job: Server.Job, c: nat)
    ensures AtServer(Server.Then(s, job), c) == AtServer(s, c) + Asked([job], c)
  {
    AskedConcat(s.jobs, [job], c);
    AskedConcat(s.waiting, [job], c);
  }

  /** Serialising moves an attach from the jobs to the replies; nothing else touches the count. */
  lemma ServerCounts(s: Server.Session, e: Server.Event, c: nat)
    requires Server.Valid(s)
    ensures AtServer(Server.Step(s, e), c) == AtServer(s, c) + if e == Server.Ask(Some(c)) then 1 else 0
  {
    match e {
      case Output(data) =>
        ThenCounts(s.(chunks := s.chunks + [data]), Server.Start(|s.chunks| + 1), c);
        AskedOne(Server.Start(|s.chunks| + 1), c);
      case Ask(origin) =>
        ThenCounts(s, Server.Serialise(origin, |s.chunks|), c);
        AskedOne(Server.Serialise(origin, |s.chunks|), c);
      case Job =>
        if s.jobs != [] {
          JobCounts(s, c);
        }
      case Parsed(amount) =>
        if s.buffer != [] {
          var done := Server.Fulfil(s.buffer[0].chunk);
          AskedConcat(s.jobs, [done], c);
          AskedOne(done, c);
        }
    }
  }

  lemma JobCounts(s: Server.Session, c: nat)
    requires Server.Valid(s) && s.jobs != []
    ensures AtServer(Server.RunJob(s), c) == AtServer(s, c)
  {
    match s.jobs[0] {
      case Start(_) =>
      case Serialise(origin, target) =>
        var r := Server.Snapshot(origin, target, Server.Screen(s));
        AnsweredConcat(s.replies, [r], c);
        assert [r][1..] == [];
      case Fulfil(chunk) =>
        if Server.IsIdle(s) {
          IdleRunsNoFulfil(s);
        }
        Server.ReleaseSplits(s.waiting, s.fulfilled + 1, |s.chunks|);
        AskedConcat(s.jobs[1..], Server.Released(s.waiting, chunk), c);
        AskedConcat(Server.Released(s.waiting, chunk), Server.StillWaiting(s.waiting, chunk), c);
    }
  }

  lemma IdleRunsNoFulfil(s: Server.Session)
    requires Server.IsIdle(s) && s.jobs != []
    ensures !s.jobs[0].Fulfil?
  {
    assert (s.jobs + s.waiting)[0] == s.jobs[0];
  }

  // ---------------------------------------------------------------- connections

  predicate OriginsUpTo(s: Server.Session, connection: nat) {
    && (forall j <- s.jobs + s.waiting :: j.Serialise? && j.origin.Some? ==> j.origin.value <= connection)
    && (forall r <- s.replies :: r.origin.Some? ==> r.origin.value <= connection)
  }

  lemma ServerKeepsOrigins(s: Server.Session, e: Server.Event, connection: nat)
    requires OriginsUpTo(s, connection)
    requires e.Ask? && e.origin.Some? ==> e.origin.value <= connection
    ensures OriginsUpTo(Server.Step(s, e), connection)
  {
    if e.Job? && s.jobs != [] {
      var job := s.jobs[0];
      assert job in s.jobs + s.waiting;
      if job.Fulfil? {
        Server.ReleaseSelects(s.waiting, job.chunk);
      }
    }
  }

  lemma {:induction false} NoneAsked(jobs: seq<Server.Job>, connection: nat)
    ensures Asked(jobs, connection) == 0
        <==> forall j <- jobs :: !(j.Serialise? && j.origin == Some(connection))
  {
    if jobs != [] {
      NoneAsked(jobs[1..], connection);
      assert jobs == [jobs[0]] + jobs[1..];
    }
  }

  lemma {:induction false} NoneAnswered(replies: seq<Server.Snapshot>, connection: nat)
    ensures Answered(replies, connection) == 0 <==> forall r <- replies :: r.origin != Some(connection)
  {
    if replies != [] {
      NoneAnswered(replies[1..], connection);
      assert replies == [replies[0]] + replies[1..];
    }
  }

  lemma NewConnectionHasNone(s: Server.Session, connection: nat)
    requires OriginsUpTo(s, connection)
    ensures AtServer(s, connection + 1) == 0
  {
    assert forall j <- s.jobs :: j in s.jobs + s.waiting;
    assert forall j <- s.waiting :: j in s.jobs + s.waiting;
    NoneAsked(s.jobs, connection + 1);
    NoneAsked(s.waiting, connection + 1);
    NoneAnswered(s.replies, connection + 1);
  }

  // ---------------------------------------------------------------- the wire

  /** A frame is the chunk after the first `at`; a restore shows an exact prefix. */
  predicate Fits(m: Message, at: nat, chunks: seq<Text>) {
    match m
    case Chunk(f) => at < |chunks| && f == Frame(at + 1, chunks[at])
    case Restore(sequence, data) => at <= |chunks| && sequence <= |chunks| && data == chunks[..sequence]
  }

  function Past(m: Message, at: nat): nat {
    if m.Chunk? then at + 1 else at
  }

  predicate InOrder(wire: seq<Message>, at: nat, chunks: seq<Text>) {
    if wire == [] then at <= |chunks|
    else Fits(wire[0], at, chunks) && InOrder(wire[1..], Past(wire[0], at), chunks)
  }

  function Last(wire: seq<Message>, at: nat): nat {
    if wire == [] then at else Last(wire[1..], Past(wire[0], at))
  }

  lemma {:induction false} InOrderBound(wire: seq<Message>, at: nat, chunks: seq<Text>)
    requires InOrder(wire, at, chunks)
    ensures at <= Last(wire, at) <= |chunks|
  {
    if wire != [] {
      InOrderBound(wire[1..], Past(wire[0], at), chunks);
    }
  }

  lemma {:induction false} InOrderGrows(wire: seq<Message>, at: nat, chunks: seq<Text>, more: seq<Text>)
    requires InOrder(wire, at, chunks)
    ensures InOrder(wire, at, chunks + more)
  {
    if wire != [] {
      InOrderGrows(wire[1..], Past(wire[0], at), chunks, more);
      if wire[0].Restore? {
        assert (chunks + more)[..wire[0].sequence] == chunks[..wire[0].sequence];
      }
    }
  }

  lemma {:induction false} InOrderAppend(wire: seq<Message>, at: nat, chunks: seq<Text>, m: Message)
    requires InOrder(wire, at, chunks) && InOrder([m], Last(wire, at), chunks)
    ensures InOrder(wire + [m], at, chunks) && Last(wire + [m], at) == Last([m], Last(wire, at))
  {
    if wire == [] {
      assert wire + [m] == [m];
    } else {
      assert (wire + [m])[1..] == wire[1..] + [m];
      InOrderAppend(wire[1..], Past(wire[0], at), chunks, m);
    }
  }

  lemma InOrderOne(m: Message, at: nat, chunks: seq<Text>)
    requires Fits(m, at, chunks)
    ensures InOrder([m], at, chunks) && Last([m], at) == Past(m, at)
  {
    assert [m][1..] == [];
  }

  lemma {:induction false} InOrderPrefix(wire: seq<Message>, at: nat, chunks: seq<Text>, kept: nat)
    requires InOrder(wire, at, chunks) && kept <= |wire|
    ensures InOrder(wire[..kept], at, chunks)
  {
    InOrderBound(wire, at, chunks);
    if kept != 0 {
      assert wire[..kept][1..] == wire[1..][..kept - 1];
      InOrderPrefix(wire[1..], Past(wire[0], at), chunks, kept - 1);
    }
  }

  // ---------------------------------------------------------------- invariant

  /** The number of the last frame that arrived before this record could see any. */
  function Base(sync: Sync, delivered: nat): int {
    delivered - sync.offered
  }

  predicate Buffered(pending: seq<Frame>, at: nat, chunks: seq<Text>) {
    && at + |pending| <= |chunks|
    && forall i | 0 <= i < |pending| :: pending[i] == Frame(at + i + 1, chunks[at + i])
  }

  /** Before the first snapshot: the buffer holds the first frames offered, up to its bound. */
  predicate WaitingInv(sync: Sync, delivered: nat, chunks: seq<Text>) {
    && 0 <= Base(sync, delivered) && delivered <= |chunks|
    && |sync.pending| == (if sync.offered <= MAX_PENDING then sync.offered else MAX_PENDING)
    && Buffered(sync.pending, Base(sync, delivered), chunks)
  }

  function Max(a: nat, b: nat): nat {
    if a < b then b else a
  }

  /** The chunks shown: those of the last snapshot, those replayed over it, and those delivered since. */
  function Shown(sync: Sync, delivered: nat, chunks: seq<Text>): seq<Text>
    requires sync.snapshot <= |chunks| && sync.start <= |chunks| && sync.restored <= |chunks|
    requires sync.seen <= delivered <= |chunks|
  {
    var first, last := Max(sync.snapshot, sync.start), Max(sync.restored, sync.seen);
    chunks[..sync.snapshot] + chunks[first..Max(first, sync.restored)] + chunks[last..Max(last, delivered)]
  }

  /** After a snapshot: the screen is what is shown by the bookkeeping, and the sequence where it ends. */
  predicate AppliedInv(sync: Sync, delivered: nat, chunks: seq<Text>) {
    && sync.pending == []
    && sync.snapshot <= sync.restored <= |chunks| && sync.start <= sync.seen <= delivered <= |chunks|
    && (sync.snapshot < sync.restored ==> sync.start < sync.restored)
    && sync.sequence == (if Max(sync.restored, sync.seen) < delivered then delivered else sync.restored)
    && sync.screen == Shown(sync, delivered, chunks)
  }

  predicate ClientInv(w: World) {
    match w.client
    case Detached => true
    case Attached(sync) =>
      if sync.applied then w.link.subscribed && AppliedInv(sync, w.link.delivered, w.session.chunks)
      else WaitingInv(sync, w.link.delivered, w.session.chunks) && (!w.link.subscribed ==> sync.offered == 0)
  }

  predicate LinkInv(w: World) {
    && InOrder(w.link.wire, w.link.delivered, w.session.chunks)
    && (w.link.open && w.link.subscribed ==> Last(w.link.wire, w.link.delivered) == |w.session.chunks|)
    && (!w.link.subscribed ==> w.link.wire == [] && AtServer(w.session, w.link.connection) == 0)
  }

  /** A client that has no snapshot yet still has one coming. */
  predicate AttachInv(w: World) {
    w.client.Attached? && !w.client.sync.applied && w.link.open ==> 1 <= Outstanding(w)
  }

  ghost predicate Inv(w: World) {
    && Server.Valid(w.session) && OriginsUpTo(w.session, w.link.connection)
    && LinkInv(w) && AttachInv(w) && ClientInv(w)
  }

  // ---------------------------------------------------------------- the client keeps what it shows

  lemma BufferGrows(pending: seq<Frame>, at: nat, chunks: seq<Text>)
    requires Buffered(pending, at, chunks) && at + |pending| < |chunks|
    ensures Buffered(pending + [Frame(at + |pending| + 1, chunks[at + |pending|])], at, chunks)
  {
  }

  lemma BufferKept(pending: seq<Frame>, at: nat, chunks: seq<Text>, more: seq<Text>)
    requires Buffered(pending, at, chunks)
    ensures Buffered(pending, at, chunks + more)
  {
  }

  lemma Buffers(sync: Sync, f: Frame)
    requires !sync.applied
    ensures ApplyFrame(sync, f)
         == sync.(offered := sync.offered + 1,
                  pending := if |sync.pending| < MAX_PENDING then sync.pending + [f] else sync.pending)
  {
  }

  lemma RoomKeepsWaiting(sync: Sync, delivered: nat, chunks: seq<Text>)
    requires !sync.applied && WaitingInv(sync, delivered, chunks) && delivered < |chunks| && sync.offered < MAX_PENDING
    ensures var f := Frame(delivered + 1, chunks[delivered]);
            WaitingInv(sync.(offered := sync.offered + 1, pending := sync.pending + [f]), delivered + 1, chunks)
  {
    assert Base(sync, delivered) + |sync.pending| == delivered;
    BufferGrows(sync.pending, Base(sync, delivered), chunks);
  }

  lemma FullKeepsWaiting(sync: Sync, delivered: nat, chunks: seq<Text>)
    requires !sync.applied && WaitingInv(sync, delivered, chunks) && delivered < |chunks| && MAX_PENDING <= sync.offered
    ensures WaitingInv(sync.(offered := sync.offered + 1), delivered + 1, chunks)
  {
  }

  lemma FrameKeepsWaiting(sync: Sync, delivered: nat, chunks: seq<Text>)
    requires !sync.applied && WaitingInv(sync, delivered, chunks) && delivered < |chunks|
    ensures var sync' := ApplyFrame(sync, Frame(delivered + 1, chunks[delivered]));
            !sync'.applied && WaitingInv(sync', delivered + 1, chunks)
  {
    Buffers(sync, Frame(delivered + 1, chunks[delivered]));
    if sync.offered < MAX_PENDING {
      RoomKeepsWaiting(sync, delivered, chunks);
    } else {
      FullKeepsWaiting(sync, delivered, chunks);
    }
  }

  lemma SliceGrows(chunks: seq<Text>, from: nat, to: nat)
    requires from <= to < |chunks|
    ensures chunks[from..to + 1] == chunks[from..to] + [chunks[to]]
  {
  }

  lemma SliceKept(chunks: seq<Text>, more: seq<Text>, from: nat, to: nat)
    requires from <= to <= |chunks|
    ensures (chunks + more)[from..to] == chunks[from..to]
  {
  }

  lemma AppendLast(a: seq<Text>, b: seq<Text>, x: Text)
    ensures a + b + [x] == a + (b + [x])
  {
  }

  /** A frame beyond what is shown extends it by the next chunk; any other leaves it. */
  lemma FrameKeepsApplied(sync: Sync, delivered: nat, chunks: seq<Text>)
    requires sync.applied && AppliedInv(sync, delivered, chunks) && delivered < |chunks|
    ensures var sync' := ApplyFrame(sync, Frame(delivered + 1, chunks[delivered]));
            sync'.applied && AppliedInv(sync', delivered + 1, chunks)
  {
    var last := Max(sync.restored, sync.seen);
    if last <= delivered {
      SliceGrows(chunks, last, delivered);
      var first := Max(sync.snapshot, sync.start);
      AppendLast(chunks[..sync.snapshot] + chunks[first..Max(first, sync.restored)],
                 chunks[last..delivered], chunks[delivered]);
    }
  }

  lemma ShownKept(sync: Sync, delivered: nat, chunks: seq<Text>, more: seq<Text>)
    requires sync.snapshot <= |chunks| && sync.start <= |chunks| && sync.restored <= |chunks|
    requires sync.seen <= delivered <= |chunks|
    ensures Shown(sync, delivered, chunks + more) == Shown(sync, delivered, chunks)
  {
    var first, last := Max(sync.snapshot, sync.start), Max(sync.restored, sync.seen);
    SliceKept(chunks, more, 0, sync.snapshot);
    SliceKept(chunks, more, first, Max(first, sync.restored));
    SliceKept(chunks, more, last, Max(last, delivered));
  }

  lemma OutputKeepsSync(sync: Sync, delivered: nat, chunks: seq<Text>, more: seq<Text>)
    ensures WaitingInv(sync, delivered, chunks) ==> WaitingInv(sync, delivered, chunks + more)
    ensures AppliedInv(sync, delivered, chunks) ==> AppliedInv(sync, delivered, chunks + more)
  {
    if WaitingInv(sync, delivered, chunks) {
      BufferKept(sync.pending, Base(sync, delivered), chunks, more);
    }
    if AppliedInv(sync, delivered, chunks) {
      ShownKept(sync, delivered, chunks, more);
    }
  }

  /** Replaying the buffer writes exactly its frames beyond the snapshot, in order. */
  lemma {:induction false} ReplayContinues(sync: Sync, pending: seq<Frame>, at: nat, chunks: seq<Text>)
    requires Buffered(pending, at, chunks) && sync.sequence <= |chunks|
    ensures var first, end := Max(sync.sequence, at), at + |pending|;
            Replay(sync, pending)
            == sync.(sequence := if first < end then end else sync.sequence,
                     screen := sync.screen + chunks[first..Max(first, end)])
    decreases pending
  {
    if pending == [] {
      assert sync.screen + [] == sync.screen;
    } else {
      var f := pending[0];
      assert f == Frame(at + 0 + 1, chunks[at + 0]);
      ReplayContinues(WriteFrame(sync, f), pending[1..], at + 1, chunks);
      if sync.sequence <= at {
        FirstThenRest(sync.screen, chunks, at, at + |pending|);
      }
    }
  }

  lemma FirstThenRest(screen: seq<Text>, chunks: seq<Text>, from: nat, to: nat)
    requires from < to <= |chunks|
    ensures screen + [chunks[from]] + chunks[from + 1..to] == screen + chunks[from..to]
  {
  }

  /** A snapshot, whether it is the first or not and however old it is. */
  lemma SnapshotApplies(sync: Sync, number: nat, delivered: nat, chunks: seq<Text>)
    requires number <= |chunks|
    requires if sync.applied then AppliedInv(sync, delivered, chunks) else WaitingInv(sync, delivered, chunks)
    ensures var sync' := ApplySnapshot(sync, number, chunks[..number], delivered);
            && sync'.applied && AppliedInv(sync', delivered, chunks)
            && sync'.snapshot == number && sync'.seen == delivered
            && sync'.start == (if sync.applied then delivered else Base(sync, delivered))
  {
    var at := if sync.applied then delivered else Base(sync, delivered);
    var before := sync.(sequence := number, applied := true, screen := chunks[..number]);
    ReplayContinues(before, sync.pending, at, chunks);
    var sync' := ApplySnapshot(sync, number, chunks[..number], delivered);
    var first, last := Max(number, at), Max(sync'.restored, delivered);
    assert sync'.screen == chunks[..number] + chunks[first..Max(first, sync'.restored)];
    assert chunks[last..Max(last, delivered)] == [];
    assert sync'.screen + [] == sync'.screen;
  }

  // ---------------------------------------------------------------- moves

  function ServerEvent(w: World, move: Move): Option<Server.Event> {
    match move
    case Output(data) => Some(Server.Output(data))
    case RunsJob => Some(Server.Job)
    case Parses(amount) => Some(Server.Parsed(amount))
    case AsksElsewhere => Some(Server.Ask(None))
    case _ => None
  }

  lemma ServerOnlyAdds(s: Server.Session, e: Server.Event)
    ensures Server.Step(s, e).chunks == s.chunks + (if e.Output? then [e.data] else [])
  {
  }

  lemma SentKeepsLink(w: World, w': World, more: seq<Text>)
    requires LinkInv(w) && |more| <= 1
    requires AtServer(w'.session, w.link.connection) == AtServer(w.session, w.link.connection)
    requires w'.session.chunks == w.session.chunks + more
    requires w'.link == if more != [] && w.link.open && w.link.subscribed
                        then w.link.(wire := w.link.wire + [Chunk(Frame(|w'.session.chunks|, more[0]))]) else w.link
    ensures LinkInv(w') && Restores(w'.link.wire) == Restores(w.link.wire)
  {
    var chunks := w'.session.chunks;
    InOrderGrows(w.link.wire, w.link.delivered, w.session.chunks, more);
    if w'.link != w.link {
      var sent := Chunk(Frame(|chunks|, more[0]));
      InOrderOne(sent, |w.session.chunks|, chunks);
      InOrderAppend(w.link.wire, w.link.delivered, chunks, sent);
      RestoresConcat(w.link.wire, [sent]);
      assert [sent][1..] == [];
    }
  }

  /** Moves of the server alone: only the session changes, and output is also sent. */
  lemma ServerMoveKeepsInv(w: World, move: Move)
    requires Inv(w) && ServerEvent(w, move).Some?
    ensures Inv(Next(w, move))
  {
    var w', e := Next(w, move), ServerEvent(w, move).value;
    var more: seq<Text> := if e.Output? then [e.data] else [];
    Server.StepKeepsValid(w.session, e);
    ServerKeepsOrigins(w.session, e, w.link.connection);
    ServerCounts(w.session, e, w.link.connection);
    ServerOnlyAdds(w.session, e);
    SentKeepsLink(w, w', more);
    OutputKeepsClient(w, w', more);
  }

  lemma OutputKeepsClient(w: World, w': World, more: seq<Text>)
    requires ClientInv(w) && w'.client == w.client && w'.session.chunks == w.session.chunks + more
    requires w'.link.subscribed == w.link.subscribed && w'.link.delivered == w.link.delivered
    ensures ClientInv(w')
  {
    if w.client.Attached? {
      OutputKeepsSync(w.client.sync, w.link.delivered, w.session.chunks, more);
    }
  }

  /** The hub starts sending frames: the next one is the next chunk. */
  lemma SubscribeKeeps(w: World)
    requires Inv(w)
    ensures Inv(w.(link := Subscribed(w.link, |w.session.chunks|)))
  {
    InOrderBound(w.link.wire, w.link.delivered, w.session.chunks);
  }

  lemma AttachKeepsInv(w: World)
    requires Inv(w) && w.link.open && 0 < w.link.requests && w.link.subscribed
    ensures Inv(Next(w, HandlesAttach))
  {
    var c, e := w.link.connection, Server.Ask(Some(w.link.connection));
    assert Server.AskSnapshot(w.session, Some(c)) == Server.Step(w.session, e);
    Server.StepKeepsValid(w.session, e);
    ServerKeepsOrigins(w.session, e, c);
    ServerCounts(w.session, e, c);
    ServerOnlyAdds(w.session, e);
    assert Next(w, HandlesAttach).session.chunks == w.session.chunks;
  }

  lemma HandlesAttachKeepsInv(w: World)
    requires Inv(w)
    ensures Inv(Next(w, HandlesAttach))
  {
    if w.link.open && 0 < w.link.requests {
      SubscribeKeeps(w);
      var subscribed := w.(link := Subscribed(w.link, |w.session.chunks|));
      AttachKeepsInv(subscribed);
      assert Next(w, HandlesAttach) == Next(subscribed, HandlesAttach);
    }
  }

  lemma RemoveReply(replies: seq<Server.Snapshot>, index: nat, c: nat)
    requires index < |replies|
    ensures Answered(replies, c)
         == Answered(replies[..index] + replies[index + 1..], c) + if replies[index].origin == Some(c) then 1 else 0
  {
    var front, r, back := replies[..index], replies[index], replies[index + 1..];
    assert replies == front + ([r] + back);
    AnsweredConcat(front, [r] + back, c);
    AnsweredConcat(front, back, c);
  }

  lemma SendKeepsLink(w: World, index: nat)
    requires Inv(w) && index < |w.session.replies|
    ensures LinkInv(Next(w, Sends(index)))
    ensures Outstanding(Next(w, Sends(index))) <= Outstanding(w)
    ensures w.link.open ==> Outstanding(Next(w, Sends(index))) == Outstanding(w)
  {
    var r, c, chunks := w.session.replies[index], w.link.connection, w.session.chunks;
    RemoveReply(w.session.replies, index, c);
    if w.link.open && r.origin == Some(c) {
      var sent := Restore(r.sequence, r.data);
      assert r in w.session.replies && Server.IsExact(r, chunks);
      InOrderBound(w.link.wire, w.link.delivered, chunks);
      InOrderOne(sent, Last(w.link.wire, w.link.delivered), chunks);
      InOrderAppend(w.link.wire, w.link.delivered, chunks, sent);
      RestoresConcat(w.link.wire, [sent]);
      assert [sent][1..] == [];
    }
  }

  lemma FewerReplies(s: Server.Session, index: nat, c: nat)
    requires Server.Valid(s) && OriginsUpTo(s, c) && index < |s.replies|
    ensures var s' := s.(replies := s.replies[..index] + s.replies[index + 1..]);
            Server.Valid(s') && OriginsUpTo(s', c)
  {
    var s' := s.(replies := s.replies[..index] + s.replies[index + 1..]);
    assert forall r <- s'.replies :: r in s.replies;
  }

  lemma SendsKeepsInv(w: World, index: nat)
    requires Inv(w) && index < |w.session.replies|
    ensures Inv(Next(w, Sends(index)))
  {
    SendKeepsLink(w, index);
    FewerReplies(w.session, index, w.link.connection);
  }

  lemma SelectsKeepsInv(w: World)
    requires Inv(w)
    ensures Inv(Next(w, Selects))
  {
    InOrderBound(w.link.wire, w.link.delivered, w.session.chunks);
  }

  lemma ClosesKeepsInv(w: World, kept: nat)
    requires Inv(w) && kept <= |w.link.wire|
    ensures Inv(Next(w, Closes(kept)))
  {
    InOrderPrefix(w.link.wire, w.link.delivered, w.session.chunks, kept);
  }

  lemma ReconnectsKeepsInv(w: World)
    requires Inv(w)
    ensures Inv(Next(w, Reconnects))
  {
    NewConnectionHasNone(w.session, w.link.connection);
  }

  predicate SyncInv(sync: Sync, delivered: nat, chunks: seq<Text>) {
    if sync.applied then AppliedInv(sync, delivered, chunks) else WaitingInv(sync, delivered, chunks)
  }

  lemma FrameKeepsSync(sync: Sync, delivered: nat, chunks: seq<Text>)
    requires SyncInv(sync, delivered, chunks) && delivered < |chunks|
    ensures var sync' := ApplyFrame(sync, Frame(delivered + 1, chunks[delivered]));
            sync'.applied == sync.applied && SyncInv(sync', delivered + 1, chunks)
  {
    if sync.applied {
      FrameKeepsApplied(sync, delivered, chunks);
    } else {
      FrameKeepsWaiting(sync, delivered, chunks);
    }
  }

  lemma FrameKeepsClient(w: World)
    requires ClientInv(w) && w.client.Attached? && w.link.subscribed && w.link.wire != [] && w.link.wire[0].Chunk?
    requires Fits(w.link.wire[0], w.link.delivered, w.session.chunks)
    ensures ClientInv(Next(w, Delivers)) && Next(w, Delivers).client.Attached?
    ensures Next(w, Delivers).client.sync.applied == w.client.sync.applied
  {
    ReceivesFrame(w);
    FrameKeepsSync(w.client.sync, w.link.delivered, w.session.chunks);
  }

  lemma ReceivesRestore(w: World)
    requires w.client.Attached? && w.link.wire != [] && w.link.wire[0].Restore?
    requires Fits(w.link.wire[0], w.link.delivered, w.session.chunks)
    ensures var w', number, chunks := Next(w, Delivers), w.link.wire[0].sequence, w.session.chunks;
            && number <= |chunks|
            && w'.client == Attached(ApplySnapshot(w.client.sync, number, chunks[..number], w.link.delivered))
            && w'.link == w.link.(wire := w.link.wire[1..]) && w'.session == w.session
  {
  }

  lemma RestoreKeepsClient(w: World)
    requires ClientInv(w) && w.client.Attached? && w.link.subscribed && w.link.wire != [] && w.link.wire[0].Restore?
    requires Fits(w.link.wire[0], w.link.delivered, w.session.chunks)
    ensures ClientInv(Next(w, Delivers)) && Next(w, Delivers).client.Attached?
    ensures Next(w, Delivers).client.sync.applied
  {
    ReceivesRestore(w);
    SnapshotApplies(w.client.sync, w.link.wire[0].sequence, w.link.delivered, w.session.chunks);
  }

  lemma ReceivesFrame(w: World)
    requires w.client.Attached? && w.link.wire != [] && w.link.wire[0].Chunk?
    requires Fits(w.link.wire[0], w.link.delivered, w.session.chunks)
    ensures var w', delivered, chunks := Next(w, Delivers), w.link.delivered, w.session.chunks;
            && w'.client == Attached(ApplyFrame(w.client.sync, Frame(delivered + 1, chunks[delivered])))
            && w'.link == w.link.(wire := w.link.wire[1..], delivered := delivered + 1) && w'.session == w.session
  {
  }

  lemma DeliversKeepsInv(w: World)
    requires Inv(w) && w.link.wire != []
    ensures Inv(Next(w, Delivers))
  {
    if w.client.Attached? {
      if w.link.wire[0].Chunk? {
        FrameKeepsClient(w);
      } else {
        RestoreKeepsClient(w);
      }
    }
  }

  // ---------------------------------------------------------------- runs

  lemma NextKeepsInv(w: World, move: Move)
    requires Inv(w)
    ensures Inv(Next(w, move))
  {
    match move {
      case Output(_) => ServerMoveKeepsInv(w, move);
      case RunsJob => ServerMoveKeepsInv(w, move);
      case Parses(_) => ServerMoveKeepsInv(w, move);
      case AsksElsewhere => ServerMoveKeepsInv(w, move);
      case Subscribes => SubscribeKeeps(w);
      case HandlesAttach => HandlesAttachKeepsInv(w);
      case Sends(index) => if index < |w.session.replies| { SendsKeepsInv(w, index); }
      case Delivers => if w.link.wire != [] { DeliversKeepsInv(w); }
      case Selects => SelectsKeepsInv(w);
      case Deselects =>
      case Closes(kept) => if kept <= |w.link.wire| { ClosesKeepsInv(w, kept); }
      case Reconnects => ReconnectsKeepsInv(w);
    }
  }

  function Run(w: World, moves: seq<Move>): World
    decreases |moves|
  {
    if moves == [] then w else Run(Next(w, moves[0]), moves[1..])
  }

  function Start(): World {
    World(Server.Opened(), Link(0, true, false, 0, [], 0), Detached)
  }

  lemma {:induction false} RunKeepsInv(w: World, moves: seq<Move>)
    requires Inv(w)
    ensures Inv(Run(w, moves))
    decreases |moves|
  {
    if moves != [] {
      NextKeepsInv(w, moves[0]);
      RunKeepsInv(Next(w, moves[0]), moves[1..]);
    }
  }

  lemma OpenedIsValid()
    ensures Server.Valid(Server.Opened())
  {
    var s := Server.Opened();
    assert s.jobs + s.waiting == [];
    assert Server.IsIdle(s);
  }

  lemma UntouchedInv(w: World)
    requires Server.Valid(w.session) && w.session.jobs == [] && w.session.waiting == [] && w.session.replies == []
    requires w.link.wire == [] && w.link.requests == 0 && !w.link.subscribed && w.link.delivered == 0
    requires w.client.Detached?
    ensures Inv(w)
  {
  }

  lemma StartInv()
    ensures Inv(Start())
  {
    OpenedIsValid();
    var w := Start();
    UntouchedInv(w);
  }

  ghost predicate Reachable(w: World) {
    exists moves :: w == Run(Start(), moves)
  }

  lemma ReachableInv(w: World)
    requires Reachable(w)
    ensures Inv(w)
  {
    var moves :| w == Run(Start(), moves);
    StartInv();
    RunKeepsInv(Start(), moves);
  }

  // ---------------------------------------------------------------- the mirror

  /** The client shows exactly the first n chunks of output. */
  predicate Shows(sync: Sync, n: nat, chunks: seq<Text>) {
    n <= |chunks| && sync.screen == chunks[..n]
  }

  /** The replay over the snapshot did not start where the snapshot ends: it was older than the record. */
  predicate Jumped(sync: Sync) {
    sync.snapshot < sync.start && sync.snapshot < sync.restored
  }

  /** A frame beyond what was restored had been delivered by then, and will not come again. */
  predicate Behind(sync: Sync) {
    sync.restored < sync.seen
  }

  lemma Joins(chunks: seq<Text>, a: nat, b: nat)
    requires a <= b <= |chunks|
    ensures chunks[..a] + chunks[a..b] == chunks[..b]
  {
  }

  lemma GaplessShown(sync: Sync, delivered: nat, chunks: seq<Text>)
    requires AppliedInv(sync, delivered, chunks) && !Jumped(sync)
    ensures !Behind(sync) ==> sync.screen == chunks[..Max(sync.restored, delivered)]
    ensures sync.sequence == sync.restored ==> sync.screen == chunks[..sync.restored]
  {
    var first, last := Max(sync.snapshot, sync.start), Max(sync.restored, sync.seen);
    if sync.snapshot < sync.restored {
      Joins(chunks, sync.snapshot, sync.restored);
    } else {
      assert chunks[first..Max(first, sync.restored)] == [];
    }
    assert chunks[..sync.snapshot] + chunks[first..Max(first, sync.restored)] == chunks[..sync.restored];
    if !Behind(sync) {
      Joins(chunks, sync.restored, Max(sync.restored, delivered));
    } else if sync.sequence == sync.restored {
      assert chunks[last..Max(last, delivered)] == [];
      assert chunks[..sync.restored] + [] == chunks[..sync.restored];
    }
  }

  lemma ShownLength(sync: Sync, delivered: nat, chunks: seq<Text>)
    requires AppliedInv(sync, delivered, chunks)
    ensures |sync.screen| <= sync.sequence && (Jumped(sync) ==> |sync.screen| < sync.sequence)
    ensures Behind(sync) && sync.sequence != sync.restored ==> |sync.screen| < sync.sequence
    ensures Behind(sync) ==> |sync.screen| < delivered
    ensures Jumped(sync) ==> |sync.screen| < Max(sync.restored, delivered)
  {
  }

  lemma AppliedIsExact(sync: Sync, delivered: nat, chunks: seq<Text>)
    requires AppliedInv(sync, delivered, chunks)
    ensures Shows(sync, sync.sequence, chunks)
       <==> !Jumped(sync) && (!Behind(sync) || sync.sequence == sync.restored)
    ensures delivered == |chunks| ==> (sync.screen == chunks <==> !Jumped(sync) && !Behind(sync))
  {
    ShownLength(sync, delivered, chunks);
    if !Jumped(sync) {
      GaplessShown(sync, delivered, chunks);
    }
  }

  /**
  The terminal mirror, for every interleaving of output, promise jobs, parsing, attaches, sends, deliveries,
  closes and reconnects, with any number of attaches outstanding: the screen is exactly the chunks up to the
  recorded sequence, none lost, repeated or reordered, if and only if the last snapshot neither began a replay
  that jumps nor was behind what had been delivered by then, or nothing has been written since.
  */
  lemma MirrorIsExact(w: World, sync: Sync)
    requires Reachable(w) && w.client == Attached(sync) && sync.applied
    ensures AppliedInv(sync, w.link.delivered, w.session.chunks)
    ensures Shows(sync, sync.sequence, w.session.chunks)
       <==> !Jumped(sync) && (!Behind(sync) || sync.sequence == sync.restored)
  {
    ReachableInv(w);
    AppliedIsExact(sync, w.link.delivered, w.session.chunks);
  }

  /** A snapshot over one applied already leaves no gap exactly when no frame beyond it has been delivered. */
  lemma LaterSnapshotIff(w: World, sync: Sync)
    requires Reachable(w) && w.client == Attached(sync) && sync.applied
    requires w.link.wire != [] && w.link.wire[0].Restore?
    ensures var client := Next(w, Delivers).client;
            && client.Attached? && client.sync.applied
            && (!Jumped(client.sync) && !Behind(client.sync) <==> w.link.delivered <= w.link.wire[0].sequence)
  {
    ReachableInv(w);
    SnapshotApplies(sync, w.link.wire[0].sequence, w.link.delivered, w.session.chunks);
  }

  /**
  The first snapshot of a record leaves no gap exactly when it is not older than the record and the buffer
  dropped no frame beyond it.
  */
  lemma FirstSnapshotIff(w: World, sync: Sync)
    requires Reachable(w) && w.client == Attached(sync) && !sync.applied
    requires w.link.wire != [] && w.link.wire[0].Restore?
    ensures var client, number := Next(w, Delivers).client, w.link.wire[0].sequence;
            && client.Attached? && client.sync.applied && sync.offered <= w.link.delivered
            && (!Jumped(client.sync) && !Behind(client.sync)
                <==> w.link.delivered - sync.offered <= number
                     && (sync.offered <= MAX_PENDING || w.link.delivered <= number))
  {
    ReachableInv(w);
    FirstRestores(sync, w.link.wire[0].sequence, w.link.delivered, w.session.chunks);
  }

  lemma FirstRestores(sync: Sync, number: nat, delivered: nat, chunks: seq<Text>)
    requires !sync.applied && WaitingInv(sync, delivered, chunks) && number <= |chunks|
    ensures var sync' := ApplySnapshot(sync, number, chunks[..number], delivered);
            && sync'.applied && sync'.offered == sync.offered && sync'.snapshot == number && sync'.seen == delivered
            && sync'.start == Base(sync, delivered)
            && (!Jumped(sync') && !Behind(sync')
                <==> delivered - sync.offered <= number && (sync.offered <= MAX_PENDING || delivered <= number))
  {
    var before := sync.(sequence := number, applied := true, screen := chunks[..number]);
    ReplayContinues(before, sync.pending, Base(sync, delivered), chunks);
  }

  /** Nothing is left to do: no job, no parsing, no message under way for this client. */
  predicate Settled(w: World) {
    && Server.Quiet(w.session) && w.session.replies == []
    && w.link.open && w.link.requests == 0 && w.link.wire == []
  }

  lemma SettledHasNoAttach(w: World)
    requires Inv(w) && Settled(w)
    ensures Outstanding(w) == 0 && w.session.terminal == w.session.chunks
    ensures w.link.subscribed ==> w.link.delivered == |w.session.chunks|
  {
    Server.QuietIsComplete(w.session);
  }

  lemma SettledClient(w: World, sync: Sync)
    requires Inv(w) && Settled(w) && w.client == Attached(sync)
    ensures sync.applied && AppliedInv(sync, |w.session.chunks|, w.session.chunks)
  {
    SettledHasNoAttach(w);
  }

  /** Once everything has settled, an attached client has a snapshot, and shows all output exactly when the last one left no gap. */
  lemma MirrorCatchesUp(w: World, sync: Sync)
    requires Reachable(w) && Settled(w) && w.client == Attached(sync)
    ensures sync.applied && w.session.terminal == w.session.chunks
    ensures sync.screen == w.session.chunks <==> !Jumped(sync) && !Behind(sync)
  {
    ReachableInv(w);
    SettledClient(w, sync);
    SettledHasNoAttach(w);
    AppliedIsExact(sync, |w.session.chunks|, w.session.chunks);
  }

  // ---------------------------------------------------------------- the text on the screen

  function OutputsOf(moves: seq<Move>): seq<Text>
    decreases |moves|
  {
    if moves == [] then []
    else (if moves[0].Output? then [moves[0].data] else []) + OutputsOf(moves[1..])
  }

  lemma NextCollects(w: World, move: Move)
    ensures Next(w, move).session.chunks == w.session.chunks + (if move.Output? then [move.data] else [])
  {
  }

  lemma {:induction false} RunCollects(w: World, moves: seq<Move>)
    ensures Run(w, moves).session.chunks == w.session.chunks + OutputsOf(moves)
    decreases |moves|
  {
    if moves != [] {
      var first: seq<Text> := if moves[0].Output? then [moves[0].data] else [];
      NextCollects(w, moves[0]);
      RunCollects(Next(w, moves[0]), moves[1..]);
      AppendAssociates(w.session.chunks, first, OutputsOf(moves[1..]));
    } else {
      assert w.session.chunks + [] == w.session.chunks;
    }
  }

  lemma {:induction false} JoinedConcat<T>(a: seq<seq<T>>, b: seq<seq<T>>)
    ensures Joined(a + b) == Joined(a) + Joined(b)
    decreases |b|
  {
    if b == [] {
      assert a + b == a && Joined(a) + [] == Joined(a);
    } else {
      var n := |b| - 1;
      assert a + b == (a + b[..n]) + [b[n]];
      JoinedConcat(a, b[..n]);
      JoinedAppend(a + b[..n], b[n]);
      AppendAssociates(Joined(a), Joined(b[..n]), b[n]);
    }
  }

  /** Each PTY event arrives as the frames it is cut into, one after another. */
  predicate CutFrom(splits: seq<seq<Text>>, outputs: seq<Text>) {
    |splits| == |outputs| && forall i | 0 <= i < |splits| :: WellSplit(splits[i]) && Joined(splits[i]) == outputs[i]
  }

  lemma {:induction false} JoinedCuts(splits: seq<seq<Text>>, outputs: seq<Text>)
    requires CutFrom(splits, outputs)
    ensures Joined(Joined(splits)) == Joined(outputs)
  {
    if splits != [] {
      var n := |splits| - 1;
      JoinedCuts(splits[..n], outputs[..n]);
      JoinedConcat(Joined(splits[..n]), splits[n]);
    }
  }

  lemma JoinedPrefix(chunks: seq<Text>, n: nat)
    requires n <= |chunks|
    ensures Joined(chunks[..n]) <= Joined(chunks)
  {
    assert chunks == chunks[..n] + chunks[n..];
    JoinedConcat(chunks[..n], chunks[n..]);
  }

  /**
  From the PTY to the screen: while the last snapshot left no gap, the text on the client's screen is a prefix of
  all PTY output, whatever frames it was cut into, and all of it once everything has settled.
  */
  lemma ScreenIsOutput(moves: seq<Move>, sync: Sync, splits: seq<seq<Text>>, outputs: seq<Text>)
    requires OutputsOf(moves) == Joined(splits) && CutFrom(splits, outputs)
    requires Run(Start(), moves).client == Attached(sync) && sync.applied && !Jumped(sync) && !Behind(sync)
    ensures Joined(sync.screen) <= Joined(outputs)
    ensures Settled(Run(Start(), moves)) ==> Joined(sync.screen) == Joined(outputs)
  {
    var w := Run(Start(), moves);
    RunCollects(Start(), moves);
    assert w.session.chunks == [] + OutputsOf(moves) == Joined(splits);
    JoinedCuts(splits, outputs);
    assert Reachable(w);
    MirrorIsExact(w, sync);
    JoinedPrefix(w.session.chunks, sync.sequence);
    if Settled(w) {
      MirrorCatchesUp(w, sync);
    }
  }

  // ---------------------------------------------------------------- the client's record, updated in place

  class TerminalSync {
    var sequence: nat
    var snapshotApplied: bool
    var pending: seq<Frame>
    var screen: seq<Text>
    ghost var offered: nat
    ghost var snapshot: nat
    ghost var start: nat
    ghost var restored: nat
    ghost var seen: nat

    ghost function State(): Sync
      reads this
    {
      Sync(sequence, snapshotApplied, pending, screen, offered, snapshot, start, restored, seen)
    }

    constructor ()
      ensures State() == NewSync()
    {
      sequence, snapshotApplied, pending, screen := 0, false, [], [];
      offered, snapshot, start, restored, seen := 0, 0, 0, 0, 0;
    }

    method ApplyTerminalFrame(f: Frame)
      modifies this
      ensures State() == ApplyFrame(old(State()), f)
    {
      if !snapshotApplied {
        if |pending| < MAX_PENDING {
          pending := pending + [f];
        }
        offered := offered + 1;
        return;
      }
      if f.number <= sequence {
        return;
      }
      screen := screen + [f.data];
      sequence := f.number;
    }

    method ApplyTerminalSnapshot(number: nat, data: seq<Text>, ghost delivered: nat)
      modifies this
      ensures State() == ApplySnapshot(old(State()), number, data, delivered)
    {
      ghost var from := if snapshotApplied || delivered < offered then delivered else delivered - offered;
      sequence, snapshotApplied, screen := number, true, data;
      ghost var before := State();
      var i := 0;
      while i < |pending|
        invariant 0 <= i <= |pending| && pending == before.pending
        invariant Replay(before, pending) == Replay(State(), pending[i..])
      {
        var f := pending[i];
        assert pending[i..][0] == f && pending[i..][1..] == pending[i + 1..];
        if sequence < f.number {
          screen := screen + [f.data];
          sequence := f.number;
        }
        i := i + 1;
      }
      pending, snapshot, start, restored, seen := [], number, from, sequence, delivered;
    }
  }
}
