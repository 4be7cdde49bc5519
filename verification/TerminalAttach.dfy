/**
One outstanding attach: the client creates a record only when no earlier attach of the connection is still to be
answered. Then no snapshot is older than its record or comes twice, and only a full buffer can lose a frame.
*/
module TerminalAttach {
  import opened Options
  import opened TerminalSplit
  import opened TerminalMirror
  import Server = TerminalSession

  // ---------------------------------------------------------------- what outstanding snapshots show

  /** Every outstanding snapshot of this connection is numbered at least floor. */
  predicate Above(s: Server.Session, connection: nat, floor: int) {
    && (forall j <- s.jobs + s.waiting :: j.Serialise? && j.origin == Some(connection) ==> floor <= j.target)
    && (forall r <- s.replies :: r.origin == Some(connection) ==> floor <= r.sequence)
  }

  predicate WireAbove(wire: seq<Message>, floor: int) {
    forall m <- wire :: m.Restore? ==> floor <= m.sequence
  }

  lemma ServerKeepsAbove(s: Server.Session, e: Server.Event, connection: nat, floor: int)
    requires Above(s, connection, floor)
    requires e == Server.Ask(Some(connection)) ==> floor <= |s.chunks|
    ensures Above(Server.Step(s, e), connection, floor)
  {
    if e.Job? && s.jobs != [] {
      var job := s.jobs[0];
      assert job in s.jobs + s.waiting;
      if job.Fulfil? {
        Server.ReleaseSelects(s.waiting, job.chunk);
      }
    }
  }

  lemma {:induction false} NoneOnWire(wire: seq<Message>, floor: int)
    requires Restores(wire) == 0
    ensures WireAbove(wire, floor)
  {
    if wire != [] {
      NoneOnWire(wire[1..], floor);
      assert wire == [wire[0]] + wire[1..];
    }
  }

  lemma NoneOutstandingAbove(s: Server.Session, connection: nat, floor: int)
    requires AtServer(s, connection) == 0
    ensures Above(s, connection, floor)
  {
    NoneAsked(s.jobs, connection);
    NoneAsked(s.waiting, connection);
    NoneAnswered(s.replies, connection);
  }

  // ---------------------------------------------------------------- invariant

  /** A frame beyond the snapshot was dropped because the buffer was full. */
  predicate Overflowed(sync: Sync) {
    MAX_PENDING < sync.offered && sync.snapshot < sync.seen
  }

  /** Everything on its way to a record that waits is at least as new as the record. */
  predicate FloorInv(w: World, sync: Sync) {
    && Above(w.session, w.link.connection, Base(sync, w.link.delivered))
    && WireAbove(w.link.wire, Base(sync, w.link.delivered))
  }

  predicate CarefulInv(w: World) {
    && Outstanding(w) <= 1
    && (w.client.Attached? ==>
          var sync := w.client.sync;
          if sync.applied then Outstanding(w) == 0 && !Jumped(sync) && (Behind(sync) <==> Overflowed(sync))
          else FloorInv(w, sync))
  }

  ghost predicate CarefulWorld(w: World) {
    Inv(w) && CarefulInv(w)
  }

  /** A record is only created when no earlier attach of the connection is still to be answered. */
  predicate Careful(w: World, move: Move) {
    move.Selects? ==> Outstanding(w) == 0
  }

  predicate CarefulRun(w: World, moves: seq<Move>)
    decreases |moves|
  {
    moves == [] || (Careful(w, moves[0]) && CarefulRun(Next(w, moves[0]), moves[1..]))
  }

  // ---------------------------------------------------------------- moves

  lemma SentKeepsFloor(w: World, w': World, more: seq<Text>, floor: int)
    requires WireAbove(w.link.wire, floor)
    requires w'.link.wire == w.link.wire
          || (more != [] && w'.link.wire == w.link.wire + [Chunk(Frame(|w'.session.chunks|, more[0]))])
    ensures WireAbove(w'.link.wire, floor)
  {
  }

  lemma SentRestores(w: World, move: Move)
    requires ServerEvent(w, move).Some?
    ensures var w' := Next(w, move);
            && Restores(w'.link.wire) == Restores(w.link.wire) && w'.link == w.link.(wire := w'.link.wire)
            && w'.client == w.client && w'.session == Server.Step(w.session, ServerEvent(w, move).value)
            && forall floor :: WireAbove(w.link.wire, floor) ==> WireAbove(w'.link.wire, floor)
  {
    var w' := Next(w, move);
    if w'.link.wire != w.link.wire {
      var sent := w'.link.wire[|w.link.wire|];
      assert w'.link.wire == w.link.wire + [sent] && sent.Chunk?;
      RestoresConcat(w.link.wire, [sent]);
      assert [sent][1..] == [];
    }
  }

  lemma ServerMoveKeepsCareful(w: World, move: Move)
    requires CarefulWorld(w) && ServerEvent(w, move).Some?
    ensures CarefulInv(Next(w, move))
  {
    var e, c := ServerEvent(w, move).value, w.link.connection;
    ServerCounts(w.session, e, c);
    SentRestores(w, move);
    if w.client.Attached? && !w.client.sync.applied {
      ServerKeepsAbove(w.session, e, c, Base(w.client.sync, w.link.delivered));
    }
  }

  lemma SubscribeKeepsCareful(w: World)
    requires CarefulWorld(w)
    ensures CarefulInv(w.(link := Subscribed(w.link, |w.session.chunks|)))
  {
    if !w.link.subscribed && w.client.Attached? {
      NoneOutstandingAbove(w.session, w.link.connection, |w.session.chunks|);
    }
  }

  lemma AttachKeepsCareful(w: World)
    requires CarefulWorld(w) && w.link.open && 0 < w.link.requests && w.link.subscribed
    ensures CarefulInv(Next(w, HandlesAttach))
  {
    var c, e := w.link.connection, Server.Ask(Some(w.link.connection));
    assert Server.AskSnapshot(w.session, Some(c)) == Server.Step(w.session, e);
    ServerCounts(w.session, e, c);
    InOrderBound(w.link.wire, w.link.delivered, w.session.chunks);
    if w.client.Attached? && !w.client.sync.applied {
      ServerKeepsAbove(w.session, e, c, Base(w.client.sync, w.link.delivered));
    }
  }

  lemma HandlesAttachKeepsCareful(w: World)
    requires CarefulWorld(w)
    ensures CarefulInv(Next(w, HandlesAttach))
  {
    if w.link.open && 0 < w.link.requests {
      SubscribeKeeps(w);
      SubscribeKeepsCareful(w);
      var subscribed := w.(link := Subscribed(w.link, |w.session.chunks|));
      AttachKeepsCareful(subscribed);
      assert Next(w, HandlesAttach) == Next(subscribed, HandlesAttach);
    }
  }

  lemma SendsKeepsFloor(w: World, index: nat, floor: int)
    requires index < |w.session.replies|
    requires Above(w.session, w.link.connection, floor) && WireAbove(w.link.wire, floor)
    ensures var w' := Next(w, Sends(index));
            Above(w'.session, w.link.connection, floor) && WireAbove(w'.link.wire, floor)
  {
    var w', replies := Next(w, Sends(index)), w.session.replies;
    assert replies[index] in replies && forall r <- w'.session.replies :: r in replies;
  }

  lemma SendsKeepsCareful(w: World, index: nat)
    requires CarefulWorld(w) && index < |w.session.replies|
    ensures CarefulInv(Next(w, Sends(index)))
  {
    SendKeepsLink(w, index);
    if w.client.Attached? && !w.client.sync.applied {
      SendsKeepsFloor(w, index, Base(w.client.sync, w.link.delivered));
    }
  }

  lemma SelectsKeepsCareful(w: World)
    requires CarefulWorld(w) && Outstanding(w) == 0
    ensures CarefulInv(Next(w, Selects))
  {
    NoneOutstandingAbove(w.session, w.link.connection, w.link.delivered);
    NoneOnWire(w.link.wire, w.link.delivered);
  }

  lemma RestoresPrefix(wire: seq<Message>, kept: nat)
    requires kept <= |wire|
    ensures Restores(wire[..kept]) <= Restores(wire)
  {
    assert wire == wire[..kept] + wire[kept..];
    RestoresConcat(wire[..kept], wire[kept..]);
  }

  lemma ClosesKeepsCareful(w: World, kept: nat)
    requires CarefulWorld(w) && kept <= |w.link.wire|
    ensures CarefulInv(Next(w, Closes(kept)))
  {
    RestoresPrefix(w.link.wire, kept);
    assert forall m <- w.link.wire[..kept] :: m in w.link.wire;
  }

  lemma ReconnectsKeepsCareful(w: World)
    requires CarefulWorld(w)
    ensures CarefulInv(Next(w, Reconnects))
  {
    NewConnectionHasNone(w.session, w.link.connection);
  }

  lemma FrameKeepsCareful(w: World)
    requires CarefulWorld(w) && w.link.wire != [] && w.link.wire[0].Chunk?
    ensures CarefulInv(Next(w, Delivers))
  {
    assert forall m <- w.link.wire[1..] :: m in w.link.wire;
    if w.client.Attached? {
      ReceivesFrame(w);
    }
  }

  /** The one answer to the one attach: it is as new as the record, so the replay starts where it ends. */
  lemma RestoreKeepsCareful(w: World)
    requires CarefulWorld(w) && w.link.wire != [] && w.link.wire[0].Restore?
    ensures CarefulInv(Next(w, Delivers))
  {
    assert w.link.wire[0] in w.link.wire;
    if w.client.Attached? {
      ReceivesRestore(w);
      FirstRestores(w.client.sync, w.link.wire[0].sequence, w.link.delivered, w.session.chunks);
    }
  }

  lemma NextKeepsCareful(w: World, move: Move)
    requires CarefulWorld(w) && Careful(w, move)
    ensures CarefulWorld(Next(w, move))
  {
    NextKeepsInv(w, move);
    match move {
      case Output(_) => ServerMoveKeepsCareful(w, move);
      case RunsJob => ServerMoveKeepsCareful(w, move);
      case Parses(_) => ServerMoveKeepsCareful(w, move);
      case AsksElsewhere => ServerMoveKeepsCareful(w, move);
      case Subscribes => SubscribeKeepsCareful(w);
      case HandlesAttach => HandlesAttachKeepsCareful(w);
      case Sends(index) => if index < |w.session.replies| { SendsKeepsCareful(w, index); }
      case Delivers =>
        if w.link.wire != [] {
          if w.link.wire[0].Chunk? { FrameKeepsCareful(w); } else { RestoreKeepsCareful(w); }
        }
      case Selects => SelectsKeepsCareful(w);
      case Deselects =>
      case Closes(kept) => if kept <= |w.link.wire| { ClosesKeepsCareful(w, kept); }
      case Reconnects => ReconnectsKeepsCareful(w);
    }
  }

  lemma {:induction false} RunKeepsCareful(w: World, moves: seq<Move>)
    requires CarefulWorld(w) && CarefulRun(w, moves)
    ensures CarefulWorld(Run(w, moves))
    decreases |moves|
  {
    if moves != [] {
      NextKeepsCareful(w, moves[0]);
      RunKeepsCareful(Next(w, moves[0]), moves[1..]);
    }
  }

  lemma UntouchedCareful(w: World)
    requires Server.Valid(w.session) && w.session.jobs == [] && w.session.waiting == [] && w.session.replies == []
    requires w.link.wire == [] && w.link.requests == 0 && !w.link.subscribed && w.link.delivered == 0
    requires w.client.Detached?
    ensures CarefulWorld(w)
  {
    UntouchedInv(w);
  }

  lemma StartCareful()
    ensures CarefulWorld(Start())
  {
    OpenedIsValid();
    var w := Start();
    UntouchedCareful(w);
  }

  ghost predicate CarefullyReached(w: World) {
    exists moves :: CarefulRun(Start(), moves) && w == Run(Start(), moves)
  }

  lemma CarefullyReachedInv(w: World)
    requires CarefullyReached(w)
    ensures CarefulWorld(w) && Reachable(w)
  {
    var moves :| CarefulRun(Start(), moves) && w == Run(Start(), moves);
    StartCareful();
    RunKeepsCareful(Start(), moves);
  }

  /**
  With one outstanding attach the only thing that can lose a chunk is a full buffer: the screen is exactly the
  chunks up to the recorded sequence if and only if the buffer dropped no frame beyond the snapshot, or nothing
  has been written since.
  */
  lemma OnlyOverflowLoses(w: World, sync: Sync)
    requires CarefullyReached(w) && w.client == Attached(sync) && sync.applied
    ensures Shows(sync, sync.sequence, w.session.chunks)
       <==> !Overflowed(sync) || sync.sequence == sync.restored
    ensures Settled(w) ==> (sync.screen == w.session.chunks <==> !Overflowed(sync))
  {
    CarefullyReachedInv(w);
    MirrorIsExact(w, sync);
    if Settled(w) {
      MirrorCatchesUp(w, sync);
    }
  }
}
