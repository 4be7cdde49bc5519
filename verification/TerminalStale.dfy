/**
Why the mirror needs one outstanding attach: the snapshot handler does not look at request ids. A session is
selected, left and selected again before its first snapshot arrives. That snapshot is taken for the answer to
the second attach, the frames that follow are written at once, and the real answer then resets the screen to
an older point. Nothing brings the lost chunk back.
*/
module TerminalStale {
  import opened Options
  import opened TerminalSplit
  import opened TerminalMirror
  import opened TerminalAttach
  import Server = TerminalSession

  function A(): Text { [97] }
  function B(): Text { [98] }

  lemma RunThree(w: World, moves: seq<Move>)
    requires |moves| == 3
    ensures Run(w, moves) == Next(Next(Next(w, moves[0]), moves[1]), moves[2])
  {
    assert moves[1..][1..][1..] == [];
    assert Run(Next(Next(w, moves[0]), moves[1]), moves[1..][1..]) == Next(Next(Next(w, moves[0]), moves[1]), moves[2]);
  }

  lemma {:induction false} RunConcat(w: World, first: seq<Move>, second: seq<Move>)
    ensures Run(w, first + second) == Run(Run(w, first), second)
    decreases |first|
  {
    if first == [] {
      assert first + second == second;
    } else {
      assert (first + second)[1..] == first[1..] + second;
      RunConcat(Next(w, first[0]), first[1..], second);
    }
  }

  /** The first snapshot has been taken but not sent. */
  function Answering(): World {
    World(Server.Opened().(replies := [Server.Snapshot(Some(0), 0, [])]),
          Link(0, true, true, 0, [], 0), Attached(NewSync()))
  }

  lemma FirstAttach()
    ensures Run(Start(), [Selects, HandlesAttach, RunsJob]) == Answering()
  {
    RunThree(Start(), [Selects, HandlesAttach, RunsJob]);
  }

  /** The session has been left and selected again; the first snapshot is on its way. */
  function Reselected(): World {
    World(Server.Opened(), Link(0, true, true, 1, [Restore(0, [])], 0), Attached(NewSync()))
  }

  lemma Reselect()
    ensures Run(Answering(), [Deselects, Selects, Sends(0)]) == Reselected()
  {
    RunThree(Answering(), [Deselects, Selects, Sends(0)]);
  }

  /** Two chunks arrive, one before and one after the second attach is handled. */
  function Waiting(): World {
    World(Server.Session([A(), B()], 0, [], [], [Server.Start(1)], [Server.Serialise(Some(0), 1), Server.Start(2)], []),
          Link(0, true, true, 0, [Restore(0, []), Chunk(Frame(1, A())), Chunk(Frame(2, B()))], 0),
          Attached(NewSync()))
  }

  lemma SecondAttach()
    ensures Run(Reselected(), [Output(A()), HandlesAttach, Output(B())]) == Waiting()
  {
    RunThree(Reselected(), [Output(A()), HandlesAttach, Output(B())]);
  }

  function FirstParsed(): World {
    Waiting().(session := Server.Session(
      [A(), B()], 1, [], [A()], [Server.Serialise(Some(0), 1), Server.Start(2)], [], []))
  }

  lemma ParseFirst()
    ensures Run(Waiting(), [RunsJob, Parses(1), RunsJob]) == FirstParsed()
  {
    var w := Next(Next(Waiting(), RunsJob), Parses(1));
    RunThree(Waiting(), [RunsJob, Parses(1), RunsJob]);
    var reactions := w.session.waiting;
    assert reactions[1..] == [Server.Start(2)] && reactions[1..][1..] == [];
    assert Server.Released(reactions[1..], 1) == [Server.Start(2)];
    assert Server.StillWaiting(reactions[1..], 1) == [];
  }

  /** The second snapshot has been sent, and the client has applied the first and written both chunks. */
  function Streamed(): World {
    World(Server.Session([A(), B()], 1, [], [A()], [Server.Start(2)], [], []),
          Link(0, true, true, 0, [Chunk(Frame(2, B())), Restore(1, [A()])], 1),
          Attached(Sync(1, true, [], [A()], 0, 0, 0, 0, 0)))
  }

  /** The stale snapshot has been applied. */
  function StaleRestored(): World {
    Streamed().(
      link := Link(0, true, true, 0, [Chunk(Frame(1, A())), Chunk(Frame(2, B())), Restore(1, [A()])], 0),
      client := Attached(Sync(0, true, [], [], 0, 0, 0, 0, 0)))
  }

  lemma RestoreStale()
    ensures Run(FirstParsed(), [RunsJob, Sends(0), Delivers]) == StaleRestored()
  {
    RunThree(FirstParsed(), [RunsJob, Sends(0), Delivers]);
  }

  lemma StreamFirst()
    ensures Run(StaleRestored(), [Delivers]) == Streamed()
  {
    var w := StaleRestored();
    assert [Delivers][1..] == [];
    assert w.link.wire[1..] == Streamed().link.wire;
    assert w.client.sync.screen + [A()] == [A()];
    assert Receives(w.(link := w.link.(wire := w.link.wire[1..])), Chunk(Frame(1, A()))) == Streamed();
    assert Next(w, Delivers) == Streamed();
  }

  function Reset(): World {
    World(Server.Session([A(), B()], 1, [Server.Write(2, B(), 0)], [A()], [], [], []),
          Link(0, true, true, 0, [], 2),
          Attached(Sync(1, true, [], [A()], 0, 1, 2, 1, 2)))
  }

  lemma ResetScreen()
    ensures Run(Streamed(), [Delivers, Delivers, RunsJob]) == Reset()
  {
    RunThree(Streamed(), [Delivers, Delivers, RunsJob]);
  }

  function Final(): World {
    Reset().(session := Server.Session([A(), B()], 2, [], [A(), B()], [], [], []))
  }

  lemma ParseSecond()
    ensures Run(Reset(), [Parses(1), RunsJob, RunsJob]) == Final()
  {
    RunThree(Reset(), [Parses(1), RunsJob, RunsJob]);
  }

  /** After all is settled the client shows one chunk of two, although its buffer never held a frame. */
  lemma StaleSnapshotLoses() returns (moves: seq<Move>)
    ensures !CarefulRun(Start(), moves)
    ensures var w := Run(Start(), moves);
            && Settled(w) && w.client.Attached? && w.client.sync.applied && w.client.sync.offered == 0
            && w.session.terminal == w.session.chunks == [A(), B()]
            && w.client.sync.screen == [A()]
  {
    var select := [Selects, HandlesAttach, RunsJob];
    var again := [Deselects, Selects, Sends(0)];
    var attach := [Output(A()), HandlesAttach, Output(B())];
    var parse := [RunsJob, Parses(1), RunsJob];
    var restore := [RunsJob, Sends(0), Delivers];
    var stream := [Delivers];
    var reset := [Delivers, Delivers, RunsJob];
    var finish := [Parses(1), RunsJob, RunsJob];
    moves := select + again + attach + parse + restore + stream + reset + finish;
    FirstAttach();
    Reselect();
    SecondAttach();
    ParseFirst();
    RestoreStale();
    StreamFirst();
    ResetScreen();
    ParseSecond();
    RunConcat(Start(), select, again);
    RunConcat(Start(), select + again, attach);
    RunConcat(Start(), select + again + attach, parse);
    RunConcat(Start(), select + again + attach + parse, restore);
    RunConcat(Start(), select + again + attach + parse + restore, stream);
    RunConcat(Start(), select + again + attach + parse + restore + stream, reset);
    RunConcat(Start(), select + again + attach + parse + restore + stream + reset, finish);
    if CarefulRun(Start(), moves) {
      NotMirrored(moves);
    }
  }

  /** The mirror theorem itself shows that the run was not careful. */
  lemma NotMirrored(moves: seq<Move>)
    requires Run(Start(), moves) == Final()
    ensures !CarefulRun(Start(), moves)
  {
    if CarefulRun(Start(), moves) {
      assert CarefullyReached(Final());
      OnlyOverflowLoses(Final(), Final().client.sync);
    }
  }
}
