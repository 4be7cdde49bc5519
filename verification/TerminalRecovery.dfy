/** A new connection always heals the mirror: from every state some run ends with all output on the screen. */
module TerminalRecovery {
  import opened Options
  import opened TerminalSplit
  import opened TerminalMirror
  import Server = TerminalSession

  function MovesOf(events: seq<Server.Event>): seq<Move>
    requires forall e <- events :: e.Job? || e.Parsed?
  {
    if events == [] then []
    else
      assert events[0] in events && forall e <- events[1..] :: e in events;
      [if events[0].Job? then RunsJob else Parses(events[0].amount)] + MovesOf(events[1..])
  }

  /** Promise jobs and parsing go on whatever the connection does. */
  lemma {:induction false} SessionMoves(w: World, events: seq<Server.Event>)
    requires forall e <- events :: e.Job? || e.Parsed?
    ensures Run(w, MovesOf(events)) == w.(session := Server.Run(w.session, events))
    decreases |events|
  {
    if events != [] {
      assert events[0] in events && forall e <- events[1..] :: e in events;
      SessionMoves(w.(session := Server.Step(w.session, events[0])), events[1..]);
      assert MovesOf(events)[1..] == MovesOf(events[1..]);
    }
  }

  lemma {:induction false} RunBoth(w: World, first: seq<Move>, second: seq<Move>)
    ensures Run(w, first + second) == Run(Run(w, first), second)
    decreases |first|
  {
    if first == [] {
      assert [] + second == second;
    } else {
      assert (first + second)[1..] == first[1..] + second;
      RunBoth(Next(w, first[0]), first[1..], second);
    }
  }

  /** The replies that are left are sent off, to whatever connection they were for. */
  lemma {:induction false} SendsAll(w: World) returns (moves: seq<Move>)
    ensures Run(w, moves).session == w.session.(replies := [])
    decreases |w.session.replies|
  {
    if w.session.replies == [] {
      moves := [];
    } else {
      var sent := Next(w, Sends(0));
      assert w.session.replies[..0] + w.session.replies[1..] == w.session.replies[1..];
      var rest := SendsAll(sent);
      moves := [Sends(0)] + rest;
      assert moves[1..] == rest;
    }
  }

  /** The server has done everything there was to do. */
  predicate Rested(s: Server.Session) {
    && s.jobs == [] && s.buffer == [] && s.waiting == [] && s.replies == []
    && s.terminal == s.chunks && s.fulfilled == |s.chunks|
  }

  lemma {:induction false} JobsKeepChunks(s: Server.Session, events: seq<Server.Event>)
    requires forall e <- events :: e.Job? || e.Parsed?
    ensures Server.Run(s, events).chunks == s.chunks
    decreases |events|
  {
    if events != [] {
      assert events[0] in events && forall e <- events[1..] :: e in events;
      JobsKeepChunks(Server.Step(s, events[0]), events[1..]);
    }
  }

  lemma Rests(w: World) returns (moves: seq<Move>)
    requires Server.Valid(w.session)
    ensures Rested(Run(w, moves).session) && Run(w, moves).session.chunks == w.session.chunks
  {
    var events := Server.Settles(w.session);
    Server.RunKeepsValidity(w.session, events);
    Server.QuietIsComplete(Server.Run(w.session, events));
    JobsKeepChunks(w.session, events);
    SessionMoves(w, events);
    var second := SendsAll(Run(w, MovesOf(events)));
    moves := MovesOf(events) + second;
    RunBoth(w, MovesOf(events), second);
  }

  // ---------------------------------------------------------------- a new connection

  function Fresh(connection: nat, subscribed: bool, requests: nat, wire: seq<Message>, delivered: nat): Link {
    Link(connection, true, subscribed, requests, wire, delivered)
  }

  lemma Connects(w: World)
    ensures var c := w.link.connection + 1;
            Next(Next(w, Reconnects), Selects) == World(w.session, Fresh(c, false, 1, [], 0), Attached(NewSync()))
  {
  }

  lemma Attaches(w: World, c: nat)
    requires Rested(w.session) && w.link == Fresh(c, false, 1, [], 0)
    ensures var total := |w.session.chunks|;
            Next(w, HandlesAttach)
            == World(w.session.(jobs := [Server.Serialise(Some(c), total)]), Fresh(c, true, 0, [], total), w.client)
  {
  }

  lemma Serialises(w: World, c: nat)
    requires w.session.buffer == [] && w.session.replies == []
    requires w.session.jobs == [Server.Serialise(Some(c), |w.session.chunks|)]
    ensures Next(w, RunsJob)
         == w.(session := w.session.(jobs := [],
                                     replies := [Server.Snapshot(Some(c), |w.session.chunks|, w.session.terminal)]))
  {
  }

  lemma SendsOne(w: World, c: nat, total: nat, data: seq<Text>)
    requires w.session.replies == [Server.Snapshot(Some(c), total, data)] && w.link == Fresh(c, true, 0, [], total)
    ensures Next(w, Sends(0))
         == World(w.session.(replies := []), Fresh(c, true, 0, [Restore(total, data)], total), w.client)
  {
  }

  lemma Restores(w: World, c: nat, total: nat, data: seq<Text>)
    requires w.link == Fresh(c, true, 0, [Restore(total, data)], total) && w.client == Attached(NewSync())
    ensures var w' := Next(w, Delivers);
            && w'.session == w.session && w'.link == Fresh(c, true, 0, [], total)
            && w'.client.Attached? && w'.client.sync.applied && w'.client.sync.screen == data
            && w'.client.sync.sequence == total
  {
  }

  lemma RunSix(w: World, a: Move, b: Move, c: Move, d: Move, e: Move, f: Move)
    ensures Run(w, [a, b, c, d, e, f]) == Next(Next(Next(Next(Next(Next(w, a), b), c), d), e), f)
  {
    RunOne(w, a, [b, c, d, e, f]);
    RunOne(Next(w, a), b, [c, d, e, f]);
    RunOne(Next(Next(w, a), b), c, [d, e, f]);
    RunOne(Next(Next(Next(w, a), b), c), d, [e, f]);
    RunOne(Next(Next(Next(Next(w, a), b), c), d), e, [f]);
    RunOne(Next(Next(Next(Next(Next(w, a), b), c), d), e), f, []);
  }

  lemma RunOne(w: World, move: Move, rest: seq<Move>)
    ensures Run(w, [move] + rest) == Run(Next(w, move), rest)
  {
    assert ([move] + rest)[1..] == rest;
  }

  /** The screen shows everything and nothing is under way. */
  predicate ShowsAll(w: World) {
    Settled(w) && w.client.Attached? && w.client.sync.applied && w.client.sync.screen == w.session.chunks
  }

  lemma Reattaches(w: World)
    requires Rested(w.session)
    ensures var w' := Run(w, [Reconnects, Selects, HandlesAttach, RunsJob, Sends(0), Delivers]);
            ShowsAll(w') && w'.session.chunks == w.session.chunks
  {
    var c, total := w.link.connection + 1, |w.session.chunks|;
    var w2 := Next(Next(w, Reconnects), Selects);
    Connects(w);
    Attaches(w2, c);
    var w3 := Next(w2, HandlesAttach);
    Serialises(w3, c);
    var w4 := Next(w3, RunsJob);
    SendsOne(w4, c, total, w.session.terminal);
    var w5 := Next(w4, Sends(0));
    Restores(w5, c, total, w.session.terminal);
    RunSix(w, Reconnects, Selects, HandlesAttach, RunsJob, Sends(0), Delivers);
  }

  /**
  From every state that any run reaches, whatever was lost before and even if the connection is down, the run can go
  on without new output so that the client shows all of it: what was pending is done, and a new connection attaches.
  */
  lemma MirrorRecovers(w: World) returns (moves: seq<Move>)
    requires Reachable(w)
    ensures ShowsAll(Run(w, moves)) && Run(w, moves).session.chunks == w.session.chunks
  {
    ReachableInv(w);
    var first := Rests(w);
    var second := [Reconnects, Selects, HandlesAttach, RunsJob, Sends(0), Delivers];
    Reattaches(Run(w, first));
    RunBoth(w, first, second);
    moves := first + second;
  }
}
