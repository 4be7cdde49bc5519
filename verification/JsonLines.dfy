/** Reassembly of newline-delimited messages from the chunks a child process writes. */
module JsonLines {
  import opened Options

  type Bytes = seq<bv8>

  const MAX_MESSAGE_BYTES: nat := 4194304

  // ---------------------------------------------------------------- lines of a stream

  function NewlineFrom(bytes: Bytes, from: nat): (r: Option<nat>)
    requires from <= |bytes|
    ensures r.Some? ==> from <= r.value < |bytes| && bytes[r.value] == 10
    ensures r.Some? ==> forall i | from <= i < r.value :: bytes[i] != 10
    ensures r.None? ==> forall i | from <= i < |bytes| :: bytes[i] != 10
    decreases |bytes| - from
  {
    if from == |bytes| then None else if bytes[from] == 10 then Some(from) else NewlineFrom(bytes, from + 1)
  }

  function IndexOfNewline(bytes: Bytes): Option<nat> {
    NewlineFrom(bytes, 0)
  }

  function Stripped(line: Bytes): Bytes {
    if line != [] && line[|line| - 1] == 13 then line[..|line| - 1] else line
  }

  /** accepts says whether a line parses as JSON. */
  predicate Forwards(accepts: Bytes -> bool, line: Bytes) {
    0 < |Stripped(line)| <= MAX_MESSAGE_BYTES && accepts(Stripped(line))
  }

  /** A line is its message, perhaps with one carriage return behind it. */
  predicate Carries(line: Bytes, message: Bytes) {
    line == message + [13] || (line == message && (message == [] || message[|message| - 1] != 13))
  }

  /** A line forwards the one message that it carries, exactly if that is neither empty nor too long, and JSON. */
  lemma ForwardsIff(accepts: Bytes -> bool, line: Bytes, message: Bytes)
    requires Carries(line, message)
    ensures Stripped(line) == message
    ensures Forwards(accepts, line) <==> message != [] && |message| <= 4194304 && accepts(message)
  {
  }

  lemma CarriesOne(line: Bytes)
    ensures Carries(line, Stripped(line))
  {
    if line != [] && line[|line| - 1] == 13 {
      assert line == line[..|line| - 1] + [13];
    }
  }

  /** Where taking lines off a buffer ends: with a remainder that has no newline, or at a line that fails. */
  datatype End = Rest(bytes: Bytes) | Bad

  datatype Drained = Drained(sent: seq<Bytes>, end: End)

  function Drain(accepts: Bytes -> bool, buffer: Bytes): Drained
    decreases |buffer|
  {
    var newline := IndexOfNewline(buffer);
    if newline.None? then Drained([], Rest(buffer))
    else if !Forwards(accepts, buffer[..newline.value]) then Drained([], Bad)
    else
      var after := Drain(accepts, buffer[newline.value + 1..]);
      Drained([Stripped(buffer[..newline.value])] + after.sent, after.end)
  }

  /** The bridge: the unfinished line, the messages forwarded so far, and whether it has failed. */
  datatype Bridge = Bridge(buffer: Bytes, sent: seq<Bytes>, finished: bool)

  function New(): Bridge {
    Bridge([], [], false)
  }

  /** The bridge after draining: it fails at a bad line, and when the unfinished line is already too long. */
  function Settle(sent: seq<Bytes>, d: Drained): Bridge {
    if d.end.Rest? && |d.end.bytes| <= MAX_MESSAGE_BYTES then Bridge(d.end.bytes, sent + d.sent, false)
    else Bridge([], sent + d.sent, true)
  }

  function Feed(accepts: Bytes -> bool, b: Bridge, chunk: Bytes): Bridge {
    if b.finished then b else Settle(b.sent, Drain(accepts, b.buffer + chunk))
  }

  function FeedAll(accepts: Bytes -> bool, chunks: seq<Bytes>): Bridge {
    if chunks == [] then New() else Feed(accepts, FeedAll(accepts, chunks[..|chunks| - 1]), chunks[|chunks| - 1])
  }

  function Joined(chunks: seq<Bytes>): Bytes {
    if chunks == [] then [] else Joined(chunks[..|chunks| - 1]) + chunks[|chunks| - 1]
  }

  // ---------------------------------------------------------------- draining in two steps

  lemma FirstNewline(bytes: Bytes, n: nat)
    requires n < |bytes| && bytes[n] == 10 && forall i | 0 <= i < n :: bytes[i] != 10
    ensures IndexOfNewline(bytes) == Some(n)
  {
  }

  lemma NoNewline(bytes: Bytes)
    requires forall i | 0 <= i < |bytes| :: bytes[i] != 10
    ensures IndexOfNewline(bytes) == None
  {
  }

  /** What follows does not move the first newline. */
  lemma SameFirstLine(a: Bytes, b: Bytes, n: nat)
    requires IndexOfNewline(a) == Some(n)
    ensures IndexOfNewline(a + b) == Some(n)
    ensures n < |a| && (a + b)[..n] == a[..n] && (a + b)[n + 1..] == a[n + 1..] + b
  {
    FirstNewline(a + b, n);
  }

  function Prepend(line: Bytes, d: Drained): Drained {
    Drained([line] + d.sent, d.end)
  }

  lemma DrainStep(accepts: Bytes -> bool, buffer: Bytes, n: nat)
    requires IndexOfNewline(buffer) == Some(n) && n < |buffer|
    ensures Drain(accepts, buffer)
         == if Forwards(accepts, buffer[..n]) then Prepend(Stripped(buffer[..n]), Drain(accepts, buffer[n + 1..]))
            else Drained([], Bad)
  {
  }

  /** What draining a stream does after a first part of it was drained. */
  function Resume(accepts: Bytes -> bool, first: Drained, more: Bytes): Drained {
    if first.end.Bad? then first
    else
      var second := Drain(accepts, first.end.bytes + more);
      Drained(first.sent + second.sent, second.end)
  }

  lemma PrependResumes(accepts: Bytes -> bool, line: Bytes, first: Drained, more: Bytes)
    ensures Resume(accepts, Prepend(line, first), more) == Prepend(line, Resume(accepts, first, more))
  {
    if first.end.Rest? {
      var second := Drain(accepts, first.end.bytes + more);
      assert ([line] + first.sent) + second.sent == [line] + (first.sent + second.sent);
    }
  }

  /** Draining part of a stream and then the remainder with the rest is draining the whole. */
  lemma {:induction false} DrainComposes(accepts: Bytes -> bool, a: Bytes, b: Bytes)
    ensures Drain(accepts, a + b) == Resume(accepts, Drain(accepts, a), b)
    decreases |a|
  {
    if IndexOfNewline(a).Some? {
      var n := IndexOfNewline(a).value;
      SameFirstLine(a, b, n);
      DrainStep(accepts, a, n);
      DrainStep(accepts, a + b, n);
      if Forwards(accepts, a[..n]) {
        DrainComposes(accepts, a[n + 1..], b);
        PrependResumes(accepts, Stripped(a[..n]), Drain(accepts, a[n + 1..]), b);
      }
    } else {
      var second := Drain(accepts, a + b);
      assert [] + second.sent == second.sent;
    }
  }

  /** A line of exactly one byte over the bound, ended by a carriage return, is reached and forwarded. */
  predicate Edge(accepts: Bytes -> bool, buffer: Bytes)
    decreases |buffer|
  {
    var newline := IndexOfNewline(buffer);
    && newline.Some? && Forwards(accepts, buffer[..newline.value])
    && (newline.value == MAX_MESSAGE_BYTES + 1 || Edge(accepts, buffer[newline.value + 1..]))
  }

  lemma {:induction false} EdgeComposes(accepts: Bytes -> bool, a: Bytes, b: Bytes)
    requires Drain(accepts, a).end.Rest?
    ensures Edge(accepts, a + b) <==> Edge(accepts, a) || Edge(accepts, Drain(accepts, a).end.bytes + b)
    decreases |a|
  {
    if IndexOfNewline(a).Some? {
      var n := IndexOfNewline(a).value;
      SameFirstLine(a, b, n);
      DrainStep(accepts, a, n);
      EdgeComposes(accepts, a[n + 1..], b);
    }
  }

  /** A remainder over the bound can only lead on to a failure, unless it is an edge line less its newline. */
  lemma OversizedFails(accepts: Bytes -> bool, rest: Bytes, more: Bytes)
    requires IndexOfNewline(rest).None? && MAX_MESSAGE_BYTES < |rest| && !Edge(accepts, rest + more)
    ensures var d := Drain(accepts, rest + more);
            d.sent == [] && (d.end.Bad? || MAX_MESSAGE_BYTES < |d.end.bytes|)
  {
    var newline := IndexOfNewline(rest + more);
    assert forall i | 0 <= i < |rest| :: (rest + more)[i] == rest[i];
    assert newline.Some? ==> |rest| <= newline.value;
  }

  // ---------------------------------------------------------------- chunking

  predicate SameOutcome(a: Bridge, b: Bridge) {
    a.finished == b.finished && a.sent == b.sent && (!a.finished ==> a.buffer == b.buffer)
  }

  lemma DrainRest(accepts: Bytes -> bool, buffer: Bytes)
    ensures var d := Drain(accepts, buffer); d.end.Rest? ==> IndexOfNewline(d.end.bytes).None?
    decreases |buffer|
  {
  }

  lemma FeedNew(accepts: Bytes -> bool, stream: Bytes)
    ensures Feed(accepts, New(), stream) == Settle([], Drain(accepts, stream))
  {
    assert New().buffer + stream == stream;
  }

  lemma SettleComposes(accepts: Bytes -> bool, first: Drained, more: Bytes)
    requires first.end.Rest? && MAX_MESSAGE_BYTES < |first.end.bytes| ==>
               var second := Drain(accepts, first.end.bytes + more);
               second.sent == [] && (second.end.Bad? || MAX_MESSAGE_BYTES < |second.end.bytes|)
    ensures SameOutcome(Feed(accepts, Settle([], first), more), Settle([], Resume(accepts, first, more)))
  {
    if first.end.Rest? {
      var second := Drain(accepts, first.end.bytes + more);
      assert [] + (first.sent + second.sent) == ([] + first.sent) + second.sent;
    }
  }

  lemma FeedComposes(accepts: Bytes -> bool, a: Bytes, b: Bytes)
    requires !Edge(accepts, a + b)
    ensures SameOutcome(Feed(accepts, Feed(accepts, New(), a), b), Feed(accepts, New(), a + b))
  {
    var first := Drain(accepts, a);
    FeedNew(accepts, a);
    FeedNew(accepts, a + b);
    DrainComposes(accepts, a, b);
    if first.end.Rest? && MAX_MESSAGE_BYTES < |first.end.bytes| {
      EdgeComposes(accepts, a, b);
      DrainRest(accepts, a);
      OversizedFails(accepts, first.end.bytes, b);
    }
    SettleComposes(accepts, first, b);
  }

  lemma {:induction false} EdgeOfPrefix(accepts: Bytes -> bool, a: Bytes, b: Bytes)
    requires Edge(accepts, a)
    ensures Edge(accepts, a + b)
    decreases |a|
  {
    var n := IndexOfNewline(a).value;
    SameFirstLine(a, b, n);
    if n != MAX_MESSAGE_BYTES + 1 {
      EdgeOfPrefix(accepts, a[n + 1..], b);
    }
  }

  lemma {:induction false} ChunksAgree(accepts: Bytes -> bool, chunks: seq<Bytes>)
    requires !Edge(accepts, Joined(chunks))
    ensures SameOutcome(FeedAll(accepts, chunks), Feed(accepts, New(), Joined(chunks)))
  {
    if chunks == [] {
      var none: Bytes := [];
      assert none + none == none;
    } else {
      var n := |chunks| - 1;
      var stream := Joined(chunks[..n]);
      if Edge(accepts, stream) {
        EdgeOfPrefix(accepts, stream, chunks[n]);
      } else {
        ChunksAgree(accepts, chunks[..n]);
        FeedComposes(accepts, stream, chunks[n]);
      }
    }
  }

  /** Cutting just before the newline of an edge line. */
  lemma {:induction false} EdgeCut(accepts: Bytes -> bool, stream: Bytes) returns (cut: nat)
    requires Edge(accepts, stream)
    ensures cut <= |stream|
    ensures var first := Drain(accepts, stream[..cut]);
            && first.end.Rest? && MAX_MESSAGE_BYTES < |first.end.bytes|
            && |first.sent| < |Drain(accepts, stream).sent|
    decreases |stream|
  {
    var n := IndexOfNewline(stream).value;
    if n == MAX_MESSAGE_BYTES + 1 {
      NoNewline(stream[..n]);
      cut := n;
    } else {
      var further := EdgeCut(accepts, stream[n + 1..]);
      cut := n + 1 + further;
      FirstNewline(stream[..cut], n);
      assert stream[..cut][..n] == stream[..n];
      assert stream[..cut][n + 1..] == stream[n + 1..][..further];
    }
  }

  lemma EdgeDistinguishes(accepts: Bytes -> bool, stream: Bytes) returns (chunks: seq<Bytes>)
    requires Edge(accepts, stream)
    ensures Joined(chunks) == stream
    ensures !SameOutcome(FeedAll(accepts, chunks), Feed(accepts, New(), stream))
  {
    var cut := EdgeCut(accepts, stream);
    var a, b := stream[..cut], stream[cut..];
    chunks := [a, b];
    assert stream == a + b;
    JoinedTwo(accepts, a, b);
    FeedNew(accepts, a);
    FeedNew(accepts, stream);
  }

  lemma JoinedTwo(accepts: Bytes -> bool, a: Bytes, b: Bytes)
    ensures Joined([a, b]) == a + b
    ensures FeedAll(accepts, [a, b]) == Feed(accepts, Feed(accepts, New(), a), b)
  {
    assert [a, b][..1] == [a] && [a][..0] == [];
    var none: Bytes := [];
    assert Joined([a]) == none + a == a;
    assert FeedAll(accepts, [a]) == Feed(accepts, New(), a);
  }

  /**
  What is forwarded, and whether the bridge fails, is the same for every way the stream is cut into chunks
  if and only if no forwarded line is exactly one byte over the bound (its last byte a carriage return).
  */
  lemma ChunkingIsIrrelevantIff(accepts: Bytes -> bool, stream: Bytes)
    ensures !Edge(accepts, stream)
       <==> forall chunks | Joined(chunks) == stream ::
              SameOutcome(FeedAll(accepts, chunks), Feed(accepts, New(), stream))
  {
    if Edge(accepts, stream) {
      var chunks := EdgeDistinguishes(accepts, stream);
    } else {
      forall chunks | Joined(chunks) == stream
        ensures SameOutcome(FeedAll(accepts, chunks), Feed(accepts, New(), stream))
      {
        ChunksAgree(accepts, chunks);
      }
    }
  }

  // ---------------------------------------------------------------- splitting the whole stream

  /** The lines of a stream and its unfinished end, read from the back. */
  function SplitLines(stream: Bytes): (seq<Bytes>, Bytes) {
    if stream == [] then ([], [])
    else
      var n := |stream| - 1;
      var (lines, rest) := SplitLines(stream[..n]);
      if stream[n] == 10 then (lines + [rest], []) else (lines, rest + [stream[n]])
  }

  /** The lines forwarded, up to the first that fails. */
  function ForwardedLines(accepts: Bytes -> bool, lines: seq<Bytes>): seq<Bytes> {
    if lines == [] || !Forwards(accepts, lines[0]) then []
    else [Stripped(lines[0])] + ForwardedLines(accepts, lines[1..])
  }

  lemma {:induction false} SplitWithoutNewline(stream: Bytes)
    requires IndexOfNewline(stream).None?
    ensures SplitLines(stream) == ([], stream)
  {
    if stream != [] {
      var n := |stream| - 1;
      NoNewline(stream[..n]);
      SplitWithoutNewline(stream[..n]);
      assert stream[..n] + [stream[n]] == stream;
    }
  }

  lemma SplitLast(stream: Bytes)
    requires stream != []
    ensures var n := |stream| - 1;
            var (lines, rest) := SplitLines(stream[..n]);
            SplitLines(stream) == if stream[n] == 10 then (lines + [rest], []) else (lines, rest + [stream[n]])
  {
  }

  lemma {:induction false} SplitFirst(stream: Bytes, n: nat)
    requires n < |stream| && IndexOfNewline(stream) == Some(n)
    ensures SplitLines(stream)
         == ([stream[..n]] + SplitLines(stream[n + 1..]).0, SplitLines(stream[n + 1..]).1)
    decreases |stream|
  {
    var m := |stream| - 1;
    SplitLast(stream);
    if m == n {
      NoNewline(stream[..n]);
      SplitWithoutNewline(stream[..n]);
      var none: seq<Bytes> := [];
      assert stream[n + 1..] == [] && none + [stream[..n]] == [stream[..n]] + none;
    } else {
      var after := stream[n + 1..];
      FirstNewline(stream[..m], n);
      SplitFirst(stream[..m], n);
      assert stream[..m][..n] == stream[..n];
      assert stream[..m][n + 1..] == after[..|after| - 1];
      assert after[|after| - 1] == stream[m];
      SplitLast(after);
      var (lines, rest) := SplitLines(after[..|after| - 1]);
      assert ([stream[..n]] + lines) + [rest] == [stream[..n]] + (lines + [rest]);
    }
  }

  lemma ForwardedCons(accepts: Bytes -> bool, line: Bytes, lines: seq<Bytes>)
    ensures ForwardedLines(accepts, [line] + lines)
         == if Forwards(accepts, line) then [Stripped(line)] + ForwardedLines(accepts, lines) else []
  {
    assert ([line] + lines)[1..] == lines;
  }

  /** What draining sends, and where it ends, in terms of the lines of the stream. */
  predicate SendsLines(accepts: Bytes -> bool, d: Drained, lines: seq<Bytes>, rest: Bytes) {
    && d.sent == ForwardedLines(accepts, lines)
    && (d.end.Rest? ==> d.end.bytes == rest && |d.sent| == |lines|)
  }

  lemma SendsOneMore(accepts: Bytes -> bool, line: Bytes, d: Drained, lines: seq<Bytes>, rest: Bytes)
    requires SendsLines(accepts, d, lines, rest) && Forwards(accepts, line)
    ensures SendsLines(accepts, Prepend(Stripped(line), d), [line] + lines, rest)
  {
    ForwardedCons(accepts, line, lines);
  }

  /** Draining is splitting on newlines, dropping one trailing carriage return, and stopping at the first bad line. */
  lemma {:induction false} DrainIsSplit(accepts: Bytes -> bool, stream: Bytes)
    ensures SendsLines(accepts, Drain(accepts, stream), SplitLines(stream).0, SplitLines(stream).1)
    decreases |stream|
  {
    var newline := IndexOfNewline(stream);
    if newline.None? {
      SplitWithoutNewline(stream);
    } else {
      var n := newline.value;
      var line, after := stream[..n], stream[n + 1..];
      SplitFirst(stream, n);
      DrainStep(accepts, stream, n);
      if Forwards(accepts, line) {
        DrainIsSplit(accepts, after);
        SendsOneMore(accepts, line, Drain(accepts, after), SplitLines(after).0, SplitLines(after).1);
      } else {
        ForwardedCons(accepts, line, SplitLines(after).0);
      }
    }
  }

  // ---------------------------------------------------------------- the object

  class RuntimeBridge {
    var stdoutBuffer: Bytes
    var sent: seq<Bytes>
    var finished: bool
    const accepts: Bytes -> bool

    ghost predicate Is(b: Bridge)
      reads this
    {
      finished == b.finished && sent == b.sent && (!finished ==> stdoutBuffer == b.buffer)
    }

    constructor (accepts: Bytes -> bool)
      ensures Is(New()) && this.accepts == accepts
    {
      stdoutBuffer, sent, finished := [], [], false;
      this.accepts := accepts;
    }

    method OnData(chunk: Bytes)
      modifies this
      ensures Is(Feed(accepts, old(Bridge(stdoutBuffer, sent, finished)), chunk))
    {
      if finished {
        return;
      }
      stdoutBuffer := stdoutBuffer + chunk;
      ghost var whole, before := Drain(accepts, stdoutBuffer), sent;
      while !finished
        invariant !finished
        invariant var d := Drain(accepts, stdoutBuffer);
                  whole.end == d.end && before + whole.sent == sent + d.sent
        decreases |stdoutBuffer|
      {
        var newline := IndexOfNewline(stdoutBuffer);
        if newline.None? {
          if MAX_MESSAGE_BYTES < |stdoutBuffer| {
            finished := true;
          }
          return;
        }
        var line := stdoutBuffer[..newline.value];
        var further := Drain(accepts, stdoutBuffer[newline.value + 1..]);
        stdoutBuffer := stdoutBuffer[newline.value + 1..];
        if !Forwards(accepts, line) {
          finished := true;
          return;
        }
        assert sent + ([Stripped(line)] + further.sent) == sent + [Stripped(line)] + further.sent;
        sent := sent + [Stripped(line)];
      }
    }
  }
}
