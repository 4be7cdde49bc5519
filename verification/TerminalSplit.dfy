/** Splitting PTY output into frames without separating a surrogate pair (section 3.9 of the Unicode Standard). */
module TerminalSplit {
  const MAXIMUM_CHARACTERS: nat := 32768

  type CodeUnit = u: int | 0 <= u < 0x10000
  type Text = seq<CodeUnit>

  predicate IsHigh(u: CodeUnit) {
    0xd800 <= u <= 0xdbff
  }

  predicate IsLow(u: CodeUnit) {
    0xdc00 <= u <= 0xdfff
  }

  function Joined<T>(chunks: seq<seq<T>>): seq<T> {
    if chunks == [] then [] else Joined(chunks[..|chunks| - 1]) + chunks[|chunks| - 1]
  }

  /** Cutting here would separate a surrogate pair. */
  predicate InsidePair(data: Text, at: nat) {
    0 < at < |data| && IsHigh(data[at - 1]) && IsLow(data[at])
  }

  /** A chunk that is not the last is as long as it may be: one unit is given up only to a high surrogate. */
  predicate Filled(chunk: Text, next: Text) {
    || (|chunk| == MAXIMUM_CHARACTERS && !IsHigh(chunk[MAXIMUM_CHARACTERS - 1]))
    || (|chunk| == MAXIMUM_CHARACTERS - 1 && 2 <= |next| && IsHigh(next[0]))
  }

  predicate CleanCut(chunk: Text, next: Text) {
    chunk != [] && next != [] && !(IsHigh(chunk[|chunk| - 1]) && IsLow(next[0]))
  }

  predicate Bounded(chunk: Text) {
    |chunk| <= MAXIMUM_CHARACTERS
  }

  lemma JoinedAppend<T>(chunks: seq<seq<T>>, chunk: seq<T>)
    ensures Joined(chunks + [chunk]) == Joined(chunks) + chunk
  {
    assert (chunks + [chunk])[..|chunks|] == chunks;
  }

  /** Neighbouring chunks, or a list whose chunks are all bounded and whose cuts are all in order. */
  predicate Linked(chunk: Text, next: Text) {
    CleanCut(chunk, next) && Filled(chunk, next)
  }

  predicate WellSplit(chunks: seq<Text>) {
    && (forall i | 0 <= i < |chunks| :: Bounded(chunks[i]))
    && (forall i | 0 < i < |chunks| :: Linked(chunks[i - 1], chunks[i]))
  }

  predicate Complete(chunks: seq<Text>) {
    WellSplit(chunks) && forall i | 0 <= i < |chunks| :: chunks[i] != []
  }

  /** The chunk from..to of data may be followed by the unit at to. */
  predicate MayCut(data: Text, from: nat, to: nat) {
    && from < to < |data|
    && !InsidePair(data, to)
    && (|| (to - from == MAXIMUM_CHARACTERS && !IsHigh(data[to - 1]))
        || (to - from == MAXIMUM_CHARACTERS - 1 && to + 2 <= |data| && IsHigh(data[to])))
  }

  lemma CutLinks(data: Text, from: nat, to: nat, end: nat)
    requires MayCut(data, from, to) && to < end <= |data| && (end < |data| ==> to + 2 <= end)
    ensures Linked(data[from..to], data[to..end])
  {
    assert data[from..to][to - from - 1] == data[to - 1] && data[to..end][0] == data[to];
  }

  lemma AppendWellSplit(chunks: seq<Text>, chunk: Text)
    requires WellSplit(chunks) && Bounded(chunk)
    requires chunks != [] ==> Linked(chunks[|chunks| - 1], chunk)
    ensures WellSplit(chunks + [chunk])
  {
  }

  /** Where a chunk that begins at start ends. */
  function CutAfter(data: Text, start: nat): (end: nat)
    requires start < |data|
    ensures start < end <= |data| && end - start <= MAXIMUM_CHARACTERS
    ensures end < |data| ==> MayCut(data, start, end) && start + 2 <= end
  {
    var end := if start + MAXIMUM_CHARACTERS <= |data| then start + MAXIMUM_CHARACTERS else |data|;
    if end < |data| && IsHigh(data[end - 1]) then end - 1 else end
  }

  lemma JoinedOne<T>(chunk: seq<T>)
    ensures Joined([chunk]) == chunk
  {
    assert [chunk][..0] == [];
  }

  lemma NoEmptyChunk(chunks: seq<Text>)
    requires WellSplit(chunks) && Joined(chunks) != []
    ensures Complete(chunks)
  {
    forall i | 0 <= i < |chunks| ensures chunks[i] != [] {
      if |chunks| == 1 {
        assert chunks == [chunks[0]];
        JoinedOne(chunks[0]);
      } else if 0 < i {
        assert Linked(chunks[i - 1], chunks[i]);
      } else {
        assert Linked(chunks[0], chunks[0 + 1]);
      }
    }
  }

  method Split(data: Text) returns (chunks: seq<Text>)
    ensures Joined(chunks) == data && WellSplit(chunks)
    ensures data != [] ==> Complete(chunks)
    ensures |data| <= MAXIMUM_CHARACTERS ==> chunks == [data]
  {
    if |data| <= MAXIMUM_CHARACTERS {
      JoinedOne(data);
      return [data];
    }
    chunks := [];
    var start := 0;
    ghost var from := 0;
    while start < |data|
      invariant 0 <= from <= start <= |data|
      invariant Joined(chunks) == data[..start] && WellSplit(chunks)
      invariant start == 0 <==> chunks == []
      invariant chunks != [] ==> chunks[|chunks| - 1] == data[from..start]
      invariant chunks != [] && start < |data| ==> MayCut(data, from, start)
    {
      var end := CutAfter(data, start);
      if chunks != [] {
        CutLinks(data, from, start, end);
      }
      JoinedAppend(chunks, data[start..end]);
      AppendWellSplit(chunks, data[start..end]);
      assert data[..start] + data[start..end] == data[..end];
      chunks := chunks + [data[start..end]];
      from, start := start, end;
    }
    assert data[..start] == data;
    NoEmptyChunk(chunks);
  }

  lemma AppendAssociates<T>(a: seq<T>, b: seq<T>, c: seq<T>)
    ensures (a + b) + c == a + (b + c)
  {
  }

  lemma {:induction false} JoinedFront<T>(chunks: seq<seq<T>>)
    requires chunks != []
    ensures Joined(chunks) == chunks[0] + Joined(chunks[1..])
  {
    var n := |chunks| - 1;
    if n == 0 {
      assert chunks[..0] == [] && chunks[1..] == [];
    } else {
      var front, last := chunks[..n], chunks[n];
      var middle := front[1..];
      assert Joined(chunks[1..]) == Joined(middle) + last by {
        assert chunks[1..] == middle + [last];
        JoinedAppend(middle, last);
      }
      JoinedFront(front);
      AppendAssociates(front[0], Joined(middle), last);
    }
  }

  lemma FirstChunksAgree(a: Text, a': Text, b: Text, b': Text, rest: Text, rest': Text)
    requires Linked(a, a') && Linked(b, b') && a + a' + rest == b + b' + rest'
    ensures a == b
  {
    var data := a + a' + rest;
    assert data[|a|] == a'[0] && data[|b|] == b'[0];
    assert data[|a| - 1] == a[|a| - 1] && data[|b| - 1] == b[|b| - 1];
    assert data[..|a|] == a && data[..|b|] == b;
  }

  lemma LastIsNotLinked(a: Text, b: Text, b': Text, rest: Text)
    requires Bounded(a) && Linked(b, b')
    ensures a != b + b' + rest
  {
  }

  lemma {:induction false} JoinedTwo(chunks: seq<Text>)
    requires 2 <= |chunks|
    ensures Joined(chunks) == chunks[0] + chunks[1] + Joined(chunks[2..])
  {
    JoinedFront(chunks);
    JoinedFront(chunks[1..]);
    assert chunks[1..][1..] == chunks[2..];
  }

  /** There is only one such split, so the contract of Split leaves it no choice. */
  lemma {:induction false} SplitIsUnique(a: seq<Text>, b: seq<Text>)
    requires Complete(a) && Complete(b) && Joined(a) == Joined(b)
    ensures a == b
    decreases |a|
  {
    if a == [] || b == [] {
      if a != [] { JoinedFront(a); }
      if b != [] { JoinedFront(b); }
    } else if |a| == 1 && |b| == 1 {
      JoinedOne(a[0]);
      JoinedOne(b[0]);
      assert a == [a[0]] && b == [b[0]];
    } else if |a| == 1 {
      JoinedOne(a[0]);
      assert a == [a[0]];
      JoinedTwo(b);
      LastIsNotLinked(a[0], b[0], b[1], Joined(b[2..]));
    } else if |b| == 1 {
      JoinedOne(b[0]);
      assert b == [b[0]];
      JoinedTwo(a);
      LastIsNotLinked(b[0], a[0], a[1], Joined(a[2..]));
    } else {
      JoinedTwo(a);
      JoinedTwo(b);
      FirstChunksAgree(a[0], a[1], b[0], b[1], Joined(a[2..]), Joined(b[2..]));
      JoinedFront(a);
      JoinedFront(b);
      assert Joined(a)[|a[0]|..] == Joined(a[1..]) && Joined(b)[|b[0]|..] == Joined(b[1..]);
      SplitIsUnique(a[1..], b[1..]);
      assert a == [a[0]] + a[1..] && b == [b[0]] + b[1..];
    }
  }

  // ---------------------------------------------------------------- the text the frames carry

  /** The scalar values of UTF-16 text; a lone surrogate becomes the replacement character. */
  function Scalars(data: Text): seq<int> {
    if data == [] then []
    else if 2 <= |data| && IsHigh(data[0]) && IsLow(data[1]) then
      [0x10000 + (data[0] - 0xd800) * 0x400 + (data[1] - 0xdc00)] + Scalars(data[2..])
    else
      [if IsHigh(data[0]) || IsLow(data[0]) then 0xfffd else data[0]] + Scalars(data[1..])
  }

  /** The UTF-16 form of a scalar value (section 3.9 of the Unicode Standard). */
  function Units(c: int): Text
    requires 0 <= c < 0x110000
  {
    if c < 0x10000 then [c] else [0xd800 + (c - 0x10000) / 0x400, 0xdc00 + (c - 0x10000) % 0x400]
  }

  /** Surrogates are the code units whose upper six bits are 110110, high ones, and 110111, low ones. */
  lemma SurrogatesAre(u: CodeUnit)
    ensures IsHigh(u) <==> u / 0x400 == 0x36
    ensures IsLow(u) <==> u / 0x400 == 0x37
  {
  }

  /** Decoding gives back every scalar value from its form, and the replacement character for a lone surrogate. */
  lemma Utf16RoundTrip(c: int)
    requires 0 <= c < 0x110000
    ensures Scalars(Units(c)) == [if 0xd800 <= c < 0xe000 then 0xfffd else c]
  {
    var u := Units(c);
    assert u[|u|..] == [];
    if c < 0x10000 {
      assert Scalars(u) == [if IsHigh(c) || IsLow(c) then 0xfffd else c] + Scalars(u[1..]);
    } else {
      assert IsHigh(u[0]) && IsLow(u[1]);
    }
  }

  /** Decoding distributes over exactly the cuts that separate no pair. */
  lemma {:induction false} ScalarsSplitIff(a: Text, b: Text)
    ensures Scalars(a + b) == Scalars(a) + Scalars(b) <==> !InsidePair(a + b, |a|)
    decreases |a|
  {
    if a == [] {
      assert a + b == b;
    } else if 2 <= |a| && IsHigh(a[0]) && IsLow(a[1]) {
      assert (a + b)[2..] == a[2..] + b;
      ScalarsSplitIff(a[2..], b);
      ScalarsStep(a, b, 2);
    } else if |a| == 1 && InsidePair(a + b, 1) {
      PairIsOneScalar(a, b);
    } else {
      assert (a + b)[1..] == a[1..] + b;
      ScalarsSplitIff(a[1..], b);
      ScalarsStep(a, b, 1);
    }
  }

  lemma AppendsAgree(x: int, p: seq<int>, q: seq<int>, r: seq<int>)
    ensures [x] + p == [x] + q + r <==> p == q + r
  {
    assert [x] + q + r == [x] + (q + r);
    assert ([x] + p)[1..] == p && ([x] + (q + r))[1..] == q + r;
  }

  lemma ScalarsStep(a: Text, b: Text, n: nat)
    requires 1 <= n <= |a| && n <= 2 && (n == 2 <==> 2 <= |a| && IsHigh(a[0]) && IsLow(a[1]))
    requires |a| == 1 ==> !InsidePair(a + b, 1)
    ensures Scalars(a + b) == Scalars(a) + Scalars(b)
       <==> Scalars(a[n..] + b) == Scalars(a[n..]) + Scalars(b)
  {
    assert (a + b)[n..] == a[n..] + b;
    AppendsAgree(Scalars(a)[0], Scalars(a[n..] + b), Scalars(a[n..]), Scalars(b));
    assert Scalars(a) == [Scalars(a)[0]] + Scalars(a[n..]);
    assert Scalars(a + b) == [Scalars(a)[0]] + Scalars(a[n..] + b);
  }

  lemma PairIsOneScalar(a: Text, b: Text)
    requires |a| == 1 && InsidePair(a + b, 1)
    ensures Scalars(a + b) != Scalars(a) + Scalars(b)
  {
    assert (a + b)[2..] == b[1..] && a[1..] == [];
    assert |Scalars(a + b)| == 1 + |Scalars(b[1..])|;
    assert |Scalars(b)| == 1 + |Scalars(b[1..])|;
  }

  function ScalarsOf(chunks: seq<Text>): seq<seq<int>> {
    seq(|chunks|, i requires 0 <= i < |chunks| => Scalars(chunks[i]))
  }

  /** Frames encoded one by one carry the same text as the output encoded whole. */
  lemma {:induction false} ChunksCarryTheText(chunks: seq<Text>)
    requires forall i | 0 < i < |chunks| :: CleanCut(chunks[i - 1], chunks[i])
    ensures Joined(ScalarsOf(chunks)) == Scalars(Joined(chunks))
  {
    var n := |chunks| - 1;
    if 0 <= n {
      ChunksCarryTheText(chunks[..n]);
      assert ScalarsOf(chunks)[..n] == ScalarsOf(chunks[..n]);
      if 0 < n {
        assert Joined(chunks[..n]) == Joined(chunks[..n][..n - 1]) + chunks[n - 1];
        assert CleanCut(chunks[n - 1], chunks[n]);
      }
      ScalarsSplitIff(Joined(chunks[..n]), chunks[n]);
    }
  }
}
