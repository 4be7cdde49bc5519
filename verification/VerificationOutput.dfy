/** Bounded capture of a verification process's output: all of it, or its two ends around a marker. */
module VerificationOutput {
  import opened Options

  type Bytes = seq<bv8>

  /** Unicode scalar values, as iterating a string yields them. */
  type Scalar = c: int | 0 <= c < 0x110000
  type Text = seq<Scalar>

  const MAX_OUTPUT_BYTES: nat := 24576

  /** The UTF-8 form of the marker line, which holds two ellipses of three bytes each. */
  const MARKER_BYTES: nat := 52

  const EDGE_BYTES: nat := (MAX_OUTPUT_BYTES - MARKER_BYTES) / 2

  // ---------------------------------------------------------------- capture

  datatype Captured = Captured(complete: Option<Bytes>, prefix: Bytes, tail: Bytes)

  function Front(bytes: Bytes, n: nat): Bytes {
    if n <= |bytes| then bytes[..n] else bytes
  }

  function Back(bytes: Bytes, n: nat): Bytes {
    if n <= |bytes| then bytes[|bytes| - n..] else bytes
  }

  /** What is kept of a whole stream. */
  function Kept(stream: Bytes): Captured {
    if |stream| <= MAX_OUTPUT_BYTES then Captured(Some(stream), [], [])
    else Captured(None, Front(stream, EDGE_BYTES), Back(stream, EDGE_BYTES))
  }

  function AppendTail(previous: Bytes, chunk: Bytes, n: nat): Bytes {
    if n <= |chunk| then chunk[|chunk| - n..] else Back(previous + chunk, n)
  }

  function Append(c: Captured, chunk: Bytes): Captured {
    if chunk == [] then c
    else
      match c.complete
      case Some(complete) =>
        if |complete| + |chunk| <= MAX_OUTPUT_BYTES then Captured(Some(complete + chunk), c.prefix, c.tail)
        else Captured(None, Front(complete + Front(chunk, EDGE_BYTES), EDGE_BYTES), AppendTail(complete, chunk, EDGE_BYTES))
      case None => c.(tail := AppendTail(c.tail, chunk, EDGE_BYTES))
  }

  /** Keeping the last n bytes of the kept tail and a chunk keeps the last n bytes of everything. */
  lemma TailOfTail(stream: Bytes, chunk: Bytes, n: nat)
    ensures AppendTail(Back(stream, n), chunk, n) == Back(stream + chunk, n)
  {
  }

  lemma FrontOfFront(stream: Bytes, chunk: Bytes, n: nat)
    ensures Front(stream + Front(chunk, n), n) == Front(stream + chunk, n)
  {
  }

  lemma FrontGrows(stream: Bytes, chunk: Bytes, n: nat)
    requires n <= |stream|
    ensures Front(stream + chunk, n) == Front(stream, n)
  {
  }

  lemma AppendKeeps(stream: Bytes, chunk: Bytes)
    ensures Append(Kept(stream), chunk) == Kept(stream + chunk)
  {
    if chunk == [] {
      assert stream + chunk == stream;
    } else if |stream| <= MAX_OUTPUT_BYTES {
      FrontOfFront(stream, chunk, EDGE_BYTES);
      TailIsWhole(stream, chunk, EDGE_BYTES);
    } else {
      FrontGrows(stream, chunk, EDGE_BYTES);
      TailOfTail(stream, chunk, EDGE_BYTES);
    }
  }

  lemma TailIsWhole(stream: Bytes, chunk: Bytes, n: nat)
    ensures AppendTail(stream, chunk, n) == Back(stream + chunk, n)
  {
  }

  function Joined(chunks: seq<Bytes>): Bytes {
    if chunks == [] then [] else Joined(chunks[..|chunks| - 1]) + chunks[|chunks| - 1]
  }

  function AppendAll(chunks: seq<Bytes>): Captured {
    if chunks == [] then Captured(Some([]), [], [])
    else Append(AppendAll(chunks[..|chunks| - 1]), chunks[|chunks| - 1])
  }

  /** The capture depends on the stream alone, not on how it was cut into chunks. */
  lemma {:induction false} CaptureIsOfStream(chunks: seq<Bytes>)
    ensures AppendAll(chunks) == Kept(Joined(chunks))
  {
    if chunks != [] {
      var n := |chunks| - 1;
      CaptureIsOfStream(chunks[..n]);
      AppendKeeps(Joined(chunks[..n]), chunks[n]);
    }
  }

  // ---------------------------------------------------------------- normalisation

  function ReplacePairs(text: Text): Text {
    if text == [] then []
    else if 2 <= |text| && text[0] == 13 && text[1] == 10 then [10] + ReplacePairs(text[2..])
    else [text[0]] + ReplacePairs(text[1..])
  }

  predicate IsPlain(c: Scalar) {
    c == 9 || c == 10 || (0x1f < c && c != 0x7f)
  }

  function Cleaned(c: Scalar): Scalar {
    if c == 13 then 10 else if IsPlain(c) then c else 32
  }

  function Normalise(text: Text): Text {
    var lines := ReplacePairs(text);
    seq(|lines|, i requires 0 <= i < |lines| => Cleaned(lines[i]))
  }

  /** Bytes of a scalar in UTF-8 (section 3.9 of the Unicode Standard). */
  function Utf8Size(c: Scalar): nat {
    if c < 0x80 then 1 else if c < 0x800 then 2 else if c < 0x10000 then 3 else 4
  }

  /** The UTF-8 form itself (table 3-6 of the Unicode Standard): a lead byte and continuation bytes of six bits. */
  function Utf8(c: Scalar): seq<int> {
    var a := c / 64;
    var b := a / 64;
    if c <= 0x7f then [c]
    else if c <= 0x7ff then [0xc0 + a, 0x80 + c % 64]
    else if c <= 0xffff then [0xe0 + b, 0x80 + a % 64, 0x80 + c % 64]
    else [0xf0 + b / 64, 0x80 + b % 64, 0x80 + a % 64, 0x80 + c % 64]
  }

  /** The character that a form of this many bytes stands for. */
  function Decoded(u: seq<int>): int
    requires 1 <= |u| <= 4
  {
    match |u|
    case 1 => u[0]
    case 2 => (u[0] - 0xc0) * 64 + (u[1] - 0x80)
    case 3 => ((u[0] - 0xe0) * 64 + (u[1] - 0x80)) * 64 + (u[2] - 0x80)
    case _ => (((u[0] - 0xf0) * 64 + (u[1] - 0x80)) * 64 + (u[2] - 0x80)) * 64 + (u[3] - 0x80)
  }

  /** The form is made of bytes, tells the character, is no longer than needed, and has the size that is counted. */
  lemma Utf8SizeIsTrue(c: Scalar)
    ensures 1 <= |Utf8(c)| == Utf8Size(c) <= 4 && Decoded(Utf8(c)) == c
    ensures forall i | 0 < i < |Utf8(c)| :: 0x80 <= Utf8(c)[i] < 0xc0
    ensures var lead := Utf8(c)[0];
            match |Utf8(c)|
            case 1 => lead < 0x80
            case 2 => 0xc2 <= lead < 0xe0
            case 3 => 0xe0 <= lead < 0xf0 && (lead == 0xe0 ==> 0xa0 <= Utf8(c)[1])
            case _ => 0xf0 <= lead < 0xf5 && (lead == 0xf0 ==> 0x90 <= Utf8(c)[1])
  {
    var a := c / 64;
    var b := a / 64;
    assert c == a * 64 + c % 64 && a == b * 64 + a % 64 && b == b / 64 * 64 + b % 64;
  }

  function Utf8Length(text: Text): nat {
    if text == [] then 0 else Utf8Length(text[..|text| - 1]) + Utf8Size(text[|text| - 1])
  }

  lemma {:induction false} PlainHasNoPairs(text: Text)
    requires forall c <- text :: IsPlain(c)
    ensures ReplacePairs(text) == text
  {
    if text != [] {
      assert text[0] in text && forall c <- text[1..] :: c in text;
      PlainHasNoPairs(text[1..]);
    }
  }

  /** The result has no carriage return and no control character but tab and newline, and is final. */
  lemma NormaliseIsClean(text: Text)
    ensures forall c <- Normalise(text) :: IsPlain(c)
    ensures Normalise(Normalise(text)) == Normalise(text)
  {
    var clean := Normalise(text);
    PlainHasNoPairs(clean);
    assert forall i | 0 <= i < |clean| :: clean[i] in clean && Cleaned(clean[i]) == clean[i];
  }

  // ---------------------------------------------------------------- normalisation, told from its pieces

  /** One character by itself. */
  lemma NormaliseOne(c: Scalar)
    ensures Normalise([c])
         == [if c == 13 then 10 else if (c <= 0x1f && c != 9 && c != 10) || c == 0x7f then 32 else c]
  {
    assert ReplacePairs([c]) == [c] + ReplacePairs([]);
  }

  lemma NormalisePair()
    ensures Normalise([13, 10]) == [10]
  {
    assert ReplacePairs([13, 10]) == [10] + ReplacePairs([]);
  }

  /** A carriage return and the line feed that belongs to it are kept together. */
  predicate CutsPair(a: Text, b: Text) {
    a != [] && b != [] && a[|a| - 1] == 13 && b[0] == 10
  }

  lemma PairHead(rest: Text)
    ensures ReplacePairs([13, 10] + rest) == [10] + ReplacePairs(rest)
  {
    assert ([13, 10] + rest)[2..] == rest;
  }

  lemma OneHead(c: Scalar, rest: Text)
    requires !(c == 13 && rest != [] && rest[0] == 10)
    ensures ReplacePairs([c] + rest) == [c] + ReplacePairs(rest)
  {
    assert ([c] + rest)[1..] == rest;
  }

  lemma Associates(a: Text, b: Text, c: Text)
    ensures a + (b + c) == (a + b) + c
  {
  }

  lemma {:induction false} PairsSplit(a: Text, b: Text)
    requires !CutsPair(a, b)
    ensures ReplacePairs(a + b) == ReplacePairs(a) + ReplacePairs(b)
    decreases |a|
  {
    if a == [] {
      assert a + b == b;
    } else if 2 <= |a| && a[0] == 13 && a[1] == 10 {
      var rest := a[2..];
      assert a == [13, 10] + rest && a + b == [13, 10] + (rest + b);
      PairsSplit(rest, b);
      PairHead(rest);
      PairHead(rest + b);
      Associates([10], ReplacePairs(rest), ReplacePairs(b));
    } else {
      var rest := a[1..];
      assert a == [a[0]] + rest && a + b == [a[0]] + (rest + b);
      PairsSplit(rest, b);
      OneHead(a[0], rest);
      OneHead(a[0], rest + b);
      Associates([a[0]], ReplacePairs(rest), ReplacePairs(b));
    }
  }

  /** Text may be normalised part by part wherever the cut is not inside a pair. */
  lemma NormaliseSplits(a: Text, b: Text)
    requires !CutsPair(a, b)
    ensures Normalise(a + b) == Normalise(a) + Normalise(b)
  {
    PairsSplit(a, b);
  }

  /** Everything a normalisation has to do. */
  ghost predicate Normalises(f: Text -> Text) {
    && f([]) == [] && f([13, 10]) == [10]
    && (forall c :: f([c]) == [if c == 13 then 10 else if (c <= 0x1f && c != 9 && c != 10) || c == 0x7f then 32 else c])
    && (forall a, b {:trigger f(a + b)} :: !CutsPair(a, b) ==> f(a + b) == f(a) + f(b))
  }

  lemma NormaliseDoes()
    ensures Normalises(Normalise)
  {
    NormalisePair();
    forall c ensures Normalise([c]) == [if c == 13 then 10 else if (c <= 0x1f && c != 9 && c != 10) || c == 0x7f then 32 else c] {
      NormaliseOne(c);
    }
    forall a, b | !CutsPair(a, b) ensures Normalise(a + b) == Normalise(a) + Normalise(b) {
      NormaliseSplits(a, b);
    }
  }

  /** Only one function does. */
  lemma {:induction false} NormaliseIsUnique(f: Text -> Text, text: Text)
    requires Normalises(f)
    ensures f(text) == Normalise(text)
    decreases |text|
  {
    if text != [] {
      var n := if 2 <= |text| && text[0] == 13 && text[1] == 10 then 2 else 1;
      var first, rest := text[..n], text[n..];
      assert text == first + rest && !CutsPair(first, rest);
      NormaliseIsUnique(f, rest);
      NormaliseSplits(first, rest);
      if n == 2 {
        assert first == [13, 10];
        NormalisePair();
      } else {
        assert first == [text[0]];
        NormaliseOne(text[0]);
      }
    }
  }

  lemma {:induction false} Utf8LengthFront(text: Text)
    requires text != []
    ensures Utf8Length(text) == Utf8Size(text[0]) + Utf8Length(text[1..])
  {
    var n := |text| - 1;
    if 0 < n {
      Utf8LengthFront(text[..n]);
      assert text[1..][..n - 1] == text[..n][1..];
    }
  }

  lemma {:induction false} PairsShrink(text: Text)
    ensures Utf8Length(ReplacePairs(text)) <= Utf8Length(text)
  {
    if text != [] {
      Utf8LengthFront(text);
      Utf8LengthFront(ReplacePairs(text));
      if 2 <= |text| && text[0] == 13 && text[1] == 10 {
        Utf8LengthFront(text[1..]);
        assert text[1..][1..] == text[2..];
        PairsShrink(text[2..]);
      } else {
        PairsShrink(text[1..]);
      }
    }
  }

  lemma {:induction false} CleaningShrinks(text: Text, clean: Text)
    requires |clean| == |text| && forall i | 0 <= i < |text| :: clean[i] == Cleaned(text[i])
    ensures Utf8Length(clean) <= Utf8Length(text)
  {
    var n := |text| - 1;
    if 0 <= n {
      CleaningShrinks(text[..n], clean[..n]);
    }
  }

  lemma NormaliseShrinks(text: Text)
    ensures Utf8Length(Normalise(text)) <= Utf8Length(text)
  {
    PairsShrink(text);
    CleaningShrinks(ReplacePairs(text), Normalise(text));
  }

  // ---------------------------------------------------------------- the byte bound

  /** r is the longest prefix of value that fits. */
  predicate IsLongestPrefix(r: Text, value: Text, bound: nat) {
    && r <= value && Utf8Length(r) <= bound
    && (r != value ==> bound < Utf8Length(value[..|r| + 1]))
  }

  lemma {:induction false} LongerTakesMore(value: Text, i: nat, j: nat)
    requires i <= j <= |value|
    ensures Utf8Length(value[..i]) <= Utf8Length(value[..j])
    decreases j - i
  {
    if i < j {
      LongerTakesMore(value, i, j - 1);
      assert value[..j][..j - 1] == value[..j - 1];
    }
  }

  lemma LongestPrefixIsUnique(a: Text, b: Text, value: Text, bound: nat)
    requires IsLongestPrefix(a, value, bound) && IsLongestPrefix(b, value, bound)
    ensures a == b
  {
    assert a == value[..|a|] && b == value[..|b|];
    if |a| < |b| {
      LongerTakesMore(value, |a| + 1, |b|);
    } else if |b| < |a| {
      LongerTakesMore(value, |b| + 1, |a|);
    }
  }

  method BoundUtf8Text(value: Text) returns (bounded: Text)
    ensures IsLongestPrefix(bounded, value, MAX_OUTPUT_BYTES)
  {
    if Utf8Length(value) <= MAX_OUTPUT_BYTES {
      return value;
    }
    var usedBytes, i := 0, 0;
    bounded := [];
    while i < |value|
      invariant 0 <= i <= |value| && bounded == value[..i]
      invariant usedBytes == Utf8Length(bounded) <= MAX_OUTPUT_BYTES
    {
      var size := Utf8Size(value[i]);
      assert value[..i + 1][..i] == value[..i];
      if MAX_OUTPUT_BYTES < usedBytes + size {
        return;
      }
      bounded := bounded + [value[i]];
      usedBytes := usedBytes + size;
      i := i + 1;
    }
    assert value[..i] == value;
  }

  // ---------------------------------------------------------------- the object

  function Raw(c: Captured, marker: Bytes): Bytes {
    match c.complete
    case Some(complete) => complete
    case None => c.prefix + marker + c.tail
  }

  class VerificationOutputCapture {
    var complete: Option<Bytes>
    var prefix: Bytes
    var tail: Bytes
    ghost var stream: Bytes

    ghost function State(): Captured
      reads this
    {
      Captured(complete, prefix, tail)
    }

    ghost predicate Valid()
      reads this
    {
      State() == Kept(stream)
    }

    constructor ()
      ensures Valid() && stream == []
    {
      complete, prefix, tail, stream := Some([]), [], [], [];
    }

    method AppendChunk(chunk: Bytes)
      requires Valid()
      modifies this
      ensures Valid() && stream == old(stream) + chunk
    {
      AppendKeeps(stream, chunk);
      stream := stream + chunk;
      if chunk == [] {
        return;
      }
      if complete.Some? {
        if |complete.value| + |chunk| <= MAX_OUTPUT_BYTES {
          complete := Some(complete.value + chunk);
          return;
        }
        prefix := Front(complete.value + Front(chunk, EDGE_BYTES), EDGE_BYTES);
        tail := AppendTail(complete.value, chunk, EDGE_BYTES);
        complete := None;
        return;
      }
      tail := AppendTail(tail, chunk, EDGE_BYTES);
    }

    /** decode is lossy UTF-8 decoding, marker the bytes of the marker line. */
    method Finish(decode: Bytes -> Text, marker: Bytes) returns (text: Text, truncated: bool)
      requires Valid() && |marker| == MARKER_BYTES
      ensures truncated <==> MAX_OUTPUT_BYTES < |stream|
      ensures var raw := if truncated then stream[..EDGE_BYTES] + marker + stream[|stream| - EDGE_BYTES..] else stream;
              && |raw| <= MAX_OUTPUT_BYTES
              && IsLongestPrefix(text, Normalise(decode(raw)), MAX_OUTPUT_BYTES)
              && (Utf8Length(decode(raw)) <= MAX_OUTPUT_BYTES ==> text == Normalise(decode(raw)))
    {
      truncated := complete.None?;
      var raw := Raw(Captured(complete, prefix, tail), marker);
      var value := Normalise(decode(raw));
      text := BoundUtf8Text(value);
      NormaliseShrinks(decode(raw));
      if Utf8Length(value) <= MAX_OUTPUT_BYTES {
        assert value <= value && value[..|value|] == value;
        assert IsLongestPrefix(value, value, MAX_OUTPUT_BYTES);
        LongestPrefixIsUnique(text, value, value, MAX_OUTPUT_BYTES);
      }
    }
  }
}
