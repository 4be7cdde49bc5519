/**
Duplicate detection of provider events: each event is reduced to a list of fields, framed by length, hashed and
looked up among the last accepted ones.
*/
module Fingerprints {
  import opened Options

  type Bytes = seq<bv8>

  const FINGERPRINT_LIMIT: nat := 128
  const COLON: bv8 := 58
  const BAR: bv8 := 124

  /** The content hash of the framed fields, taken as injective. */
  datatype Digest = Digest(input: Bytes)

  // ---------------------------------------------------------------- framing

  predicate IsDigit(b: bv8) {
    48 <= b <= 57
  }

  function DigitByte(d: nat): (b: bv8)
    requires d < 10
    ensures IsDigit(b) && b as int == 48 + d
  {
    (48 + d) as bv8
  }

  /** The decimal numeral of a length. */
  function Decimal(n: nat): (s: Bytes)
    ensures s != [] && forall b <- s :: IsDigit(b)
  {
    if n < 10 then [DigitByte(n)] else Decimal(n / 10) + [DigitByte(n % 10)]
  }

  function DigitValue(b: bv8): (d: nat)
    requires IsDigit(b)
    ensures d < 10 && d == b as int - 48
  {
    assert 48 <= b as int;
    b as int - 48
  }

  function ValueOf(digits: Bytes): nat
    requires forall b <- digits :: IsDigit(b)
  {
    if digits == [] then 0
    else
      var n := |digits| - 1;
      assert digits[n] in digits && forall b <- digits[..n] :: b in digits;
      10 * ValueOf(digits[..n]) + DigitValue(digits[n])
  }

  lemma {:induction false} DecimalValue(n: nat)
    ensures ValueOf(Decimal(n)) == n
  {
    if n < 10 {
      assert [DigitByte(n)][..0] == [];
    } else {
      DecimalValue(n / 10);
      var s := Decimal(n);
      assert s[..|s| - 1] == Decimal(n / 10) && s[|s| - 1] == DigitByte(n % 10);
    }
  }

  /** One part: its byte length in decimal, a colon, the part and a bar. */
  function FramePart(part: Bytes): Bytes {
    Decimal(|part|) + [COLON] + part + [BAR]
  }

  function Frame(parts: seq<Bytes>): Bytes {
    if parts == [] then [] else FramePart(parts[0]) + Frame(parts[1..])
  }

  function DigitRun(s: Bytes): nat {
    if s == [] || !IsDigit(s[0]) then 0 else 1 + DigitRun(s[1..])
  }

  lemma {:induction false} DigitRunOf(a: Bytes, x: Bytes)
    requires forall d <- a :: IsDigit(d)
    ensures DigitRun(a + [COLON] + x) == |a|
  {
    if a != [] {
      assert a[0] in a && forall d <- a[1..] :: d in a;
      DigitRunOf(a[1..], x);
      assert (a + [COLON] + x)[1..] == a[1..] + [COLON] + x;
    }
  }

  /** The first byte that is not a digit ends the numeral. */
  lemma SameNumeral(a: Bytes, x: Bytes, b: Bytes, y: Bytes)
    requires (forall d <- a :: IsDigit(d)) && (forall d <- b :: IsDigit(d))
    requires a + [COLON] + x == b + [COLON] + y
    ensures a == b && x == y
  {
    var s := a + [COLON] + x;
    DigitRunOf(a, x);
    DigitRunOf(b, y);
    assert s[..|a|] == a && s[..|b|] == b;
    assert s[|a| + 1..] == x && s[|b| + 1..] == y;
  }

  lemma SamePart(a: Bytes, x: Bytes, b: Bytes, y: Bytes)
    requires FramePart(a) + x == FramePart(b) + y
    ensures a == b && x == y
  {
    var s, t := a + [BAR] + x, b + [BAR] + y;
    assert FramePart(a) + x == Decimal(|a|) + [COLON] + s;
    assert FramePart(b) + y == Decimal(|b|) + [COLON] + t;
    SameNumeral(Decimal(|a|), s, Decimal(|b|), t);
    DecimalValue(|a|);
    DecimalValue(|b|);
    assert s[..|a|] == a && t[..|b|] == b;
    assert s[|a| + 1..] == x && t[|b| + 1..] == y;
  }

  /** Framing is uniquely decodable, whatever the fields hold and however many there are. */
  lemma {:induction false} FrameIsInjective(a: seq<Bytes>, b: seq<Bytes>)
    requires Frame(a) == Frame(b)
    ensures a == b
  {
    if a != [] && b != [] {
      SamePart(a[0], Frame(a[1..]), b[0], Frame(b[1..]));
      FrameIsInjective(a[1..], b[1..]);
      assert a == [a[0]] + a[1..] && b == [b[0]] + b[1..];
    }
  }

  function DigestOf(fields: seq<Bytes>): Digest {
    Digest(Frame(fields))
  }

  // ---------------------------------------------------------------- the window

  /** supported says whether the event is of a kind that is observed at all. */
  datatype Event = Event(providerSession: Bytes, supported: bool, fields: seq<Bytes>)

  datatype Verdict = Accepted | Duplicate | OtherSession | Unsupported

  datatype Session = Session(
    provider: Option<Bytes>, fingerprints: seq<Digest>, fingerprintSet: set<Digest>)

  function NewSession(): Session {
    Session(None, [], {})
  }

  function Remember(s: Session, d: Digest): (Session, bool) {
    if d in s.fingerprintSet then (s, false)
    else
      var queue := s.fingerprints + [d];
      var known := s.fingerprintSet + {d};
      if FINGERPRINT_LIMIT < |queue| then (s.(fingerprints := queue[1..], fingerprintSet := known - {queue[0]}), true)
      else (s.(fingerprints := queue, fingerprintSet := known), true)
  }

  function Ingest(s: Session, e: Event): (Session, Verdict) {
    if s.provider.Some? && s.provider.value != e.providerSession then (s, OtherSession)
    else
      var bound := s.(provider := Some(e.providerSession));
      if !e.supported then (bound, Unsupported)
      else
        var (after, isNew) := Remember(bound, DigestOf(e.fields));
        (after, if isNew then Accepted else Duplicate)
  }

  /** The session after a series of events, and the fields of those accepted, in order. */
  function Run(events: seq<Event>): (Session, seq<seq<Bytes>>) {
    if events == [] then (NewSession(), [])
    else
      var n := |events| - 1;
      var (s, accepted) := Run(events[..n]);
      var (after, verdict) := Ingest(s, events[n]);
      (after, if verdict == Accepted then accepted + [events[n].fields] else accepted)
  }

  function Recent<T>(s: seq<T>): seq<T> {
    if FINGERPRINT_LIMIT < |s| then s[|s| - FINGERPRINT_LIMIT..] else s
  }

  predicate NoRepeats<T(==)>(s: seq<T>) {
    forall i, j | 0 <= i < j < |s| :: s[i] != s[j]
  }

  /** The queue holds the digests of the recent events, each once, and the set holds the same. */
  predicate Agrees(s: Session, accepted: seq<seq<Bytes>>) {
    && |s.fingerprints| == |Recent(accepted)|
    && (forall i | 0 <= i < |s.fingerprints| :: s.fingerprints[i] == DigestOf(Recent(accepted)[i]))
    && NoRepeats(s.fingerprints)
    && s.fingerprintSet == set d | d in s.fingerprints
  }

  lemma DigestKnownIff(s: Session, accepted: seq<seq<Bytes>>, fields: seq<Bytes>)
    requires Agrees(s, accepted)
    ensures DigestOf(fields) in s.fingerprintSet <==> fields in Recent(accepted)
  {
    if DigestOf(fields) in s.fingerprintSet {
      var i :| 0 <= i < |s.fingerprints| && s.fingerprints[i] == DigestOf(fields);
      FrameIsInjective(fields, Recent(accepted)[i]);
    }
    if fields in Recent(accepted) {
      var i :| 0 <= i < |Recent(accepted)| && Recent(accepted)[i] == fields;
      assert s.fingerprints[i] in s.fingerprints;
    }
  }

  lemma DropFirst(queue: seq<Digest>)
    requires NoRepeats(queue) && queue != []
    ensures (set d | d in queue) - {queue[0]} == set d | d in queue[1..]
  {
    assert queue == [queue[0]] + queue[1..];
    assert forall i | 0 <= i < |queue| - 1 :: queue[1..][i] == queue[i + 1] != queue[0];
  }

  lemma RecentAppend<T>(s: seq<T>, x: T)
    ensures Recent(s + [x]) == if FINGERPRINT_LIMIT < |Recent(s) + [x]| then (Recent(s) + [x])[1..] else Recent(s) + [x]
  {
  }

  lemma RememberAgrees(s: Session, accepted: seq<seq<Bytes>>, fields: seq<Bytes>)
    requires Agrees(s, accepted) && fields !in Recent(accepted)
    ensures Agrees(Remember(s, DigestOf(fields)).0, accepted + [fields])
  {
    DigestKnownIff(s, accepted, fields);
    RecentAppend(accepted, fields);
    var queue := s.fingerprints + [DigestOf(fields)];
    assert NoRepeats(queue);
    assert (set d | d in queue) == s.fingerprintSet + {DigestOf(fields)};
    DropFirst(queue);
  }

  lemma IngestAgrees(s: Session, accepted: seq<seq<Bytes>>, e: Event)
    requires Agrees(s, accepted)
    ensures var (after, verdict) := Ingest(s, e);
            Agrees(after, if verdict == Accepted then accepted + [e.fields] else accepted)
  {
    DigestKnownIff(s, accepted, e.fields);
    if e.fields !in Recent(accepted) {
      RememberAgrees(s.(provider := Some(e.providerSession)), accepted, e.fields);
    }
  }

  lemma {:induction false} RunAgrees(events: seq<Event>)
    ensures Agrees(Run(events).0, Run(events).1)
  {
    if events != [] {
      var n := |events| - 1;
      RunAgrees(events[..n]);
      IngestAgrees(Run(events[..n]).0, Run(events[..n]).1, events[n]);
    }
  }

  /**
  After any series of events, an event of the same provider session and of a supported kind is a duplicate
  exactly when its list of fields is that of one of the last 128 accepted events.
  */
  lemma DuplicateIff(events: seq<Event>, e: Event)
    ensures var (s, accepted) := Run(events);
            Ingest(s, e).1 == Duplicate
            <==> (s.provider.None? || s.provider.value == e.providerSession) && e.supported
                 && e.fields in Recent(accepted)
  {
    RunAgrees(events);
    DigestKnownIff(Run(events).0, Run(events).1, e.fields);
  }

  // ---------------------------------------------------------------- the object

  class ObservedSession {
    var providerSessionId: Option<Bytes>
    var fingerprints: seq<Digest>
    var fingerprintSet: set<Digest>
    ghost var events: seq<Event>

    ghost predicate Valid()
      reads this
    {
      Session(providerSessionId, fingerprints, fingerprintSet) == Run(events).0
    }

    constructor ()
      ensures Valid() && events == []
    {
      providerSessionId, fingerprints, fingerprintSet, events := None, [], {}, [];
    }

    method RememberFingerprint(fingerprint: Digest) returns (isNew: bool)
      modifies this`fingerprints, this`fingerprintSet
      ensures (Session(providerSessionId, fingerprints, fingerprintSet), isNew)
           == Remember(old(Session(providerSessionId, fingerprints, fingerprintSet)), fingerprint)
    {
      if fingerprint in fingerprintSet {
        return false;
      }
      fingerprints := fingerprints + [fingerprint];
      fingerprintSet := fingerprintSet + {fingerprint};
      if FINGERPRINT_LIMIT < |fingerprints| {
        var removed := fingerprints[0];
        fingerprints := fingerprints[1..];
        fingerprintSet := fingerprintSet - {removed};
      }
      return true;
    }

    method IngestEvent(e: Event) returns (verdict: Verdict)
      requires Valid()
      modifies this
      ensures Valid() && events == old(events) + [e]
      ensures verdict == Duplicate <==>
                old(providerSessionId.None? || providerSessionId.value == e.providerSession) && e.supported
                && e.fields in Recent(old(Run(events).1))
      ensures Run(events).1 == old(Run(events).1) + if verdict == Accepted then [e.fields] else []
    {
      DuplicateIff(events, e);
      events := events + [e];
      assert events[..|events| - 1] == old(events);
      if providerSessionId.Some? && providerSessionId.value != e.providerSession {
        return OtherSession;
      }
      providerSessionId := Some(e.providerSession);
      if !e.supported {
        return Unsupported;
      }
      var isNew := RememberFingerprint(DigestOf(e.fields));
      return if isNew then Accepted else Duplicate;
    }
  }
}
