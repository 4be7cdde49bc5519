/** The observed state of one queue source, and how a read or a watch failure changes it. */
module QueueObservation {
  import opened Options
  import StableRead

  type Time = nat
  type Hash = StableRead.Digest

  datatype Status =
    | Pending | Stable | Empty | Missing | UnsafeType | Oversized | InvalidUtf8 | Changing | ReadError | WatchError

  datatype ItemType = Question | Approval | Failure | Review | Unknown

  datatype Candidate = Candidate(itemId: string, itemType: ItemType, confidence: nat)

  datatype Diagnostic = Diagnostic(code: string, message: string)

  datatype Classification = Classification(
    status: string, boundary: string, candidate: Option<Candidate>, diagnostics: seq<Diagnostic>)

  datatype Problem = Problem(code: string, message: string)

  /** What a read, or a watch failure, reports. */
  datatype Reading = Reading(
    status: Status, byteLength: Option<nat>, modifiedAt: Option<nat>, contentHash: Option<Hash>,
    text: Option<string>, error: Option<Problem>)

  datatype Definition = Definition(id: string, directory: string)

  datatype Observation = Observation(
    revision: nat, status: Status, observedAt: Time, byteLength: Option<nat>, modifiedAt: Option<nat>,
    contentHash: Option<Hash>, firstObservedAt: Option<Time>, error: Option<Problem>)

  datatype Source = Source(
    definition: Definition, observation: Observation, classification: Option<Classification>, text: Option<string>)

  function PendingSource(definition: Definition, now: Time): Source {
    Source(definition, Observation(1, Pending, now, None, None, None, None, None), None, None)
  }

  function CandidateOf(classification: Option<Classification>): Option<Candidate> {
    if classification.None? then None else classification.value.candidate
  }

  function ItemIdOf(candidate: Option<Candidate>): Option<string> {
    if candidate.None? then None else Some(candidate.value.itemId)
  }

  function TypeOf(candidate: Option<Candidate>): Option<ItemType> {
    if candidate.None? then None else Some(candidate.value.itemType)
  }

  function ConfidenceOf(candidate: Option<Candidate>): Option<nat> {
    if candidate.None? then None else Some(candidate.value.confidence)
  }

  predicate SameClassification(left: Option<Classification>, right: Option<Classification>) {
    if left.None? || right.None? then left == right
    else
      var (a, b) := (left.value, right.value);
      && a.status == b.status && a.boundary == b.boundary
      && ItemIdOf(a.candidate) == ItemIdOf(b.candidate)
      && TypeOf(a.candidate) == TypeOf(b.candidate)
      && ConfidenceOf(a.candidate) == ConfidenceOf(b.candidate)
      && |a.diagnostics| == |b.diagnostics|
      && forall i | 0 <= i < |a.diagnostics| ::
           a.diagnostics[i].code == b.diagnostics[i].code && a.diagnostics[i].message == b.diagnostics[i].message
  }

  predicate SameError(left: Option<Problem>, right: Option<Problem>) {
    if left.None? || right.None? then left == right
    else left.value.code == right.value.code && left.value.message == right.value.message
  }

  predicate SameEvidence(left: Source, right: Source) {
    && left.observation.status == right.observation.status
    && left.observation.byteLength == right.observation.byteLength
    && left.observation.modifiedAt == right.observation.modifiedAt
    && left.observation.contentHash == right.observation.contentHash
    && left.observation.firstObservedAt == right.observation.firstObservedAt
    && SameError(left.observation.error, right.observation.error)
    && SameClassification(left.classification, right.classification)
    && left.text == right.text
  }

  function FirstObserved(current: Source, next: Option<Classification>, now: Time): Option<Time> {
    var candidate := CandidateOf(next);
    if candidate.None? then None
    else if ItemIdOf(CandidateOf(current.classification)) == Some(candidate.value.itemId)
            && current.observation.firstObservedAt.Some?
    then current.observation.firstObservedAt
    else Some(now)
  }

  function ApplyRead(current: Source, reading: Reading, now: Time, classification: Option<Classification>): Source {
    var candidate := Source(
      current.definition,
      Observation(current.observation.revision, reading.status, now, reading.byteLength, reading.modifiedAt,
                  reading.contentHash, FirstObserved(current, classification, now), reading.error),
      classification,
      reading.text);
    if SameEvidence(current, candidate) then candidate
    else candidate.(observation := candidate.observation.(revision := current.observation.revision + 1))
  }

  function WatchFailure(): Reading {
    Reading(WatchError, None, None, None, None,
            Some(Problem("WATCH_FAILED", "The configured queue source parent could not be watched.")))
  }

  // ---------------------------------------------------------------- what a revision stands for

  /** Everything about a source but when it was last looked at and how often it changed. */
  datatype Evidence = Evidence(
    status: Status, byteLength: Option<nat>, modifiedAt: Option<nat>, contentHash: Option<Hash>,
    firstObservedAt: Option<Time>, error: Option<Problem>, classification: Option<Classification>,
    text: Option<string>)

  function EvidenceOf(s: Source): Evidence {
    var o := s.observation;
    Evidence(o.status, o.byteLength, o.modifiedAt, o.contentHash, o.firstObservedAt, o.error, s.classification, s.text)
  }

  lemma SameDiagnostics(a: seq<Diagnostic>, b: seq<Diagnostic>)
    requires |a| == |b|
    requires forall i | 0 <= i < |a| :: a[i].code == b[i].code && a[i].message == b[i].message
    ensures a == b
  {
    forall i | 0 <= i < |a| ensures a[i] == b[i] {
      assert a[i] == Diagnostic(a[i].code, a[i].message);
    }
  }

  /** The field by field comparison is equality of evidence. */
  lemma SameEvidenceIff(a: Source, b: Source)
    ensures SameEvidence(a, b) <==> EvidenceOf(a) == EvidenceOf(b)
  {
    if SameEvidence(a, b) && a.classification.Some? {
      SameDiagnostics(a.classification.value.diagnostics, b.classification.value.diagnostics);
    }
  }

  /** A later state of a source: the revision never falls, and if it stayed so did all the evidence. */
  predicate Later(a: Source, b: Source) {
    && a.definition == b.definition
    && a.observation.revision <= b.observation.revision
    && (a.observation.revision == b.observation.revision ==> EvidenceOf(a) == EvidenceOf(b))
  }

  lemma LaterTransitive(a: Source, b: Source, c: Source)
    requires Later(a, b) && Later(b, c)
    ensures Later(a, c)
  {
  }

  /** The revision moves, by one, exactly when the evidence does. */
  lemma ReadAdvances(current: Source, reading: Reading, now: Time, classification: Option<Classification>)
    ensures var next := ApplyRead(current, reading, now, classification);
            && Later(current, next)
            && next.observation.revision
               == current.observation.revision + (if EvidenceOf(next) == EvidenceOf(current) then 0 else 1)
            && next.classification == classification && next.text == reading.text
            && next.observation.observedAt == now
            && next.observation.status == reading.status && next.observation.contentHash == reading.contentHash
            && next.observation.byteLength == reading.byteLength && next.observation.modifiedAt == reading.modifiedAt
            && next.observation.error == reading.error
  {
    var next := ApplyRead(current, reading, now, classification);
    SameEvidenceIff(current, next);
    SameEvidenceIff(current, next.(observation := next.observation.(revision := current.observation.revision)));
  }

  /** The same reading again, at any later time, changes nothing but the time of the last look. */
  lemma RereadIsQuiet(current: Source, reading: Reading, now: Time, later: Time, classification: Option<Classification>)
    ensures var next := ApplyRead(current, reading, now, classification);
            ApplyRead(next, reading, later, classification)
            == next.(observation := next.observation.(observedAt := later))
  {
    var next := ApplyRead(current, reading, now, classification);
    SameEvidenceIff(next, next.(observation := next.observation.(observedAt := later)));
  }
}
