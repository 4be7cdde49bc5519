/**
The queue observer: overlapping reads of the configured files, retried while a file is changing, guarded by a
generation that every change of configuration moves on and by a sequence per source that every read and every
watch failure moves on.
*/
module QueueObserver {
  import opened Options
  import opened QueueObservation
  import StableRead

  datatype Phase = InRead | Delaying | Closed

  /** A read under way: where it may be applied, and how many retries it has used. */
  datatype Call = Call(source: string, generation: nat, sequence: nat, attempt: nat, phase: Phase)

  datatype ConfigStatus = ConfigReady(revision: nat, sources: seq<Definition>) | NotReady

  /**
  order lists the keys of states by insertion. calls has one entry for every read and for every source of a
  watch failure, in the order they began.
  */
  datatype Observer = Observer(
    disposed: bool, generation: nat, workspaceRevision: Option<nat>, order: seq<string>,
    states: map<string, Source>, sequences: map<string, nat>, calls: seq<Call>)

  type Classify = (string, Hash, string) -> Classification

  datatype Event =
    | Begin(source: string)
    | Returns(call: nat, reading: Reading, now: Time)
    | Resumes(call: nat)
    | WatchFails(directory: string, now: Time)
    | Configures(config: ConfigStatus, now: Time)
    | Disposes

  function New(): Observer {
    Observer(false, 0, None, [], map[], map[], [])
  }

  function SequenceOf(o: Observer, source: string): nat {
    if source in o.sequences then o.sequences[source] else 0
  }

  /** A read starts, or a watch failure interrupts: either takes the next sequence number of its source. */
  function Opens(o: Observer, source: string, phase: Phase): Observer {
    var sequence := SequenceOf(o, source) + 1;
    o.(sequences := o.sequences[source := sequence],
       calls := o.calls + [Call(source, o.generation, sequence, 0, phase)])
  }

  predicate IsCurrent(o: Observer, c: Call) {
    !o.disposed && c.generation == o.generation && c.source in o.sequences && o.sequences[c.source] == c.sequence
  }

  function Moves(o: Observer, call: nat, c: Call): Observer
    requires call < |o.calls|
  {
    o.(calls := o.calls[call := c])
  }

  function ClassificationFor(classify: Classify, current: Source, reading: Reading): Option<Classification> {
    if reading.status != Stable || reading.contentHash.None? || reading.text.None? then None
    else if && current.observation.status == Stable
            && current.observation.contentHash == reading.contentHash
            && current.classification.Some?
    then current.classification
    else Some(classify(current.definition.id, reading.contentHash.value, reading.text.value))
  }

  predicate Applies(o: Observer, call: nat, reading: Reading) {
    && call < |o.calls| && o.calls[call].phase == InRead
    && !(reading.status == Changing && o.calls[call].attempt < 2)
    && IsCurrent(o, o.calls[call]) && o.calls[call].source in o.states
  }

  function Returned(classify: Classify, o: Observer, call: nat, reading: Reading, now: Time): Observer {
    if |o.calls| <= call || o.calls[call].phase != InRead then o
    else
      var c := o.calls[call];
      if reading.status == Changing && c.attempt < 2 then Moves(o, call, c.(phase := Delaying))
      else if !Applies(o, call, reading) then Moves(o, call, c.(phase := Closed))
      else
        var current := o.states[c.source];
        var next := ApplyRead(current, reading, now, ClassificationFor(classify, current, reading));
        Moves(o, call, c.(phase := Closed)).(states := o.states[c.source := next])
  }

  function Resumed(o: Observer, call: nat): Observer {
    if |o.calls| <= call || o.calls[call].phase != Delaying then o
    else
      var c := o.calls[call];
      Moves(o, call, if IsCurrent(o, c) then c.(phase := InRead, attempt := c.attempt + 1) else c.(phase := Closed))
  }

  function FailSource(o: Observer, source: string, now: Time): Observer
    requires source in o.states
  {
    Opens(o, source, Closed)
    .(states := o.states[source := ApplyRead(o.states[source], WatchFailure(), now, None)])
  }

  /** The watch failure of a directory, one listed source after another. */
  function FailSources(o: Observer, sources: seq<string>, directory: string, now: Time): Observer {
    if sources == [] then o
    else
      var before := FailSources(o, sources[..|sources| - 1], directory, now);
      var source := sources[|sources| - 1];
      if source in before.states && before.states[source].definition.directory == directory
      then FailSource(before, source, now) else before
  }

  function OrderOf(sources: seq<Definition>): seq<string> {
    if sources == [] then []
    else
      var n := |sources| - 1;
      var before := OrderOf(sources[..n]);
      if sources[n].id in before then before else before + [sources[n].id]
  }

  function PendingStates(sources: seq<Definition>, now: Time): map<string, Source> {
    if sources == [] then map[]
    else
      var n := |sources| - 1;
      PendingStates(sources[..n], now)[sources[n].id := PendingSource(sources[n], now)]
  }

  function Configured(o: Observer, config: ConfigStatus, now: Time): Observer {
    if o.disposed || (config.ConfigReady? && Some(config.revision) == o.workspaceRevision) then o
    else
      o.(generation := o.generation + 1,
         workspaceRevision := if config.ConfigReady? then Some(config.revision) else None,
         order := if config.ConfigReady? then OrderOf(config.sources) else [],
         states := if config.ConfigReady? then PendingStates(config.sources, now) else map[],
         sequences := map[])
  }

  function Disposed(o: Observer): Observer {
    if o.disposed then o
    else o.(disposed := true, generation := o.generation + 1, order := [], states := map[], sequences := map[])
  }

  function Step(classify: Classify, o: Observer, e: Event): Observer {
    match e
    case Begin(source) => if o.disposed || source !in o.states then o else Opens(o, source, InRead)
    case Returns(call, reading, now) => Returned(classify, o, call, reading, now)
    case Resumes(call) => Resumed(o, call)
    case WatchFails(directory, now) => FailSources(o, o.order, directory, now)
    case Configures(config, now) => Configured(o, config, now)
    case Disposes => Disposed(o)
  }

  function Run(classify: Classify, o: Observer, events: seq<Event>): Observer
    decreases |events|
  {
    if events == [] then o else Run(classify, Step(classify, o, events[0]), events[1..])
  }

  // ---------------------------------------------------------------- what the reader reports

  function FromReader(r: StableRead.Result): Reading {
    Reading(
      match r.status
      case Stable => Stable
      case Empty => Empty
      case Missing => Missing
      case UnsafeType => UnsafeType
      case Oversized => Oversized
      case InvalidUtf8 => InvalidUtf8
      case Changing => Changing
      case ReadError => ReadError,
      r.byteLength, r.modified, r.contentHash, r.text,
      if r.status == StableRead.ReadError then Some(Problem("READ_FAILED", "The configured queue source could not be read."))
      else None)
  }

  /** A stable reading comes with the hash of its bytes, their number and their text. */
  predicate Sound(reading: Reading, decode: StableRead.Bytes -> Option<string>) {
    reading.status == Stable ==>
      && reading.contentHash.Some? && reading.text.Some?
      && reading.text == decode(reading.contentHash.value.bytes)
      && reading.byteLength == Some(|reading.contentHash.value.bytes|)
  }

  predicate SoundEvents(events: seq<Event>, decode: StableRead.Bytes -> Option<string>) {
    forall e <- events :: e.Returns? ==> Sound(e.reading, decode)
  }

  /** Every reading is an answer of the reader, whose contract makes it coherent whatever happens to the file. */
  ghost predicate ReaderEvents(events: seq<Event>, decode: StableRead.Bytes -> Option<string>) {
    forall e <- events :: e.Returns? ==> FromCall(e.reading, decode)
  }

  ghost predicate FromCall(reading: Reading, decode: StableRead.Bytes -> Option<string>) {
    exists r: StableRead.Result :: StableRead.Coherent(r, decode) && reading == FromReader(r)
  }

  /** So what the observer is given by the reader is sound. */
  lemma ReaderIsSound(events: seq<Event>, decode: StableRead.Bytes -> Option<string>)
    requires ReaderEvents(events, decode)
    ensures SoundEvents(events, decode)
  {
    forall e | e in events && e.Returns? ensures Sound(e.reading, decode) {
      assert FromCall(e.reading, decode);
    }
  }

  // ---------------------------------------------------------------- an applied read is the latest

  predicate Ordered(calls: seq<Call>) {
    forall j, k | 0 <= j < k < |calls| ::
      calls[j].source == calls[k].source && calls[j].generation == calls[k].generation
      ==> calls[j].sequence < calls[k].sequence
  }

  predicate Numbered(o: Observer) {
    && Ordered(o.calls)
    && forall c <- o.calls ::
         && c.generation <= o.generation
         && (c.generation == o.generation ==> c.sequence <= SequenceOf(o, c.source))
  }

  lemma OpensKeepsNumbered(o: Observer, source: string, phase: Phase)
    requires Numbered(o)
    ensures Numbered(Opens(o, source, phase))
  {
    var o' := Opens(o, source, phase);
    forall j, k | 0 <= j < k < |o'.calls| && o'.calls[j].source == o'.calls[k].source
                  && o'.calls[j].generation == o'.calls[k].generation
      ensures o'.calls[j].sequence < o'.calls[k].sequence
    {
      assert o'.calls[j] in o.calls;
    }
  }

  lemma MovesKeepsNumbered(o: Observer, call: nat, c: Call)
    requires Numbered(o) && call < |o.calls|
    requires c == o.calls[call].(phase := c.phase, attempt := c.attempt)
    ensures Numbered(Moves(o, call, c))
  {
    assert o.calls[call] in o.calls;
    assert forall k | 0 <= k < |o.calls| ::
        o.calls[k] == Moves(o, call, c).calls[k].(phase := o.calls[k].phase, attempt := o.calls[k].attempt);
    forall d <- Moves(o, call, c).calls ensures d == c || d in o.calls {
    }
  }

  lemma {:induction false} FailSourcesKeepsNumbered(o: Observer, sources: seq<string>, directory: string, now: Time)
    requires Numbered(o)
    ensures Numbered(FailSources(o, sources, directory, now))
  {
    if sources != [] {
      var n := |sources| - 1;
      FailSourcesKeepsNumbered(o, sources[..n], directory, now);
      OpensKeepsNumbered(FailSources(o, sources[..n], directory, now), sources[n], Closed);
    }
  }

  lemma ReturnedKeepsNumbered(classify: Classify, o: Observer, call: nat, reading: Reading, now: Time)
    requires Numbered(o) && call < |o.calls|
    ensures Numbered(Returned(classify, o, call, reading, now))
  {
    var delaying, ended := o.calls[call].(phase := Delaying), o.calls[call].(phase := Closed);
    MovesKeepsNumbered(o, call, delaying);
    MovesKeepsNumbered(o, call, ended);
    var o' := Returned(classify, o, call, reading, now);
    assert o'.generation == o.generation && o'.sequences == o.sequences;
    assert o'.calls == o.calls || o'.calls == Moves(o, call, delaying).calls || o'.calls == Moves(o, call, ended).calls;
  }

  lemma ResumedKeepsNumbered(o: Observer, call: nat)
    requires Numbered(o)
    ensures Numbered(Resumed(o, call))
  {
    if call < |o.calls| && o.calls[call].phase == Delaying {
      var c := o.calls[call];
      MovesKeepsNumbered(o, call, c.(phase := InRead, attempt := c.attempt + 1));
      MovesKeepsNumbered(o, call, c.(phase := Closed));
    }
  }

  lemma ConfiguredKeepsNumbered(o: Observer, config: ConfigStatus, now: Time)
    requires Numbered(o)
    ensures Numbered(Configured(o, config, now)) && Numbered(Disposed(o))
  {
  }

  lemma StepKeepsNumbered(classify: Classify, o: Observer, e: Event)
    requires Numbered(o)
    ensures Numbered(Step(classify, o, e))
  {
    match e {
      case Begin(source) => OpensKeepsNumbered(o, source, InRead);
      case Returns(call, reading, now) =>
        if call < |o.calls| {
          ReturnedKeepsNumbered(classify, o, call, reading, now);
        }
      case Resumes(call) => ResumedKeepsNumbered(o, call);
      case WatchFails(directory, now) => FailSourcesKeepsNumbered(o, o.order, directory, now);
      case Configures(config, now) => ConfiguredKeepsNumbered(o, config, now);
      case Disposes => ConfiguredKeepsNumbered(o, NotReady, 0);
    }
  }

  lemma {:induction false} RunKeepsNumbered(classify: Classify, o: Observer, events: seq<Event>)
    requires Numbered(o)
    ensures Numbered(Run(classify, o, events))
    decreases |events|
  {
    if events != [] {
      StepKeepsNumbered(classify, o, events[0]);
      RunKeepsNumbered(classify, Step(classify, o, events[0]), events[1..]);
    }
  }

  /**
  Over every interleaving of reads, retries, watch failures and configuration changes: a read that is
  applied belongs to the current generation, and neither a read nor a watch failure of its source has begun
  since it did.
  */
  lemma AppliedIsLatest(classify: Classify, events: seq<Event>, call: nat, reading: Reading, later: nat)
    requires Applies(Run(classify, New(), events), call, reading)
    requires call < later < |Run(classify, New(), events).calls|
    ensures var o := Run(classify, New(), events);
            && o.calls[call].generation == o.generation
            && !(o.calls[later].source == o.calls[call].source && o.calls[later].generation == o.generation)
  {
    RunKeepsNumbered(classify, New(), events);
    var o := Run(classify, New(), events);
    assert o.calls[later] in o.calls;
  }

  // ---------------------------------------------------------------- revisions and classifications

  /** What is known of a source along every run. */
  predicate SourceInv(classify: Classify, decode: StableRead.Bytes -> Option<string>, id: string, s: Source) {
    var o := s.observation;
    && s.definition.id == id
    && (o.status == Stable ==>
          && o.contentHash.Some? && s.text.Some? && s.text == decode(o.contentHash.value.bytes)
          && o.byteLength == Some(|o.contentHash.value.bytes|)
          && s.classification == Some(classify(id, o.contentHash.value, s.text.value)))
    && (o.status != Stable ==> s.classification.None?)
    && (o.firstObservedAt.Some? <==> CandidateOf(s.classification).Some?)
  }

  predicate SourcesInv(classify: Classify, decode: StableRead.Bytes -> Option<string>, states: map<string, Source>) {
    forall id <- states :: SourceInv(classify, decode, id, states[id])
  }

  /** Caching loses nothing: the classification reused is the one the classifier would give now. */
  lemma ReadKeepsSource(
      classify: Classify, decode: StableRead.Bytes -> Option<string>, id: string, s: Source, reading: Reading, now: Time)
    requires SourceInv(classify, decode, id, s) && Sound(reading, decode)
    ensures SourceInv(classify, decode, id, ApplyRead(s, reading, now, ClassificationFor(classify, s, reading)))
    ensures Later(s, ApplyRead(s, reading, now, ClassificationFor(classify, s, reading)))
  {
    ReadAdvances(s, reading, now, ClassificationFor(classify, s, reading));
  }

  lemma FailureKeepsSource(
      classify: Classify, decode: StableRead.Bytes -> Option<string>, id: string, s: Source, now: Time)
    requires SourceInv(classify, decode, id, s)
    ensures SourceInv(classify, decode, id, ApplyRead(s, WatchFailure(), now, None))
    ensures Later(s, ApplyRead(s, WatchFailure(), now, None))
  {
    ReadAdvances(s, WatchFailure(), now, None);
  }

  /** All sources are still there, each in a later state. */
  predicate AllLater(a: map<string, Source>, b: map<string, Source>) {
    a.Keys == b.Keys && forall id <- a :: Later(a[id], b[id])
  }

  lemma AllLaterTransitive(a: map<string, Source>, b: map<string, Source>, c: map<string, Source>)
    requires AllLater(a, b) && AllLater(b, c)
    ensures AllLater(a, c)
  {
    forall id <- a ensures Later(a[id], c[id]) {
      LaterTransitive(a[id], b[id], c[id]);
    }
  }

  lemma FailSourceKeeps(
      classify: Classify, decode: StableRead.Bytes -> Option<string>, o: Observer, source: string, now: Time)
    requires SourcesInv(classify, decode, o.states) && source in o.states
    ensures var o' := FailSource(o, source, now);
            && SourcesInv(classify, decode, o'.states) && AllLater(o.states, o'.states)
            && o'.generation == o.generation && o'.disposed == o.disposed
            && o'.workspaceRevision == o.workspaceRevision
  {
    FailureKeepsSource(classify, decode, source, o.states[source], now);
  }

  lemma {:induction false} FailSourcesKeeps(
      classify: Classify, decode: StableRead.Bytes -> Option<string>, o: Observer, sources: seq<string>,
      directory: string, now: Time)
    requires SourcesInv(classify, decode, o.states)
    ensures var o' := FailSources(o, sources, directory, now);
            && SourcesInv(classify, decode, o'.states) && AllLater(o.states, o'.states)
            && o'.generation == o.generation && o'.disposed == o.disposed
            && o'.workspaceRevision == o.workspaceRevision
  {
    if sources != [] {
      var n := |sources| - 1;
      FailSourcesKeeps(classify, decode, o, sources[..n], directory, now);
      var before := FailSources(o, sources[..n], directory, now);
      if sources[n] in before.states {
        FailSourceKeeps(classify, decode, before, sources[n], now);
        AllLaterTransitive(o.states, before.states, FailSources(o, sources, directory, now).states);
      }
    }
  }

  lemma {:induction false} PendingStatesInv(
      classify: Classify, decode: StableRead.Bytes -> Option<string>, sources: seq<Definition>, now: Time)
    ensures SourcesInv(classify, decode, PendingStates(sources, now))
  {
    if sources != [] {
      PendingStatesInv(classify, decode, sources[..|sources| - 1], now);
    }
  }

  /** The generation moves on exactly when the states are replaced. */
  predicate Continues(a: Observer, b: Observer) {
    && a.generation <= b.generation
    && (a.generation == b.generation ==>
          AllLater(a.states, b.states) && a.workspaceRevision == b.workspaceRevision && a.disposed == b.disposed)
  }

  lemma ContinuesTransitive(a: Observer, b: Observer, c: Observer)
    requires Continues(a, b) && Continues(b, c)
    ensures Continues(a, c)
  {
    if a.generation == c.generation {
      AllLaterTransitive(a.states, b.states, c.states);
    }
  }

  lemma ReturnedContinues(
      classify: Classify, decode: StableRead.Bytes -> Option<string>, o: Observer, call: nat, reading: Reading, now: Time)
    requires SourcesInv(classify, decode, o.states) && Sound(reading, decode)
    ensures var o' := Returned(classify, o, call, reading, now);
            SourcesInv(classify, decode, o'.states) && Continues(o, o')
  {
    if Applies(o, call, reading) {
      var id := o.calls[call].source;
      ReadKeepsSource(classify, decode, id, o.states[id], reading, now);
    }
  }

  lemma ConfiguredContinues(
      classify: Classify, decode: StableRead.Bytes -> Option<string>, o: Observer, config: ConfigStatus, now: Time)
    requires SourcesInv(classify, decode, o.states)
    ensures SourcesInv(classify, decode, Configured(o, config, now).states) && Continues(o, Configured(o, config, now))
  {
    if config.ConfigReady? {
      PendingStatesInv(classify, decode, config.sources, now);
    }
  }

  lemma QuietContinues(classify: Classify, o: Observer, e: Event)
    requires e.Begin? || e.Resumes? || e.Disposes?
    ensures Continues(o, Step(classify, o, e))
    ensures Step(classify, o, e).states == o.states || Step(classify, o, e).states == map[]
  {
  }

  lemma StepContinues(classify: Classify, decode: StableRead.Bytes -> Option<string>, o: Observer, e: Event)
    requires SourcesInv(classify, decode, o.states)
    requires e.Returns? ==> Sound(e.reading, decode)
    ensures SourcesInv(classify, decode, Step(classify, o, e).states) && Continues(o, Step(classify, o, e))
  {
    match e {
      case Returns(call, reading, now) => ReturnedContinues(classify, decode, o, call, reading, now);
      case WatchFails(directory, now) => FailSourcesKeeps(classify, decode, o, o.order, directory, now);
      case Configures(config, now) => ConfiguredContinues(classify, decode, o, config, now);
      case _ => QuietContinues(classify, o, e);
    }
  }

  /**
  Within a generation the revision of a source never falls, and equal revisions mean equal status, length,
  hash, text, classification, error and time of first observation.
  */
  lemma {:induction false} RunContinues(
      classify: Classify, decode: StableRead.Bytes -> Option<string>, o: Observer, events: seq<Event>)
    requires SourcesInv(classify, decode, o.states) && SoundEvents(events, decode)
    ensures SourcesInv(classify, decode, Run(classify, o, events).states) && Continues(o, Run(classify, o, events))
    decreases |events|
  {
    if events != [] {
      assert events[0] in events && forall e <- events[1..] :: e in events;
      var o1 := Step(classify, o, events[0]);
      StepContinues(classify, decode, o, events[0]);
      RunContinues(classify, decode, o1, events[1..]);
      ContinuesTransitive(o, o1, Run(classify, o1, events[1..]));
    }
  }

  /** The cached classification of a stable source is what the classifier gives for its hash and text. */
  lemma ClassificationIsCurrent(
      classify: Classify, decode: StableRead.Bytes -> Option<string>, events: seq<Event>, id: string)
    requires SoundEvents(events, decode) && id in Run(classify, New(), events).states
    requires Run(classify, New(), events).states[id].observation.status == Stable
    ensures var s := Run(classify, New(), events).states[id];
            && s.observation.contentHash.Some? && s.text.Some?
            && s.classification == Some(classify(id, s.observation.contentHash.value, s.text.value))
  {
    RunContinues(classify, decode, New(), events);
  }

  // ---------------------------------------------------------------- inspection

  datatype Identity = Identity(
    workspaceRevision: nat, source: string, revision: nat, contentHash: Hash, itemId: string)

  datatype Inspection = Ready(firstObservedAt: Time, byteLength: nat, text: string) | Stale | Unavailable

  /** The identity of the item a source shows. */
  function IdentityOf(o: Observer, source: string): Option<Identity> {
    if o.workspaceRevision.None? || source !in o.states then None
    else
      var s := o.states[source];
      var candidate := CandidateOf(s.classification);
      if s.observation.status != Stable || s.observation.contentHash.None? || candidate.None? then None
      else Some(Identity(o.workspaceRevision.value, source, s.observation.revision, s.observation.contentHash.value,
                         candidate.value.itemId))
  }

  function Inspect(o: Observer, identity: Identity): Inspection {
    if o.workspaceRevision.None? || o.disposed then Unavailable
    else if identity.source !in o.states then Stale
    else
      var s := o.states[identity.source];
      if !(&& Some(identity.workspaceRevision) == o.workspaceRevision
           && s.observation.status == Stable
           && s.observation.revision == identity.revision
           && s.observation.contentHash == Some(identity.contentHash)
           && ItemIdOf(CandidateOf(s.classification)) == Some(identity.itemId)) then Stale
      else if s.text.None? || s.observation.byteLength.None? || s.observation.firstObservedAt.None? then Unavailable
      else Ready(s.observation.firstObservedAt.value, s.observation.byteLength.value, s.text.value)
  }

  /** An inspection is ready exactly for the identity shown now, and unavailable exactly without a configuration. */
  lemma InspectReadyIff(
      classify: Classify, decode: StableRead.Bytes -> Option<string>, events: seq<Event>, identity: Identity)
    requires SoundEvents(events, decode)
    ensures var o := Run(classify, New(), events);
            && (Inspect(o, identity).Ready? <==> !o.disposed && IdentityOf(o, identity.source) == Some(identity))
            && (Inspect(o, identity) == Unavailable <==> o.disposed || o.workspaceRevision.None?)
  {
    RunContinues(classify, decode, New(), events);
  }

  /**
  An identity taken from what was shown at one time and inspected at any later time gives, if it is ready,
  exactly the text and length shown then, even across a change of configuration and back; and within one
  generation also the same time of first observation.
  */
  lemma ReadyReturnsWhatWasShown(
      classify: Classify, decode: StableRead.Bytes -> Option<string>, earlier: seq<Event>, shown: Observer,
      events: seq<Event>, identity: Identity)
    requires SoundEvents(earlier, decode) && SoundEvents(events, decode)
    requires shown == Run(classify, New(), earlier)
    requires IdentityOf(shown, identity.source) == Some(identity)
    requires Inspect(Run(classify, shown, events), identity).Ready?
    ensures var now := Run(classify, shown, events);
            var answer, s := Inspect(now, identity), shown.states[identity.source];
            && s.text == Some(answer.text) && s.observation.byteLength == Some(answer.byteLength)
            && (now.generation == shown.generation ==>
                  && s.observation.firstObservedAt == Some(answer.firstObservedAt)
                  && EvidenceOf(now.states[identity.source]) == EvidenceOf(s))
  {
    RunContinues(classify, decode, New(), earlier);
    RunContinues(classify, decode, shown, events);
    var now := Run(classify, shown, events);
    assert identity.source in shown.states && identity.source in now.states;
    if now.generation == shown.generation {
      assert Later(shown.states[identity.source], now.states[identity.source]);
    }
  }

  // ---------------------------------------------------------------- the object

  lemma NextFailure(o: Observer, order: seq<string>, i: nat, directory: string, now: Time)
    requires i < |order|
    ensures var before := FailSources(o, order[..i], directory, now);
            FailSources(o, order[..i + 1], directory, now)
            == if order[i] in before.states && before.states[order[i]].definition.directory == directory
               then FailSource(before, order[i], now) else before
  {
    assert order[..i + 1][..i] == order[..i];
  }

  class ObserverObject {
    var disposed: bool
    var generation: nat
    var workspaceRevision: Option<nat>
    var order: seq<string>
    var states: map<string, Source>
    var sequences: map<string, nat>
    var calls: seq<Call>
    const classify: Classify

    ghost function State(): Observer
      reads this
    {
      Observer(disposed, generation, workspaceRevision, order, states, sequences, calls)
    }

    constructor (classify: Classify)
      ensures State() == New() && this.classify == classify
    {
      disposed, generation, workspaceRevision, order := false, 0, None, [];
      states, sequences, calls := map[], map[], [];
      this.classify := classify;
    }

    method OpenCall(source: string, phase: Phase)
      modifies this`sequences, this`calls
      ensures State() == Opens(old(State()), source, phase)
    {
      var sequence := (if source in sequences then sequences[source] else 0) + 1;
      sequences := sequences[source := sequence];
      calls := calls + [Call(source, generation, sequence, 0, phase)];
    }

    method ObserveSource(source: string)
      modifies this
      ensures State() == Step(classify, old(State()), Begin(source))
    {
      if !disposed && source in states {
        OpenCall(source, InRead);
      }
    }

    /** The result of a read arrives: it is dropped, waits for a retry, or is applied. */
    method ReadReturns(call: nat, reading: Reading, now: Time)
      modifies this
      ensures State() == Returned(classify, old(State()), call, reading, now)
    {
      if |calls| <= call || calls[call].phase != InRead {
        return;
      }
      var c := calls[call];
      if reading.status == Changing && c.attempt < 2 {
        calls := calls[call := c.(phase := Delaying)];
        return;
      }
      calls := calls[call := c.(phase := Closed)];
      if disposed || c.generation != generation || c.source !in sequences || sequences[c.source] != c.sequence {
        return;
      }
      if c.source !in states {
        return;
      }
      var current := states[c.source];
      states := states[c.source := ApplyRead(current, reading, now, ClassificationFor(classify, current, reading))];
    }

    method Fail(source: string, now: Time)
      requires source in states
      modifies this`sequences, this`calls, this`states
      ensures State() == FailSource(old(State()), source, now)
    {
      OpenCall(source, Closed);
      states := states[source := ApplyRead(states[source], WatchFailure(), now, None)];
    }

    method HandleWatchError(directory: string, now: Time)
      modifies this
      ensures State() == FailSources(old(State()), old(order), directory, now)
    {
      var i := 0;
      while i < |order|
        invariant 0 <= i <= |order| && order == old(order)
        invariant State() == FailSources(old(State()), order[..i], directory, now)
      {
        NextFailure(old(State()), order, i, directory, now);
        var source := order[i];
        if source in states && states[source].definition.directory == directory {
          Fail(source, now);
        }
        i := i + 1;
      }
      assert order[..i] == order;
    }

    method SyncConfig(config: ConfigStatus, now: Time)
      modifies this
      ensures State() == Configured(old(State()), config, now)
    {
      if disposed || (config.ConfigReady? && Some(config.revision) == workspaceRevision) {
        return;
      }
      generation := generation + 1;
      order, states, sequences := [], map[], map[];
      workspaceRevision := if config.ConfigReady? then Some(config.revision) else None;
      if config.ConfigReady? {
        AddPending(config.sources, now);
      }
    }

    method AddPending(sources: seq<Definition>, now: Time)
      requires order == [] && states == map[]
      modifies this`order, this`states
      ensures order == OrderOf(sources) && states == PendingStates(sources, now)
    {
      var i := 0;
      while i < |sources|
        invariant 0 <= i <= |sources|
        invariant order == OrderOf(sources[..i]) && states == PendingStates(sources[..i], now)
      {
        assert sources[..i + 1][..i] == sources[..i];
        var definition := sources[i];
        if definition.id !in order {
          order := order + [definition.id];
        }
        states := states[definition.id := PendingSource(definition, now)];
        i := i + 1;
      }
      assert sources[..i] == sources;
    }
  }
}
