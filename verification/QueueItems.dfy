/** Since when an item has been shown, and which sources a watch failure interrupts. */
module QueueItems {
  import opened Options
  import opened QueueObservation
  import opened QueueObserver
  import StableRead

  /** One applied read, or one interruption, of a source: when, and which item it showed. */
  datatype Look = Look(time: Time, item: Option<string>)

  /** The item that a reading shows by itself: what the classifier sees in its text. */
  function ItemRead(classify: Classify, id: string, reading: Reading): Option<string> {
    if reading.status != Stable || reading.contentHash.None? || reading.text.None? then None
    else ItemIdOf(classify(id, reading.contentHash.value, reading.text.value).candidate)
  }

  function Looked(classify: Classify, o: Observer, id: string, looks: seq<Look>, e: Event): seq<Look> {
    if Step(classify, o, e).generation != o.generation then []
    else
      match e
      case Returns(call, reading, now) =>
        if Applies(o, call, reading) && o.calls[call].source == id then looks + [Look(now, ItemRead(classify, id, reading))]
        else looks
      case WatchFails(directory, now) =>
        if id in o.states && o.states[id].definition.directory == directory then looks + [Look(now, None)] else looks
      case _ => looks
  }

  /** All looks at a source since the configuration last changed. */
  function Looks(classify: Classify, o: Observer, id: string, looks: seq<Look>, events: seq<Event>): seq<Look>
    decreases |events|
  {
    if events == [] then looks
    else Looks(classify, Step(classify, o, events[0]), id, Looked(classify, o, id, looks, events[0]), events[1..])
  }

  /** From look k on, and not from the one before, every look showed the item that the last one shows. */
  predicate Since(looks: seq<Look>, k: nat) {
    && k < |looks|
    && (forall j | k <= j < |looks| :: looks[j].item == looks[|looks| - 1].item)
    && (k == 0 || looks[k - 1].item != looks[|looks| - 1].item)
  }

  function ItemShown(s: Source): Option<string> {
    ItemIdOf(CandidateOf(s.classification))
  }

  /** The item shown is that of the last look, and was first observed when the unbroken series of its looks began. */
  ghost predicate ShownSince(looks: seq<Look>, s: Source) {
    && ItemShown(s) == (if looks == [] then None else looks[|looks| - 1].item)
    && (ItemShown(s).None? ==> s.observation.firstObservedAt.None?)
    && (ItemShown(s).Some? ==> exists k: nat :: Since(looks, k) && s.observation.firstObservedAt == Some(looks[k].time))
  }

  // ---------------------------------------------------------------- one read

  /** What is stored as the classification shows the item that the reading shows, cached or not. */
  lemma ClassifiedItem(
      classify: Classify, decode: StableRead.Bytes -> Option<string>, id: string, s: Source, reading: Reading)
    requires SourceInv(classify, decode, id, s) && Sound(reading, decode)
    ensures ItemIdOf(CandidateOf(ClassificationFor(classify, s, reading))) == ItemRead(classify, id, reading)
  {
  }

  lemma SinceExtends(looks: seq<Look>, look: Look, k: nat)
    requires Since(looks, k) && look.item == looks[|looks| - 1].item
    ensures Since(looks + [look], k)
  {
  }

  lemma SinceBegins(looks: seq<Look>, look: Look)
    requires looks == [] || looks[|looks| - 1].item != look.item
    ensures Since(looks + [look], |looks|)
  {
  }

  lemma ReadShows(
      classify: Classify, decode: StableRead.Bytes -> Option<string>, id: string, s: Source, looks: seq<Look>,
      reading: Reading, now: Time)
    requires SourceInv(classify, decode, id, s) && Sound(reading, decode) && ShownSince(looks, s)
    ensures ShownSince(looks + [Look(now, ItemRead(classify, id, reading))],
                       ApplyRead(s, reading, now, ClassificationFor(classify, s, reading)))
  {
    var look, s' := Look(now, ItemRead(classify, id, reading)), ApplyRead(s, reading, now, ClassificationFor(classify, s, reading));
    ClassifiedItem(classify, decode, id, s, reading);
    if look.item.Some? {
      if ItemShown(s) == look.item {
        var k: nat :| Since(looks, k) && s.observation.firstObservedAt == Some(looks[k].time);
        SinceExtends(looks, look, k);
        assert s'.observation.firstObservedAt == Some((looks + [look])[k].time);
      } else {
        SinceBegins(looks, look);
        assert s'.observation.firstObservedAt == Some((looks + [look])[|looks|].time);
      }
    }
  }

  /** The same read once more is quiet: the same classification, and no new revision. */
  lemma SameReadIsQuiet(
      classify: Classify, decode: StableRead.Bytes -> Option<string>, id: string, s: Source, reading: Reading,
      now: Time, later: Time)
    requires SourceInv(classify, decode, id, s) && Sound(reading, decode)
    ensures var next := ApplyRead(s, reading, now, ClassificationFor(classify, s, reading));
            ApplyRead(next, reading, later, ClassificationFor(classify, next, reading))
            == next.(observation := next.observation.(observedAt := later))
  {
    RereadIsQuiet(s, reading, now, later, ClassificationFor(classify, s, reading));
  }

  // ---------------------------------------------------------------- a watch failure

  /** The source as an interruption at this time leaves it. */
  predicate Interrupted(before: Source, after: Source, now: Time) {
    && after.definition == before.definition && after.classification.None? && after.text.None?
    && after.observation.(revision := 0)
       == Observation(0, WatchError, now, None, None, None, None, WatchFailure().error)
  }

  predicate Distinct(sources: seq<string>) {
    forall i, j | 0 <= i < j < |sources| :: sources[i] != sources[j]
  }

  lemma OneInterrupts(o: Observer, source: string, now: Time, id: string)
    requires source in o.states && id in o.states
    ensures var o' := FailSource(o, source, now);
            && o'.states.Keys == o.states.Keys
            && if id == source then Interrupted(o.states[id], o'.states[id], now) && SequenceOf(o', id) == SequenceOf(o, id) + 1
               else o'.states[id] == o.states[id] && SequenceOf(o', id) == SequenceOf(o, id)
  {
    ReadAdvances(o.states[source], WatchFailure(), now, None);
  }

  /** What happens to one source when the listed sources of a directory fail. */
  predicate Outcome(before: Observer, after: Observer, id: string, fails: bool, now: Time) {
    && after.states.Keys == before.states.Keys
    && id in before.states
    && if fails then
         Interrupted(before.states[id], after.states[id], now) && SequenceOf(after, id) == SequenceOf(before, id) + 1
       else after.states[id] == before.states[id] && SequenceOf(after, id) == SequenceOf(before, id)
  }

  /** Exactly the listed sources of the directory are interrupted, and each takes one more sequence number. */
  lemma {:induction false} FailureInterrupts(o: Observer, sources: seq<string>, directory: string, now: Time, id: string)
    requires Distinct(sources) && id in o.states
    ensures Outcome(o, FailSources(o, sources, directory, now), id,
                    id in sources && o.states[id].definition.directory == directory, now)
  {
    if sources != [] {
      var n := |sources| - 1;
      var before := FailSources(o, sources[..n], directory, now);
      FailureInterrupts(o, sources[..n], directory, now, id);
      assert sources == sources[..n] + [sources[n]] && sources[n] !in sources[..n];
      if sources[n] in before.states {
        OneInterrupts(before, sources[n], now, id);
      }
    }
  }

  /** Every source that has a state is listed, once. */
  predicate Listed(o: Observer) {
    Distinct(o.order) && forall id <- o.states :: id in o.order
  }

  lemma {:induction false} PendingListed(sources: seq<Definition>, now: Time)
    ensures Distinct(OrderOf(sources)) && PendingStates(sources, now).Keys == set id | id in OrderOf(sources)
    ensures forall id <- PendingStates(sources, now) :: ShownSince([], PendingStates(sources, now)[id])
  {
    if sources != [] {
      PendingListed(sources[..|sources| - 1], now);
    }
  }

  /** A source that has not been read since the configuration changed. */
  predicate Unread(s: Source, now: Time) {
    && s.observation == Observation(1, QueueObservation.Pending, now, None, None, None, None, None)
    && s.classification.None? && s.text.None?
  }

  lemma {:induction false} PendingUnread(sources: seq<Definition>, now: Time, id: string)
    ensures id in PendingStates(sources, now) <==> exists definition <- sources :: definition.id == id
    ensures id in PendingStates(sources, now) ==>
              && Unread(PendingStates(sources, now)[id], now)
              && PendingStates(sources, now)[id].definition.id == id && PendingStates(sources, now)[id].definition in sources
  {
    if sources != [] {
      var n := |sources| - 1;
      PendingUnread(sources[..n], now, id);
      assert sources == sources[..n] + [sources[n]] && sources[n] in sources;
    }
  }

  /**
  A configuration with another revision, or none, starts the next generation: every configured source once, not read
  yet and under its own definition, and every sequence number at zero.
  */
  lemma ConfigurationRestarts(classify: Classify, o: Observer, config: ConfigStatus, now: Time, id: string)
    requires !o.disposed && !(config.ConfigReady? && Some(config.revision) == o.workspaceRevision)
    ensures var o' := Step(classify, o, Configures(config, now));
            && o'.generation == o.generation + 1 && SequenceOf(o', id) == 0 && o'.calls == o.calls && !o'.disposed
            && o'.workspaceRevision == (if config.ConfigReady? then Some(config.revision) else None)
            && Listed(o') && (forall listed <- o'.order :: listed in o'.states)
            && (id in o'.states <==> config.ConfigReady? && exists definition <- config.sources :: definition.id == id)
            && (id in o'.states ==>
                  && Unread(o'.states[id], now) && o'.states[id].definition.id == id
                  && o'.states[id].definition in config.sources)
  {
    if config.ConfigReady? {
      PendingListed(config.sources, now);
      PendingUnread(config.sources, now, id);
    }
  }

  lemma {:induction false} FailSourcesKeepsOrder(o: Observer, sources: seq<string>, directory: string, now: Time)
    ensures var o' := FailSources(o, sources, directory, now);
            o'.order == o.order && o'.states.Keys == o.states.Keys && o'.generation == o.generation
  {
    if sources != [] {
      FailSourcesKeepsOrder(o, sources[..|sources| - 1], directory, now);
    }
  }

  lemma StepKeepsListed(classify: Classify, o: Observer, e: Event)
    requires Listed(o)
    ensures Listed(Step(classify, o, e))
  {
    match e {
      case WatchFails(directory, now) => FailSourcesKeepsOrder(o, o.order, directory, now);
      case Configures(config, now) =>
        if config.ConfigReady? {
          PendingListed(config.sources, now);
        }
      case _ =>
    }
  }

  // ---------------------------------------------------------------- runs

  ghost predicate AllShown(
      classify: Classify, decode: StableRead.Bytes -> Option<string>, o: Observer, id: string, looks: seq<Look>)
  {
    Listed(o) && SourcesInv(classify, decode, o.states) && (id in o.states ==> ShownSince(looks, o.states[id]))
  }

  lemma ReturnShows(
      classify: Classify, decode: StableRead.Bytes -> Option<string>, o: Observer, id: string, looks: seq<Look>,
      call: nat, reading: Reading, now: Time)
    requires AllShown(classify, decode, o, id, looks) && Sound(reading, decode) && id in o.states
    ensures var o' := Returned(classify, o, call, reading, now);
            id in o'.states && ShownSince(Looked(classify, o, id, looks, Returns(call, reading, now)), o'.states[id])
  {
    if Applies(o, call, reading) && o.calls[call].source == id {
      ReadShows(classify, decode, id, o.states[id], looks, reading, now);
    }
  }

  lemma FailureShows(classify: Classify, o: Observer, id: string, looks: seq<Look>, directory: string, now: Time)
    requires Listed(o) && id in o.states && ShownSince(looks, o.states[id])
    ensures var o' := FailSources(o, o.order, directory, now);
            id in o'.states && ShownSince(Looked(classify, o, id, looks, WatchFails(directory, now)), o'.states[id])
  {
    FailureInterrupts(o, o.order, directory, now, id);
    FailSourcesKeepsOrder(o, o.order, directory, now);
  }

  lemma ConfigurationShows(classify: Classify, o: Observer, id: string, looks: seq<Look>, config: ConfigStatus, now: Time)
    requires id in o.states ==> ShownSince(looks, o.states[id])
    ensures var o' := Configured(o, config, now);
            id in o'.states ==> ShownSince(Looked(classify, o, id, looks, Configures(config, now)), o'.states[id])
  {
    if config.ConfigReady? {
      PendingListed(config.sources, now);
    }
  }

  lemma QuietShows(classify: Classify, o: Observer, id: string, looks: seq<Look>, e: Event)
    requires e.Begin? || e.Resumes? || e.Disposes?
    requires id in Step(classify, o, e).states
    ensures id in o.states && Step(classify, o, e).states[id] == o.states[id] && Looked(classify, o, id, looks, e) == looks
  {
  }

  lemma StepShowsItem(
      classify: Classify, decode: StableRead.Bytes -> Option<string>, o: Observer, id: string, looks: seq<Look>, e: Event)
    requires AllShown(classify, decode, o, id, looks) && (e.Returns? ==> Sound(e.reading, decode))
    requires id in Step(classify, o, e).states
    ensures ShownSince(Looked(classify, o, id, looks, e), Step(classify, o, e).states[id])
  {
    match e {
      case Returns(call, reading, now) =>
        ReturnShows(classify, decode, o, id, looks, call, reading, now);
      case WatchFails(directory, now) =>
        FailSourcesKeepsOrder(o, o.order, directory, now);
        FailureShows(classify, o, id, looks, directory, now);
      case Configures(config, now) =>
        ConfigurationShows(classify, o, id, looks, config, now);
      case _ =>
        QuietShows(classify, o, id, looks, e);
    }
  }

  lemma StepShows(
      classify: Classify, decode: StableRead.Bytes -> Option<string>, o: Observer, id: string, looks: seq<Look>, e: Event)
    requires AllShown(classify, decode, o, id, looks) && (e.Returns? ==> Sound(e.reading, decode))
    ensures AllShown(classify, decode, Step(classify, o, e), id, Looked(classify, o, id, looks, e))
  {
    StepKeepsListed(classify, o, e);
    StepContinues(classify, decode, o, e);
    if id in Step(classify, o, e).states {
      StepShowsItem(classify, decode, o, id, looks, e);
    }
  }

  lemma {:induction false} RunShows(
      classify: Classify, decode: StableRead.Bytes -> Option<string>, o: Observer, id: string, looks: seq<Look>,
      events: seq<Event>)
    requires AllShown(classify, decode, o, id, looks) && SoundEvents(events, decode)
    ensures AllShown(classify, decode, Run(classify, o, events), id, Looks(classify, o, id, looks, events))
    decreases |events|
  {
    if events != [] {
      assert events[0] in events && forall e <- events[1..] :: e in events;
      StepShows(classify, decode, o, id, looks, events[0]);
      RunShows(classify, decode, Step(classify, o, events[0]), id, Looked(classify, o, id, looks, events[0]), events[1..]);
    }
  }

  /**
  Along every run, a source shows the item of its last look, and the time of first observation is that of the look
  since which all looks have shown this item; so quiet polls never make a new observation of an old item.
  */
  lemma FirstObservedIsTrue(
      classify: Classify, decode: StableRead.Bytes -> Option<string>, events: seq<Event>, id: string)
    requires SoundEvents(events, decode) && id in Run(classify, New(), events).states
    ensures ShownSince(Looks(classify, New(), id, [], events), Run(classify, New(), events).states[id])
  {
    RunShows(classify, decode, New(), id, [], events);
  }

  /** A watch failure of a directory, in any state a run reaches, interrupts exactly its sources. */
  lemma WatchFailureInterrupts(
      classify: Classify, decode: StableRead.Bytes -> Option<string>, events: seq<Event>, directory: string, now: Time,
      id: string)
    requires SoundEvents(events, decode) && id in Run(classify, New(), events).states
    ensures var o := Run(classify, New(), events);
            Outcome(o, Step(classify, o, WatchFails(directory, now)), id, o.states[id].definition.directory == directory, now)
  {
    RunShows(classify, decode, New(), id, [], events);
    FailureInterrupts(Run(classify, New(), events), Run(classify, New(), events).order, directory, now, id);
  }
}
