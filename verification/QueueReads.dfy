/** What becomes of each read of the observer: how often the file is read again, when it is given up, and the end. */
module QueueReads {
  import opened Options
  import opened QueueObservation
  import opened QueueObserver
  import StableRead

  // ---------------------------------------------------------------- what a read was answered

  /** The answer that a step gives to a read under way, if any. */
  function Answer(o: Observer, call: nat, e: Event): seq<Reading> {
    if e.Returns? && e.call == call && call < |o.calls| && o.calls[call].phase == InRead then [e.reading] else []
  }

  /** All answers to a read along a run, in order. */
  function Answers(classify: Classify, o: Observer, call: nat, events: seq<Event>): seq<Reading>
    decreases |events|
  {
    if events == [] then []
    else Answer(o, call, events[0]) + Answers(classify, Step(classify, o, events[0]), call, events[1..])
  }

  predicate AllChanging(answers: seq<Reading>) {
    forall r <- answers :: r.status == Changing
  }

  /** The file was changing at every answer but perhaps the last, and there are at most three. */
  predicate Tried(answers: seq<Reading>) {
    |answers| <= 3 && forall i | 0 <= i < |answers| - 1 :: answers[i].status == Changing
  }

  /** There is nothing more to try. */
  predicate Exhausted(answers: seq<Reading>) {
    answers != [] && (answers[|answers| - 1].status != Changing || |answers| == 3)
  }

  /** Where a read stands after these answers. */
  predicate Fate(o: Observer, call: nat, answers: seq<Reading>) {
    && call < |o.calls| && Tried(answers)
    && var c := o.calls[call];
    && (c.phase == InRead ==> AllChanging(answers) && |answers| == c.attempt <= 2)
    && (c.phase == Delaying ==> AllChanging(answers) && |answers| == c.attempt + 1 <= 2)
    && (c.phase == Closed && IsCurrent(o, c) ==> Exhausted(answers))
  }

  // ---------------------------------------------------------------- one step

  lemma {:induction false} FailureKeepsCalls(o: Observer, sources: seq<string>, directory: string, now: Time)
    ensures var o' := FailSources(o, sources, directory, now);
            && o.calls <= o'.calls && o'.generation == o.generation && o'.disposed == o.disposed
            && forall source :: SequenceOf(o, source) <= SequenceOf(o', source)
  {
    if sources != [] {
      FailureKeepsCalls(o, sources[..|sources| - 1], directory, now);
    }
  }

  /** A read that is current after a step was so before. */
  lemma CurrentBefore(classify: Classify, o: Observer, e: Event, c: Call)
    requires Numbered(o) && c in o.calls && 0 < c.sequence && IsCurrent(Step(classify, o, e), c)
    ensures IsCurrent(o, c)
  {
    if e.WatchFails? {
      FailureKeepsCalls(o, o.order, e.directory, e.now);
    }
  }

  predicate Positive(o: Observer) {
    forall c <- o.calls :: 0 < c.sequence
  }

  lemma {:induction false} FailureKeepsPositive(o: Observer, sources: seq<string>, directory: string, now: Time)
    requires Positive(o)
    ensures Positive(FailSources(o, sources, directory, now))
  {
    if sources != [] {
      FailureKeepsPositive(o, sources[..|sources| - 1], directory, now);
    }
  }

  lemma StepKeepsPositive(classify: Classify, o: Observer, e: Event)
    requires Positive(o)
    ensures Positive(Step(classify, o, e))
  {
    if e.WatchFails? {
      FailureKeepsPositive(o, o.order, e.directory, e.now);
    } else if (e.Returns? || e.Resumes?) && e.call < |o.calls| {
      assert o.calls[e.call] in o.calls;
    }
  }

  /** A step that does not concern the read leaves its entry as it is. */
  lemma OthersKeep(classify: Classify, o: Observer, call: nat, e: Event)
    requires call < |o.calls| && !((e.Returns? || e.Resumes?) && e.call == call)
    ensures call < |Step(classify, o, e).calls| && Step(classify, o, e).calls[call] == o.calls[call]
  {
    if e.WatchFails? {
      FailureKeepsCalls(o, o.order, e.directory, e.now);
    }
  }

  lemma AnswerFate(classify: Classify, o: Observer, call: nat, answers: seq<Reading>, e: Event)
    requires Fate(o, call, answers) && e.Returns? && e.call == call && o.calls[call].phase == InRead
    ensures Fate(Step(classify, o, e), call, answers + [e.reading])
  {
  }

  lemma ResumeFate(classify: Classify, o: Observer, call: nat, answers: seq<Reading>)
    requires Fate(o, call, answers) && o.calls[call].phase == Delaying
    ensures Fate(Step(classify, o, Resumes(call)), call, answers)
  {
  }

  lemma StepFate(classify: Classify, o: Observer, call: nat, answers: seq<Reading>, e: Event)
    requires Numbered(o) && Positive(o) && Fate(o, call, answers)
    ensures Fate(Step(classify, o, e), call, answers + Answer(o, call, e))
  {
    assert answers + [] == answers && o.calls[call] in o.calls;
    if e.Returns? && e.call == call && o.calls[call].phase == InRead {
      AnswerFate(classify, o, call, answers, e);
    } else if e.Resumes? && e.call == call && o.calls[call].phase == Delaying {
      ResumeFate(classify, o, call, answers);
    } else if (e.Returns? || e.Resumes?) && e.call == call {
      assert Step(classify, o, e) == o;
    } else {
      OthersKeep(classify, o, call, e);
      if IsCurrent(Step(classify, o, e), o.calls[call]) {
        CurrentBefore(classify, o, e, o.calls[call]);
      }
    }
  }

  lemma AnswersAppend(before: seq<Reading>, answer: seq<Reading>, rest: seq<Reading>)
    ensures before + (answer + rest) == (before + answer) + rest
  {
  }

  lemma {:induction false} RunFate(classify: Classify, o: Observer, call: nat, answers: seq<Reading>, events: seq<Event>)
    requires Numbered(o) && Positive(o) && Fate(o, call, answers)
    ensures Fate(Run(classify, o, events), call, answers + Answers(classify, o, call, events))
    decreases |events|
  {
    if events == [] {
      assert answers + [] == answers;
    } else {
      var e := events[0];
      StepFate(classify, o, call, answers, e);
      StepKeepsNumbered(classify, o, e);
      StepKeepsPositive(classify, o, e);
      RunFate(classify, Step(classify, o, e), call, answers + Answer(o, call, e), events[1..]);
      AnswersAppend(answers, Answer(o, call, e), Answers(classify, Step(classify, o, e), call, events[1..]));
    }
  }

  lemma {:induction false} RunKeepsPositive(classify: Classify, o: Observer, events: seq<Event>)
    requires Positive(o)
    ensures Positive(Run(classify, o, events))
    decreases |events|
  {
    if events != [] {
      StepKeepsPositive(classify, o, events[0]);
      RunKeepsPositive(classify, Step(classify, o, events[0]), events[1..]);
    }
  }

  /**
  A read that begins in any state a run reaches: the file is read at most three times for it, again only as long as it
  is changing; and as long as the read is current it ends only with an answer that is not "changing", or the third.
  */
  lemma EveryReadIsTried(classify: Classify, before: seq<Event>, source: string, after: seq<Event>)
    requires var o := Run(classify, New(), before); !o.disposed && source in o.states
    ensures var o := Run(classify, New(), before);
            var begun := Step(classify, o, Begin(source));
            && |begun.calls| == |o.calls| + 1 && IsCurrent(begun, begun.calls[|o.calls|])
            && Fate(Run(classify, begun, after), |o.calls|, Answers(classify, begun, |o.calls|, after))
  {
    var o := Run(classify, New(), before);
    RunKeepsNumbered(classify, New(), before);
    RunKeepsPositive(classify, New(), before);
    var begun := Step(classify, o, Begin(source));
    StepKeepsNumbered(classify, o, Begin(source));
    StepKeepsPositive(classify, o, Begin(source));
    RunFate(classify, begun, |o.calls|, [], after);
    assert [] + Answers(classify, begun, |o.calls|, after) == Answers(classify, begun, |o.calls|, after);
  }

  /** A delayed read goes on when its time has come if it is still current, and is given up otherwise. */
  lemma DelayedReadGoesOn(classify: Classify, o: Observer, call: nat)
    requires call < |o.calls| && o.calls[call].phase == Delaying
    ensures var o' := Step(classify, o, Resumes(call));
            && o'.calls[call].phase == (if IsCurrent(o, o.calls[call]) then InRead else Closed)
            && o' == o.(calls := o'.calls) && o'.calls == o.calls[call := o'.calls[call]]
  {
  }

  // ---------------------------------------------------------------- the end

  predicate Ended(o: Observer) {
    o.disposed && o.states == map[] && o.order == [] && o.sequences == map[]
  }

  lemma StepKeepsEnded(classify: Classify, o: Observer, e: Event)
    requires Ended(o)
    ensures Ended(Step(classify, o, e)) && Step(classify, o, e).generation == o.generation
  {
  }

  lemma {:induction false} RunKeepsEnded(classify: Classify, o: Observer, events: seq<Event>)
    requires Ended(o)
    ensures Ended(Run(classify, o, events)) && Run(classify, o, events).generation == o.generation
    decreases |events|
  {
    if events != [] {
      StepKeepsEnded(classify, o, events[0]);
      RunKeepsEnded(classify, Step(classify, o, events[0]), events[1..]);
    }
  }

  predicate EndedIfDisposed(o: Observer) {
    o.disposed ==> Ended(o)
  }

  lemma StepEnds(classify: Classify, o: Observer, e: Event)
    requires EndedIfDisposed(o)
    ensures EndedIfDisposed(Step(classify, o, e))
  {
    if o.disposed {
      StepKeepsEnded(classify, o, e);
    } else if e.WatchFails? {
      FailureKeepsCalls(o, o.order, e.directory, e.now);
    }
  }

  lemma {:induction false} RunEnds(classify: Classify, o: Observer, events: seq<Event>)
    requires EndedIfDisposed(o)
    ensures EndedIfDisposed(Run(classify, o, events))
    decreases |events|
  {
    if events != [] {
      StepEnds(classify, o, events[0]);
      RunEnds(classify, Step(classify, o, events[0]), events[1..]);
    }
  }

  /** Once disposed, whatever still arrives: nothing is shown, no inspection is answered, no reading is applied. */
  lemma DisposalIsFinal(
      classify: Classify, before: seq<Event>, after: seq<Event>, identity: Identity, call: nat, reading: Reading)
    ensures var o := Run(classify, Step(classify, Run(classify, New(), before), Disposes), after);
            Ended(o) && Inspect(o, identity) == Unavailable && !Applies(o, call, reading)
  {
    RunEnds(classify, New(), before);
    RunKeepsEnded(classify, Step(classify, Run(classify, New(), before), Disposes), after);
  }

  // ---------------------------------------------------------------- the reader's answers

  /** The reader's answer is passed on as it is. */
  lemma ReaderIsPassedOn(r: StableRead.Result)
    ensures var reading := FromReader(r);
            && (reading.status == Stable <==> r.status == StableRead.Stable)
            && (reading.status == Empty <==> r.status == StableRead.Empty)
            && (reading.status == Missing <==> r.status == StableRead.Missing)
            && (reading.status == UnsafeType <==> r.status == StableRead.UnsafeType)
            && (reading.status == Oversized <==> r.status == StableRead.Oversized)
            && (reading.status == InvalidUtf8 <==> r.status == StableRead.InvalidUtf8)
            && (reading.status == Changing <==> r.status == StableRead.Changing)
            && (reading.status == ReadError <==> r.status == StableRead.ReadError)
            && (reading.error.Some? <==> r.status == StableRead.ReadError)
            && reading.byteLength == r.byteLength && reading.modifiedAt == r.modified
            && reading.contentHash == r.contentHash && reading.text == r.text
  {
  }
}
