/**
Where a retry goes: the second attempt of a decision has the target of the first whenever the call that submitted
it had read a document showing the first. A call that read a document without one is not held to it.
*/
module QueueTargets {
  import opened Options
  import opened SerialStore
  import opened QueueRecords
  import opened QueueMutations
  import opened QueueHistory
  import opened QueueReconciliation
  import opened QueueProtocol
  import opened QueueSafety
  import opened QueueAgreement
  import opened QueueFlight
  import opened QueueGap

  // ---------------------------------------------------------------- blind attempts

  /** The document each deliver call read when it began. */
  function Looked(s: System, looks: map<nat, Document>, e: Event): map<nat, Document> {
    if e.DeliverCalled? && e.call !in s.delivers then looks[e.call := s.store.disk.visible] else looks
  }

  /** An intent is submitted by a call that read a document without an attempt of its decision. */
  predicate SubmitsBlind(s: System, looks: map<nat, Document>, e: Event) {
    && e.DeliverSubmits? && StoreStep(s, e).Some? && e.call in looks
    && Attempts(looks[e.call].deliveries, s.delivers[e.call].decisionId) == []
  }

  function Blinded(s: System, looks: map<nat, Document>, e: Event): set<string> {
    if SubmitsBlind(s, looks, e) then {e.deliveryId} else {}
  }

  /** The identifiers of all attempts that are submitted blind along a run. */
  function BlindIds(s: System, looks: map<nat, Document>, events: seq<Event>): set<string>
    decreases |events|
  {
    if events == [] then {}
    else Blinded(s, looks, events[0]) + BlindIds(Next(s, events[0]), Looked(s, looks, events[0]), events[1..])
  }

  /** What the calls of the last process have read after a run. */
  function Looks(s: System, looks: map<nat, Document>, events: seq<Event>): map<nat, Document>
    decreases |events|
  {
    if events == [] then looks else Looks(Next(s, events[0]), Looked(s, looks, events[0]), events[1..])
  }

  // ---------------------------------------------------------------- first attempts

  function FirstTarget(d: Document, decisionId: string): Option<Target> {
    var attempts := Attempts(d.deliveries, decisionId);
    if attempts == [] then None else Some(attempts[0].body.target)
  }

  /** The second of two attempts has the target of the first, or was submitted blind. */
  predicate TargetKept(blind: set<string>, d: Document, decisionId: string) {
    var attempts := Attempts(d.deliveries, decisionId);
    |attempts| == 2 ==> attempts[1].body.target == attempts[0].body.target || attempts[1].body.deliveryId in blind
  }

  predicate AllEvolve(a: seq<Delivery>, b: seq<Delivery>) {
    |a| == |b| && forall i | 0 <= i < |a| :: Evolves(a[i], b[i])
  }

  lemma EvolveAppend(a: seq<Delivery>, b: seq<Delivery>, x: Delivery, y: Delivery)
    requires AllEvolve(a, b) && Evolves(x, y)
    ensures AllEvolve(a + [x], b + [y])
  {
  }

  lemma {:induction false} AttemptsEvolve(a: seq<Delivery>, b: seq<Delivery>, decisionId: string)
    requires AllEvolve(a, b)
    ensures AllEvolve(Attempts(a, decisionId), Attempts(b, decisionId))
    decreases |a|
  {
    if a != [] {
      var n := |a| - 1;
      AttemptsEvolve(a[..n], b[..n], decisionId);
      AttemptsLast(a, decisionId);
      AttemptsLast(b, decisionId);
      assert Evolves(a[n], b[n]);
      if a[n].body.decisionId == decisionId {
        EvolveAppend(Attempts(a[..n], decisionId), Attempts(b[..n], decisionId), a[n], b[n]);
      } else {
        assert Attempts(a[..n], decisionId) + [] == Attempts(a, decisionId);
        assert Attempts(b[..n], decisionId) + [] == Attempts(b, decisionId);
      }
    }
  }

  lemma {:induction false} AttemptsGrow(deliveries: seq<Delivery>, n: nat, decisionId: string)
    requires n <= |deliveries|
    ensures Attempts(deliveries[..n], decisionId) <= Attempts(deliveries, decisionId)
    decreases |deliveries|
  {
    if n < |deliveries| {
      var m := |deliveries| - 1;
      AttemptsGrow(deliveries[..m], n, decisionId);
      assert deliveries[..m][..n] == deliveries[..n];
      AttemptsLast(deliveries, decisionId);
    } else {
      assert deliveries[..n] == deliveries;
    }
  }

  /** A first attempt stays the first, and keeps its target. */
  lemma FirstStays(a: Document, b: Document, decisionId: string)
    requires Extends(a, b) && Attempts(a.deliveries, decisionId) != []
    ensures FirstTarget(b, decisionId) == FirstTarget(a, decisionId)
  {
    var n := |a.deliveries|;
    AttemptsEvolve(a.deliveries, b.deliveries[..n], decisionId);
    AttemptsGrow(b.deliveries, n, decisionId);
    assert Evolves(Attempts(a.deliveries, decisionId)[0], Attempts(b.deliveries[..n], decisionId)[0]);
  }

  // ---------------------------------------------------------------- invariant

  ghost predicate AllKept(blind: set<string>, d: Document) {
    forall decisionId :: TargetKept(blind, d, decisionId)
  }

  predicate Aimed(blind: set<string>, d: Document, x: DeliveryBody) {
    x.deliveryId in blind || FirstTarget(d, x.decisionId) == Some(x.target)
  }

  /** What a call knows of the first attempt is what the document it read shows. */
  ghost predicate Informed(looks: map<nat, Document>, d: Document, call: nat, c: DeliverCall) {
    c.Resolving? || c.Prepared? ==>
      && call in looks && Extends(looks[call], d)
      && (c.Resolving? ==> c.seen == looks[call])
      && (c.Prepared? ==>
            var attempts := Attempts(looks[call].deliveries, c.decisionId);
            if attempts == [] then c.retryOf.None? else c.retryOf == Some(attempts[0]))
  }

  ghost predicate CallsInformed(s: System, looks: map<nat, Document>) {
    forall call <- s.delivers :: Informed(looks, s.store.disk.visible, call, s.delivers[call])
  }

  ghost predicate QueueAimed(s: System, blind: set<string>) {
    forall m | m in s.store.queue && m.Begin? :: Aimed(blind, s.store.disk.visible, m.delivery.body)
  }

  ghost predicate DocumentsKept(s: System, blind: set<string>) {
    forall d | d in s.store.disk.possible :: AllKept(blind, d)
  }

  ghost predicate TargetInv(s: System, looks: map<nat, Document>, blind: set<string>) {
    CallsInformed(s, looks) && QueueAimed(s, blind) && DocumentsKept(s, blind)
  }

  // ---------------------------------------------------------------- documents

  lemma BeginKeeps(blind: set<string>, d: Document, x: Delivery, decisionId: string)
    requires TargetKept(blind, d, decisionId) && Aimed(blind, d, x.body)
    ensures TargetKept(blind, d.(deliveries := d.deliveries + [x]), decisionId)
  {
    AttemptsAppend(d.deliveries, x, decisionId);
    var before := Attempts(d.deliveries, decisionId);
    if x.body.decisionId != decisionId {
      assert before + [] == before;
    }
  }

  lemma FinishKeeps(blind: set<string>, d: Document, n: Document, deliveryId: string, decisionId: string)
    requires TargetKept(blind, d, decisionId) && AllKeptBut(d.deliveries, n.deliveries, deliveryId)
    ensures TargetKept(blind, n, decisionId)
  {
    AttemptsKept(d.deliveries, n.deliveries, deliveryId, decisionId);
    var before, after := Attempts(d.deliveries, decisionId), Attempts(n.deliveries, decisionId);
    if |before| == 2 {
      assert KeptBut(before[0], after[0], deliveryId) && KeptBut(before[1], after[1], deliveryId);
    }
  }

  lemma BeginWriteKeeps(blind: set<string>, d: Document, x: Delivery, decisionId: string)
    requires PlanBegin(d, x).Write? && TargetKept(blind, d, decisionId) && Aimed(blind, d, x.body)
    ensures TargetKept(blind, PlanBegin(d, x).next, decisionId)
  {
    BeginKeeps(blind, d, x, decisionId);
  }

  lemma FinishWriteKeeps(blind: set<string>, d: Document, deliveryId: string, outcome: Outcome, decisionId: string)
    requires PlanFinish(d, deliveryId, outcome).Write? && TargetKept(blind, d, decisionId)
    ensures TargetKept(blind, PlanFinish(d, deliveryId, outcome).next, decisionId)
  {
    FinishKeepsOthers(d.deliveries, FirstDelivery(d.deliveries, deliveryId), outcome);
    FinishKeeps(blind, d, PlanFinish(d, deliveryId, outcome).next, deliveryId, decisionId);
  }

  lemma OneWriteKeeps(blind: set<string>, m: Mutation, d: Document, n: Document, decisionId: string)
    requires PlanUnchecked(m, d) == Write(n) && TargetKept(blind, d, decisionId)
    requires m.Begin? ==> Aimed(blind, d, m.delivery.body)
    ensures TargetKept(blind, n, decisionId)
  {
    match m {
      case Begin(x) => BeginWriteKeeps(blind, d, x, decisionId);
      case Finish(deliveryId, outcome) => FinishWriteKeeps(blind, d, deliveryId, outcome, decisionId);
      case _ => assert n.deliveries == d.deliveries;
    }
  }

  lemma WriteKeeps(blind: set<string>, m: Mutation, d: Document, n: Document)
    requires PlanUnchecked(m, d) == Write(n) && AllKept(blind, d)
    requires m.Begin? ==> Aimed(blind, d, m.delivery.body)
    ensures AllKept(blind, n)
  {
    forall decisionId ensures TargetKept(blind, n, decisionId) {
      OneWriteKeeps(blind, m, d, n, decisionId);
    }
  }

  lemma MoreBlind(blind: set<string>, more: set<string>, d: Document)
    requires AllKept(blind, d)
    ensures AllKept(blind + more, d)
  {
    forall decisionId ensures TargetKept(blind + more, d, decisionId) {
      assert TargetKept(blind, d, decisionId);
    }
  }

  lemma NextKeepsDocuments(s: System, e: Event, blind: set<string>, d: Document)
    requires SystemInv(s) && QueueAimed(s, blind) && DocumentsKept(s, blind)
    requires d in Next(s, e).store.disk.possible
    ensures AllKept(blind, d)
  {
    NextStore(s, e);
    if d !in s.store.disk.possible {
      DoPossible(PlanMutation, s.store, StoreStep(s, e).value, d);
      var m, before := s.store.queue[0], s.store.disk.visible;
      assert before in s.store.disk.possible && m in s.store.queue;
      WriteExtends(m, before, d);
      WriteKeeps(blind, m, before, d);
    }
  }

  // ---------------------------------------------------------------- submitted intents

  lemma AimKept(blind: set<string>, before: Document, after: Document, x: DeliveryBody)
    requires Extends(before, after) && Aimed(blind, before, x)
    ensures Aimed(blind, after, x)
  {
    if x.deliveryId !in blind {
      FirstStays(before, after, x.decisionId);
    }
  }

  lemma SubmissionAimed(s: System, looks: map<nat, Document>, blind: set<string>, e: Event)
    requires CallsInformed(s, looks) && e.DeliverSubmits? && StoreStep(s, e).Some?
    ensures Aimed(blind + Blinded(s, looks, e), s.store.disk.visible, Intent(s.delivers[e.call], e).body)
  {
    var c := s.delivers[e.call];
    assert Informed(looks, s.store.disk.visible, e.call, c);
    if Attempts(looks[e.call].deliveries, c.decisionId) != [] {
      FirstStays(looks[e.call], s.store.disk.visible, c.decisionId);
    }
  }

  /** An intent in the queue was there before, or is submitted now. */
  lemma NextQueue(s: System, e: Event, m: Mutation)
    requires m in Next(s, e).store.queue && m.Begin?
    ensures m in s.store.queue
         || (e.DeliverSubmits? && StoreStep(s, e).Some? && m == Begin(Intent(s.delivers[e.call], e)))
  {
    NextStore(s, e);
    if StoreStep(s, e).Some? {
      DoQueue(PlanMutation, s.store, StoreStep(s, e).value, m);
    }
  }

  lemma PowerEmpties(s: System, e: Event)
    requires e.PowerFails?
    ensures Next(s, e) == s || (Next(s, e).store.queue == [] && Next(s, e).delivers == map[])
  {
  }

  /** Unless power fails, the visible document only grows. */
  lemma NextExtends(s: System, e: Event)
    requires SystemInv(s) && !e.PowerFails?
    ensures Extends(s.store.disk.visible, Next(s, e).store.disk.visible)
  {
    VisibleStep(s, e);
    ExtendsRefl(s.store.disk.visible);
  }

  lemma SubmissionStays(s: System, e: Event)
    requires e.DeliverSubmits?
    ensures Next(s, e).store.disk == s.store.disk
  {
  }

  lemma NextKeepsAims(s: System, looks: map<nat, Document>, blind: set<string>, e: Event)
    requires SystemInv(s) && CallsInformed(s, looks) && QueueAimed(s, blind)
    ensures QueueAimed(Next(s, e), blind + Blinded(s, looks, e))
  {
    var s', more := Next(s, e), blind + Blinded(s, looks, e);
    if e.PowerFails? {
      PowerEmpties(s, e);
    } else {
      NextExtends(s, e);
      forall m | m in s'.store.queue && m.Begin? ensures Aimed(more, s'.store.disk.visible, m.delivery.body) {
        NextQueue(s, e, m);
        if m in s.store.queue {
          AimKept(more, s.store.disk.visible, s'.store.disk.visible, m.delivery.body);
        } else {
          SubmissionStays(s, e);
          SubmissionAimed(s, looks, blind, e);
        }
      }
    }
  }

  // ---------------------------------------------------------------- calls

  /** A call that has not submitted yet is as it was, has just read the document, or has just made up its mind. */
  lemma NextEarly(s: System, e: Event, call: nat)
    requires call in Next(s, e).delivers && (Next(s, e).delivers[call].Resolving? || Next(s, e).delivers[call].Prepared?)
    ensures var c := Next(s, e).delivers[call];
            || (call in s.delivers && s.delivers[call] == c)
            || (call !in s.delivers && e.DeliverCalled? && e.call == call && c.Resolving? && c.seen == s.store.disk.visible)
            || (&& call in s.delivers && s.delivers[call].Resolving? && c.Prepared?
                && c.decisionId == s.delivers[call].decisionId
                && MayAttempt(s.delivers[call].seen, c.decisionId, c.decisionHash) == Some(c.retryOf))
  {
  }

  lemma MayAttemptInforms(d: Document, decisionId: string, decisionHash: Hash)
    requires MayAttempt(d, decisionId, decisionHash).Some?
    ensures var attempts, retryOf := Attempts(d.deliveries, decisionId), MayAttempt(d, decisionId, decisionHash).value;
            if attempts == [] then retryOf.None? else retryOf == Some(attempts[0])
  {
  }

  lemma NextLooks(s: System, looks: map<nat, Document>, e: Event, call: nat)
    requires call in s.delivers && call in looks
    ensures call in Looked(s, looks, e) && Looked(s, looks, e)[call] == looks[call]
  {
  }

  lemma NextInforms(s: System, looks: map<nat, Document>, e: Event, call: nat)
    requires SystemInv(s) && CallsInformed(s, looks) && !e.PowerFails? && call in Next(s, e).delivers
    ensures Informed(Looked(s, looks, e), Next(s, e).store.disk.visible, call, Next(s, e).delivers[call])
  {
    var c, before, after := Next(s, e).delivers[call], s.store.disk.visible, Next(s, e).store.disk.visible;
    if c.Resolving? || c.Prepared? {
      NextEarly(s, e, call);
      NextExtends(s, e);
      if call in s.delivers {
        assert Informed(looks, before, call, s.delivers[call]);
        NextLooks(s, looks, e, call);
        ExtendsTransitive(looks[call], before, after);
        if s.delivers[call] != c {
          MayAttemptInforms(looks[call], c.decisionId, c.decisionHash);
        }
      }
    }
  }

  lemma NextKeepsInformed(s: System, looks: map<nat, Document>, e: Event)
    requires SystemInv(s) && CallsInformed(s, looks)
    ensures CallsInformed(Next(s, e), Looked(s, looks, e))
  {
    if e.PowerFails? {
      PowerEmpties(s, e);
    } else {
      forall call <- Next(s, e).delivers
        ensures Informed(Looked(s, looks, e), Next(s, e).store.disk.visible, call, Next(s, e).delivers[call])
      {
        NextInforms(s, looks, e, call);
      }
    }
  }

  // ---------------------------------------------------------------- runs

  lemma NextKeepsTargets(s: System, looks: map<nat, Document>, blind: set<string>, e: Event)
    requires SystemInv(s) && TargetInv(s, looks, blind)
    ensures TargetInv(Next(s, e), Looked(s, looks, e), blind + Blinded(s, looks, e))
  {
    NextKeepsInformed(s, looks, e);
    NextKeepsAims(s, looks, blind, e);
    forall d | d in Next(s, e).store.disk.possible ensures AllKept(blind + Blinded(s, looks, e), d) {
      NextKeepsDocuments(s, e, blind, d);
      MoreBlind(blind, Blinded(s, looks, e), d);
    }
  }

  lemma {:induction false} RunKeepsTargets(s: System, looks: map<nat, Document>, blind: set<string>, events: seq<Event>)
    requires SystemInv(s) && TargetInv(s, looks, blind)
    ensures SystemInv(Run(s, events))
    ensures TargetInv(Run(s, events), Looks(s, looks, events), blind + BlindIds(s, looks, events))
    decreases |events|
  {
    if events == [] {
      assert blind + BlindIds(s, looks, events) == blind;
    } else {
      var e := events[0];
      NextKeepsInv(s, e);
      NextKeepsTargets(s, looks, blind, e);
      RunKeepsTargets(Next(s, e), Looked(s, looks, e), blind + Blinded(s, looks, e), events[1..]);
      BlindUnion(s, looks, blind, events);
    }
  }

  lemma BlindUnion(s: System, looks: map<nat, Document>, blind: set<string>, events: seq<Event>)
    requires events != []
    ensures var e := events[0];
            blind + BlindIds(s, looks, events)
            == (blind + Blinded(s, looks, e)) + BlindIds(Next(s, e), Looked(s, looks, e), events[1..])
  {
  }

  lemma StartKept(doc: Document)
    requires AllKept({}, doc)
    ensures TargetInv(Start(doc), map[], {})
  {
  }

  /**
  In every document a run could leave, the second attempt of a decision has the target of the first, unless it was
  submitted by a call that had read a document without an attempt of the decision.
  */
  lemma RetryKeepsTarget(doc: Document, events: seq<Event>, decisionId: string, d: Document)
    requires StartsFrom(doc) && AllKept({}, doc)
    requires d in Run(Start(doc), events).store.disk.possible && |Attempts(d.deliveries, decisionId)| == 2
    ensures var attempts := Attempts(d.deliveries, decisionId);
            || attempts[1].body.target == attempts[0].body.target
            || attempts[1].body.deliveryId in BlindIds(Start(doc), map[], events)
  {
    StartInv(doc);
    StartKept(doc);
    RunKeepsTargets(Start(doc), map[], {}, events);
    assert {} + BlindIds(Start(doc), map[], events) == BlindIds(Start(doc), map[], events);
    assert TargetKept({} + BlindIds(Start(doc), map[], events), d, decisionId);
  }

  // ---------------------------------------------------------------- the guard is needed

  /** The second of two attempts of the decision goes to this target, the first does not. */
  predicate Misaimed(d: Document, decisionId: string, target: Target) {
    var attempts := Attempts(d.deliveries, decisionId);
    |attempts| == 2 && attempts[1].body.target == target != attempts[0].body.target
  }

  /** The store rests, and shows one unlocked attempt of the decision, to another target, with room for a second. */
  predicate MayMisaim(s: Store, decisionId: string, decisionHash: Hash, target: Target) {
    var d := s.disk.visible;
    var attempts := Attempts(d.deliveries, decisionId);
    && s.queue == [] && s.phase == Idle
    && |attempts| == 1 && Unlocked(d, attempts[0])
    && attempts[0].body.decisionHash == decisionHash && attempts[0].body.target != target
    && |d.deliveries| < MAX_DELIVERIES && d.revision < MAX_SAFE_INTEGER
  }

  function Misaim(first: Delivery, deliveryId: string, target: Target): Delivery {
    var body := first.body.(deliveryId := deliveryId, target := target, outcome := None);
    Delivery(body, OfDelivery(body))
  }

  lemma MisaimAccepted(d: Document, first: Delivery, x: Delivery)
    requires SchemaOk(d) && AllValid(d.deliveries) && |d.deliveries| < MAX_DELIVERIES && d.revision < MAX_SAFE_INTEGER
    requires Attempts(d.deliveries, first.body.decisionId) == [first] && Unlocked(d, first)
    requires (forall y | y in d.deliveries :: y.body.deliveryId != x.body.deliveryId)
    requires x == Misaim(first, x.body.deliveryId, x.body.target)
    ensures PlanMutation(Begin(x), d) == Write(WithAttempt(d, x))
  {
    assert first in Attempts(d.deliveries, first.body.decisionId);
    AttemptAccepted(d, x);
  }

  lemma MisaimShows(d: Document, first: Delivery, x: Delivery)
    requires Attempts(d.deliveries, first.body.decisionId) == [first] && x.body.decisionId == first.body.decisionId
    requires x.body.target != first.body.target
    ensures Misaimed(WithAttempt(d, x), first.body.decisionId, x.body.target)
  {
    AttemptsAppend(d.deliveries, x, first.body.decisionId);
    assert Attempts(WithAttempt(d, x).deliveries, first.body.decisionId) == [first, x];
  }

  lemma BlindSubmits(s: System, call: nat, first: Delivery, x: Delivery) returns (s': System)
    requires call in s.delivers && s.delivers[call].Prepared? && s.delivers[call].retryOf.None?
    requires s.delivers[call].decisionId == x.body.decisionId && s.delivers[call].decisionHash == x.body.decisionHash
    requires FreshIntent(x) && x.body.deliveryId !in s.used && s.store.queue == [] && s.store.phase == Idle
    ensures Leads(s, s') && HeadReady(s'.store, Idle) && s'.store.queue == [Begin(x)] && s'.store.disk == s.store.disk
  {
    var b := x.body;
    var e := DeliverSubmits(call, b.deliveryId, b.target, b.payloadHash, b.payloadByteLength, b.requestedAt);
    SubmitNext(s, e, x);
    LeadsRefl(s);
    LeadsNext(s, s, e);
    s' := Next(s, e);
  }

  lemma BlindMisaims(s: System, call: nat, target: Target) returns (s': System)
    requires ReachedInv(s) && call in s.delivers && s.delivers[call].Prepared? && s.delivers[call].retryOf.None?
    requires MayMisaim(s.store, s.delivers[call].decisionId, s.delivers[call].decisionHash, target)
    ensures Leads(s, s') && Misaimed(s'.store.disk.visible, s.delivers[call].decisionId, target)
  {
    var d, c := s.store.disk.visible, s.delivers[call];
    var first := Attempts(d.deliveries, c.decisionId)[0];
    var id := FreeId(s.used);
    var x := Misaim(first, id, target);
    assert first in Attempts(d.deliveries, c.decisionId);
    var s1 := BlindSubmits(s, call, first, x);
    MisaimShows(d, first, x);
    MisaimPlanned(s, first, x);
    s' := LoneRecords(s, s1, Begin(x), WithAttempt(d, x));
  }

  lemma MisaimPlanned(s: System, first: Delivery, x: Delivery)
    requires ReachedInv(s) && x == Misaim(first, x.body.deliveryId, x.body.target) && x.body.deliveryId !in s.used
    requires var d := s.store.disk.visible;
             && Attempts(d.deliveries, first.body.decisionId) == [first] && Unlocked(d, first)
             && |d.deliveries| < MAX_DELIVERIES && d.revision < MAX_SAFE_INTEGER
    ensures PlanMutation(Begin(x), s.store.disk.visible) == Write(WithAttempt(s.store.disk.visible, x))
  {
    var d := s.store.disk.visible;
    assert first in Attempts(d.deliveries, first.body.decisionId);
    VisibleReached(s, first);
    forall y | y in d.deliveries ensures y.body.deliveryId != x.body.deliveryId {
      KnownIds(s, y);
    }
    MisaimAccepted(d, first, x);
  }

  lemma VisibleReached(s: System, first: Delivery)
    requires ReachedInv(s) && first in s.store.disk.visible.deliveries
    ensures s.store.disk.visible in s.store.disk.possible
    ensures SchemaOk(s.store.disk.visible) && AllValid(s.store.disk.visible.deliveries)
  {
    VisibleInv(s);
  }

  /**
  The guard is exact: in any state a run reaches, when a call that had read a document without an attempt is about to
  submit one, while the store shows an unlocked attempt with room for a second, then for every other target the run
  can go on so that the second attempt has it.
  */
  lemma BlindIsExact(doc: Document, events: seq<Event>, call: nat, target: Target)
    requires StartsFrom(doc) && AllKept({}, doc)
    requires var s, looks := Run(Start(doc), events), Looks(Start(doc), map[], events);
             && call in s.delivers && s.delivers[call].Prepared? && call in looks
             && Attempts(looks[call].deliveries, s.delivers[call].decisionId) == []
             && MayMisaim(s.store, s.delivers[call].decisionId, s.delivers[call].decisionHash, target)
    ensures var s := Run(Start(doc), events);
            exists more :: Misaimed(Run(s, more).store.disk.visible, s.delivers[call].decisionId, target)
  {
    var s := Run(Start(doc), events);
    StartReached(doc);
    RunKeepsReached(Start(doc), events);
    StartKept(doc);
    RunKeepsTargets(Start(doc), map[], {}, events);
    assert Informed(Looks(Start(doc), map[], events), s.store.disk.visible, call, s.delivers[call]);
    var s' := BlindMisaims(s, call, target);
    var more :| s' == Run(s, more);
    assert Misaimed(Run(s, more).store.disk.visible, s.delivers[call].decisionId, target);
  }

  // ---------------------------------------------------------------- one run that misaims

  const ELSEWHERE := AnswerFile("other", "label", "answer.json")
  const UNLOCKED := WithResolution(ATTEMPTED, CONFIRMATION)

  lemma UnlockedDocument()
    ensures PlanMutation(Resolve(CONFIRMATION), ATTEMPTED) == Write(UNLOCKED)
    ensures Attempts(UNLOCKED.deliveries, "decision") == [FIRST] && Unlocked(UNLOCKED, FIRST)
  {
    AcceptedConfirmation();
    PlannedConfirmation(ATTEMPTED, CONFIRMATION);
    assert [FIRST][..0] == [];
    assert CONFIRMATION in UNLOCKED.resolutions && Unlocks(CONFIRMATION, FIRST);
  }

  /** A call has read the document and will make a first attempt. */
  function Reader(doc: Document, first: Delivery): System {
    Start(doc).(delivers := map[0 := Prepared(first.body.decisionId, first.body.decisionHash, None)])
  }

  lemma BlindPrepares(doc: Document, first: Delivery)
    requires MayAttempt(doc, first.body.decisionId, first.body.decisionHash) == Some(None)
    ensures Leads(Start(doc), Reader(doc, first))
  {
    LeadsRefl(Start(doc));
    var s := DeliverPrepares(Start(doc), Start(doc), 0, first.body.decisionId, first.body.decisionHash, None);
    assert s == Reader(doc, first);
  }

  /** Meanwhile another call makes the first attempt. */
  lemma OtherRecords(doc: Document, first: Delivery, d: Document) returns (s: System)
    requires FreshIntent(first) && doc.deliveries == []
    requires MayAttempt(doc, first.body.decisionId, first.body.decisionHash) == Some(None)
    requires PlanMutation(Begin(first), doc) == Write(d)
    ensures Leads(Start(doc), s) && s.store.queue == [] && s.store.phase == Idle && s.store.disk.visible == d
    ensures 0 in s.delivers && s.delivers[0] == Prepared(first.body.decisionId, first.body.decisionHash, None)
    ensures s.resolves == map[] && s.active == {} && s.used == {first.body.deliveryId}
  {
    BlindPrepares(doc, first);
    var s1 := Submits(Start(doc), Reader(doc, first), 1, None, first);
    s := LoneRecords(Start(doc), s1, Begin(first), d);
  }

  lemma LabelReads(s: System, q: Request)
    requires WellFormed(q) && s.resolves == map[]
    ensures Next(s, ResolveCalled(9, q)) == s.(resolves := map[9 := Checking(q, s.store.disk.visible)])
  {
  }

  lemma LabelSubmits(s: System, q: Request, d: Document, id: string, now: string)
    requires s.resolves == map[9 := Checking(q, d)] && id !in s.used && Check(d, s.active, q) == None
    ensures var s' := Next(s, ResolveSubmits(9, id, now));
            && s'.delivers == s.delivers
            && s'.store == s.store.(queue := s.store.queue + [Resolve(Build(q, id, now))], tickets := s.store.tickets + 1)
  {
  }

  /** An operator's label is read, checked and submitted. */
  lemma OperatorSubmits(origin: System, s: System, q: Request, id: string, now: string) returns (s': System)
    requires Leads(origin, s) && WellFormed(q) && s.resolves == map[] && id !in s.used
    requires Check(s.store.disk.visible, s.active, q) == None
    ensures Leads(origin, s') && s'.delivers == s.delivers
    ensures s'.store == s.store.(queue := s.store.queue + [Resolve(Build(q, id, now))], tickets := s.store.tickets + 1)
  {
    LabelReads(s, q);
    LeadsNext(origin, s, ResolveCalled(9, q));
    var read := s.(resolves := map[9 := Checking(q, s.store.disk.visible)]);
    LabelSubmits(read, q, s.store.disk.visible, id, now);
    LeadsNext(origin, read, ResolveSubmits(9, id, now));
    s' := Next(read, ResolveSubmits(9, id, now));
  }

  lemma OperatorConfirms(origin: System, before: System, q: Request, id: string, now: string) returns (s: System)
    requires Leads(origin, before) && WellFormed(q) && before.resolves == map[] && id !in before.used
    requires before.store.queue == [] && before.store.phase == Idle
    requires Check(before.store.disk.visible, before.active, q) == None
    requires var d, r := before.store.disk.visible, Build(q, id, now);
             PlanMutation(Resolve(r), d) == Write(WithResolution(d, r))
    ensures Leads(origin, s) && s.store.queue == [] && s.store.phase == Idle && s.delivers == before.delivers
    ensures s.store.disk.visible == WithResolution(before.store.disk.visible, Build(q, id, now))
  {
    var r := Build(q, id, now);
    var s1 := OperatorSubmits(origin, before, q, id, now);
    s := LoneRecords(origin, s1, Resolve(r), WithResolution(before.store.disk.visible, r));
  }

  lemma LeadsOn(origin: System, s: System, s': System)
    requires Leads(origin, s) && Leads(s, s')
    ensures Leads(origin, s')
  {
    var events :| s == Run(origin, events);
    var more :| s' == Run(s, more);
    RunBoth(origin, events, more);
  }

  lemma {:induction false} RunBoth(s: System, events: seq<Event>, more: seq<Event>)
    ensures Run(s, events + more) == Run(Run(s, events), more)
    decreases |events|
  {
    if events == [] {
      assert [] + more == more;
    } else {
      assert (events + more)[1..] == events[1..] + more;
      RunBoth(Next(s, events[0]), events[1..], more);
    }
  }

  /** A call that waits with its first attempt finds another one stored and labelled. */
  lemma ReaderWaits(doc: Document, first: Delivery, d: Document, q: Request, id: string, now: string) returns (s: System)
    requires FreshIntent(first) && doc.deliveries == [] && WellFormed(q) && id != first.body.deliveryId
    requires MayAttempt(doc, first.body.decisionId, first.body.decisionHash) == Some(None)
    requires PlanMutation(Begin(first), doc) == Write(d) && Check(d, {}, q) == None
    requires PlanMutation(Resolve(Build(q, id, now)), d) == Write(WithResolution(d, Build(q, id, now)))
    ensures Leads(Start(doc), s) && s.store.queue == [] && s.store.phase == Idle
    ensures s.store.disk.visible == WithResolution(d, Build(q, id, now))
    ensures 0 in s.delivers && s.delivers[0] == Prepared(first.body.decisionId, first.body.decisionHash, None)
  {
    var before := OtherRecords(doc, first, d);
    s := OperatorConfirms(Start(doc), before, q, id, now);
  }

  lemma Misaims(doc: Document, s: System, call: nat, target: Target)
    requires StartsFrom(doc) && Leads(Start(doc), s)
    requires call in s.delivers && s.delivers[call].Prepared? && s.delivers[call].retryOf.None?
    requires MayMisaim(s.store, s.delivers[call].decisionId, s.delivers[call].decisionHash, target)
    ensures exists events :: Misaimed(Run(Start(doc), events).store.disk.visible, s.delivers[call].decisionId, target)
  {
    ReachedByLead(doc, s);
    var s' := BlindMisaims(s, call, target);
    LeadsOn(Start(doc), s, s');
    var events :| s' == Run(Start(doc), events);
    assert Misaimed(Run(Start(doc), events).store.disk.visible, s.delivers[call].decisionId, target);
  }

  /** So the law is not unconditional: a run sends the second attempt of a decision elsewhere than the first. */
  lemma RetryCanMisaim()
    ensures StartsFrom(DECIDED) && AllKept({}, DECIDED)
    ensures exists events :: Misaimed(Run(Start(DECIDED), events).store.disk.visible, "decision", ELSEWHERE)
  {
    Planned();
    CheckedConfirmation();
    UnlockedDocument();
    var s := ReaderWaits(DECIDED, FIRST, ATTEMPTED, REQUEST, "confirmation", "09:01");
    Misaims(DECIDED, s, 0, ELSEWHERE);
  }

  lemma ReachedByLead(doc: Document, s: System)
    requires StartsFrom(doc) && Leads(Start(doc), s)
    ensures ReachedInv(s)
  {
    var events :| s == Run(Start(doc), events);
    StartReached(doc);
    RunKeepsReached(Start(doc), events);
  }
}
