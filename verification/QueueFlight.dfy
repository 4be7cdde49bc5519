/**
When can two attempts of one decision be in flight together?

An attempt becomes visible on disk before the service lists it as active, so an operator's "not delivered"
label can slip in between. These lemmas show that this gap is the only way: if no label is let through for
an attempt whose intent is still being recorded, at most one attempt per decision is being invoked.
*/
module QueueFlight {
  import opened Options
  import opened SerialStore
  import opened QueueRecords
  import opened QueueMutations
  import opened QueueHistory
  import opened QueueReconciliation
  import opened QueueProtocol
  import opened QueueSafety

  // ---------------------------------------------------------------- what the store knows of an attempt

  /** The body of a resolution stored or submitted. */
  ghost predicate Mentions(s: Store, body: ResolutionBody) {
    || (exists d, r | d in s.disk.possible && r in d.resolutions :: r.body == body)
    || (exists m | m in s.queue :: m.Resolve? && m.resolution.body == body)
  }

  ghost predicate Knows(s: Store, deliveryId: string) {
    || (exists d, x | d in s.disk.possible && x in d.deliveries :: x.body.deliveryId == deliveryId)
    || (exists m | m in s.queue :: m.Begin? && m.delivery.body.deliveryId == deliveryId)
    || (exists m | m in s.queue :: m.Finish? && m.deliveryId == deliveryId)
  }

  ghost predicate HasOutcome(s: Store, deliveryId: string) {
    || (exists d, x | d in s.disk.possible && x in d.deliveries ::
          x.body.deliveryId == deliveryId && x.body.outcome.Some?)
    || (exists m | m in s.queue :: m.Finish? && m.deliveryId == deliveryId)
  }

  lemma WriteMentions(m: Mutation, d: Document, n: Document, r: Resolution)
    requires PlanUnchecked(m, d) == Write(n) && r in n.resolutions
    ensures r in d.resolutions || m == Resolve(r)
  {
  }

  lemma WriteKnows(m: Mutation, d: Document, n: Document, y: Delivery)
    requires PlanUnchecked(m, d) == Write(n) && y in n.deliveries
    ensures || y in d.deliveries
            || m == Begin(y)
            || (m.Finish? && m.deliveryId == y.body.deliveryId
                && exists x | x in d.deliveries :: x.body.deliveryId == y.body.deliveryId)
  {
    var k :| 0 <= k < |n.deliveries| && n.deliveries[k] == y;
    if m.Finish? {
      var i := FirstDelivery(d.deliveries, m.deliveryId);
      assert d.deliveries[i] in d.deliveries;
      if k != i {
        assert d.deliveries[k] in d.deliveries;
      }
    }
  }

  lemma DoMentions(s: Store, step: Step<Document, Mutation>, body: ResolutionBody)
    requires Inv(PlanMutation, s) && Mentions(Do(PlanMutation, s, step), body)
    ensures Mentions(s, body) || (step.Submit? && step.op.Resolve? && step.op.resolution.body == body)
  {
    var s' := Do(PlanMutation, s, step);
    if d, r :| d in s'.disk.possible && r in d.resolutions && r.body == body {
      DoPossible(PlanMutation, s, step, d);
      if d !in s.disk.possible {
        assert s.disk.visible in s.disk.possible && s.queue[0] in s.queue;
        WriteExtends(s.queue[0], s.disk.visible, d);
        WriteMentions(s.queue[0], s.disk.visible, d, r);
      }
    }
  }

  lemma DoKnows(s: Store, step: Step<Document, Mutation>, deliveryId: string)
    requires Inv(PlanMutation, s) && Knows(Do(PlanMutation, s, step), deliveryId)
    ensures || Knows(s, deliveryId)
            || (step.Submit? && step.op.Begin? && step.op.delivery.body.deliveryId == deliveryId)
            || (step.Submit? && step.op.Finish? && step.op.deliveryId == deliveryId)
  {
    var s' := Do(PlanMutation, s, step);
    if d, y :| d in s'.disk.possible && y in d.deliveries && y.body.deliveryId == deliveryId {
      DoPossible(PlanMutation, s, step, d);
      if d !in s.disk.possible {
        assert s.disk.visible in s.disk.possible && s.queue[0] in s.queue;
        WriteExtends(s.queue[0], s.disk.visible, d);
        WriteKnows(s.queue[0], s.disk.visible, d, y);
      }
    }
  }

  lemma DoHasOutcome(s: Store, step: Step<Document, Mutation>, deliveryId: string)
    requires StoreInv(s) && HasOutcome(Do(PlanMutation, s, step), deliveryId)
    ensures HasOutcome(s, deliveryId) || (step.Submit? && step.op.Finish? && step.op.deliveryId == deliveryId)
  {
    var s' := Do(PlanMutation, s, step);
    if d, y :| d in s'.disk.possible && y in d.deliveries && y.body.deliveryId == deliveryId && y.body.outcome.Some? {
      DoPossible(PlanMutation, s, step, d);
      if d !in s.disk.possible {
        assert s.disk.visible in s.disk.possible && s.queue[0] in s.queue;
        WriteExtends(s.queue[0], s.disk.visible, d);
        WriteKnows(s.queue[0], s.disk.visible, d, y);
      }
    }
  }

  // ---------------------------------------------------------------- the gap

  predicate ConfirmsPending(r: ResolutionBody, deliveryId: string) {
    && r.action == ConfirmedNotDelivered && r.delivery.Some?
    && r.delivery.value.deliveryId == deliveryId
    && r.delivery.value.deliveryHash.OfDelivery?
    && r.delivery.value.deliveryHash.delivery.outcome.None?
  }

  /** No deliver call is still waiting for the answer to the intent that the request would confirm. */
  predicate GapFree(s: System, e: Event) {
    e.ResolveSubmits? && e.call in s.resolves && s.resolves[e.call].Checking? ==>
      var q := s.resolves[e.call].request;
      q.action == ConfirmedNotDelivered && q.delivery.Some? ==>
        forall c | c in s.delivers && s.delivers[c].AwaitingIntent? ::
          s.delivers[c].delivery.body.deliveryId != q.delivery.value.deliveryId
  }

  predicate Guarded(s: System, events: seq<Event>)
    decreases |events|
  {
    events == [] || (GapFree(s, events[0]) && Guarded(Next(s, events[0]), events[1..]))
  }

  predicate Pending(c: DeliverCall) {
    c.AwaitingIntent? || c.Invoking?
  }

  ghost predicate KnownInv(s: System) {
    && (forall id | Knows(s.store, id) :: id in s.used)
    && (forall body | Mentions(s.store, body) && body.delivery.Some? :: body.delivery.value.deliveryId in s.used)
    && (forall call, x | call in s.resolves && s.resolves[call].Checking? && x in s.resolves[call].snapshot.deliveries ::
          x.body.deliveryId in s.used)
  }

  ghost predicate FlightInv(s: System) {
    && (forall call, body | call in s.delivers && Holding(s.delivers[call]) && Mentions(s.store, body) ::
          !ConfirmsPending(body, s.delivers[call].delivery.body.deliveryId))
    && (forall call | call in s.delivers && Pending(s.delivers[call]) ::
          !HasOutcome(s.store, s.delivers[call].delivery.body.deliveryId))
    && (forall call | call in s.delivers && s.delivers[call].Invoking? :: s.delivers[call].delivery in s.invoked)
  }

  lemma NextUsed(s: System, e: Event)
    ensures s.used <= Next(s, e).used
    ensures StoreStep(s, e).Some? && StoreStep(s, e).value.Submit? && StoreStep(s, e).value.op.Begin? ==>
              StoreStep(s, e).value.op.delivery.body.deliveryId in Next(s, e).used
  {
  }

  lemma SubmittedFinish(s: System, e: Event)
    requires StoreStep(s, e).Some? && StoreStep(s, e).value.Submit? && StoreStep(s, e).value.op.Finish?
    ensures e.DeliverReports? && e.call in s.delivers && s.delivers[e.call].Invoking?
    ensures StoreStep(s, e).value.op.deliveryId == s.delivers[e.call].delivery.body.deliveryId
  {
  }

  lemma SubmittedResolve(s: System, e: Event)
    requires StoreStep(s, e).Some? && StoreStep(s, e).value.Submit? && StoreStep(s, e).value.op.Resolve?
    ensures e.ResolveSubmits? && e.call in s.resolves && s.resolves[e.call].Checking?
    ensures var c := s.resolves[e.call];
            && Check(c.snapshot, s.active, c.request).None?
            && StoreStep(s, e).value.op.resolution == Build(c.request, e.resolutionId, e.now)
    ensures Next(s, e).delivers == s.delivers
  {
  }

  lemma NextMentions(s: System, e: Event, body: ResolutionBody)
    requires SystemInv(s) && Mentions(Next(s, e).store, body)
    ensures || Mentions(s.store, body)
            || (&& StoreStep(s, e).Some? && StoreStep(s, e).value.Submit? && StoreStep(s, e).value.op.Resolve?
                && StoreStep(s, e).value.op.resolution.body == body)
  {
    NextStore(s, e);
    if StoreStep(s, e).Some? {
      DoMentions(s.store, StoreStep(s, e).value, body);
    }
  }

  lemma CheckedIsKnown(d: Document, active: set<string>, q: Request)
    requires Check(d, active, q).None? && q.delivery.Some?
    ensures exists x | x in d.deliveries ::
              && x.body.deliveryId == q.delivery.value.deliveryId && x.hash == q.delivery.value.deliveryHash
              && !(x.body.outcome.None? && x.body.deliveryId in active)
  {
    var x := d.deliveries[FirstDelivery(d.deliveries, q.delivery.value.deliveryId)];
    assert x in d.deliveries;
  }

  lemma NextKeepsKnown(s: System, e: Event)
    requires SystemInv(s) && KnownInv(s)
    ensures KnownInv(Next(s, e))
  {
    var s' := Next(s, e);
    NextUsed(s, e);
    NextStore(s, e);
    forall id | Knows(s'.store, id) ensures id in s'.used {
      if StoreStep(s, e).Some? {
        DoKnows(s.store, StoreStep(s, e).value, id);
        if !Knows(s.store, id) && StoreStep(s, e).value.op.Finish? {
          SubmittedFinish(s, e);
        }
      }
    }
    forall body | Mentions(s'.store, body) && body.delivery.Some? ensures body.delivery.value.deliveryId in s'.used {
      NextMentions(s, e, body);
      if !Mentions(s.store, body) {
        SubmittedResolve(s, e);
        var c := s.resolves[e.call];
        CheckedIsKnown(c.snapshot, s.active, c.request);
      }
    }
    forall call, x | call in s'.resolves && s'.resolves[call].Checking? && x in s'.resolves[call].snapshot.deliveries
      ensures x.body.deliveryId in s'.used
    {
      NextSnapshot(s, e, call);
      assert s.store.disk.visible in s.store.disk.possible;
      if s'.resolves[call].snapshot == s.store.disk.visible {
        assert Knows(s.store, x.body.deliveryId);
      }
    }
  }

  /** A call holds the attempt it held before, or has just drawn a fresh one. */
  lemma NextHolding(s: System, e: Event, call: nat)
    requires call in Next(s, e).delivers && Holding(Next(s, e).delivers[call])
    ensures var c := Next(s, e).delivers[call];
            || (&& call in s.delivers && Holding(s.delivers[call]) && s.delivers[call].delivery == c.delivery
                && (Pending(c) ==> Pending(s.delivers[call]) && !(e.DeliverReports? && e.call == call
                                                                  && s.delivers[call].Invoking?)))
            || (c.delivery.body.deliveryId !in s.used && e.DeliverSubmits?)
  {
  }

  lemma NextInvoking(s: System, e: Event, call: nat)
    requires call in Next(s, e).delivers && Next(s, e).delivers[call].Invoking?
    ensures (call in s.delivers && s.delivers[call] == Next(s, e).delivers[call])
         || Next(s, e).delivers[call].delivery in Next(s, e).invoked
  {
  }

  lemma NextKeepsInvoking(s: System, e: Event, call: nat)
    requires FlightInv(s) && call in Next(s, e).delivers && Next(s, e).delivers[call].Invoking?
    ensures Next(s, e).delivers[call].delivery in Next(s, e).invoked
  {
    NextInvoking(s, e, call);
    NextInvoked(s, e);
  }

  lemma NewConfirmation(s: System, e: Event, call: nat)
    requires SystemInv(s) && GapFree(s, e)
    requires StoreStep(s, e).Some? && StoreStep(s, e).value.Submit? && StoreStep(s, e).value.op.Resolve?
    requires call in s.delivers && Holding(s.delivers[call])
    ensures !ConfirmsPending(StoreStep(s, e).value.op.resolution.body, s.delivers[call].delivery.body.deliveryId)
  {
    SubmittedResolve(s, e);
    var c := s.resolves[e.call];
    var id := s.delivers[call].delivery.body.deliveryId;
    if c.request.delivery.Some? && c.request.delivery.value.deliveryId == id {
      CheckedIsKnown(c.snapshot, s.active, c.request);
      var x :| x in c.snapshot.deliveries && x.body.deliveryId == id && x.hash == c.request.delivery.value.deliveryHash
               && !(x.body.outcome.None? && x.body.deliveryId in s.active);
      assert ValidDelivery(x);
      assert !s.delivers[call].AwaitingIntent? ==> id in ActiveIds(s.delivers);
    }
  }

  lemma NextKeepsConfirmations(s: System, e: Event, call: nat, body: ResolutionBody)
    requires SystemInv(s) && KnownInv(s) && FlightInv(s) && GapFree(s, e)
    requires call in Next(s, e).delivers && Holding(Next(s, e).delivers[call]) && Mentions(Next(s, e).store, body)
    ensures !ConfirmsPending(body, Next(s, e).delivers[call].delivery.body.deliveryId)
  {
    NextHolding(s, e, call);
    NextMentions(s, e, body);
    if !Mentions(s.store, body) {
      SubmittedResolve(s, e);
      NewConfirmation(s, e, call);
    }
  }

  lemma NextKeepsPending(s: System, e: Event, call: nat)
    requires SystemInv(s) && KnownInv(s) && FlightInv(s)
    requires call in Next(s, e).delivers && Pending(Next(s, e).delivers[call])
    ensures !HasOutcome(Next(s, e).store, Next(s, e).delivers[call].delivery.body.deliveryId)
  {
    var id := Next(s, e).delivers[call].delivery.body.deliveryId;
    NextHolding(s, e, call);
    NextStore(s, e);
    assert HasOutcome(s.store, id) ==> Knows(s.store, id);
    if StoreStep(s, e).Some? && HasOutcome(Next(s, e).store, id) {
      DoHasOutcome(s.store, StoreStep(s, e).value, id);
      if !HasOutcome(s.store, id) {
        SubmittedFinish(s, e);
      }
    }
  }

  lemma NextKeepsFlight(s: System, e: Event)
    requires SystemInv(s) && KnownInv(s) && FlightInv(s) && GapFree(s, e)
    ensures FlightInv(Next(s, e))
  {
    var s' := Next(s, e);
    forall call, body | call in s'.delivers && Holding(s'.delivers[call]) && Mentions(s'.store, body)
      ensures !ConfirmsPending(body, s'.delivers[call].delivery.body.deliveryId)
    {
      NextKeepsConfirmations(s, e, call, body);
    }
    forall call | call in s'.delivers && Pending(s'.delivers[call])
      ensures !HasOutcome(s'.store, s'.delivers[call].delivery.body.deliveryId)
    {
      NextKeepsPending(s, e, call);
    }
    forall call | call in s'.delivers && s'.delivers[call].Invoking?
      ensures s'.delivers[call].delivery in s'.invoked
    {
      NextKeepsInvoking(s, e, call);
    }
  }

  lemma {:induction false} FlightInvariant(s: System, events: seq<Event>)
    requires SystemInv(s) && SchemaInv(s) && KnownInv(s) && FlightInv(s) && Guarded(s, events)
    ensures var s' := Run(s, events); SystemInv(s') && SchemaInv(s') && FlightInv(s')
    decreases |events|
  {
    if events != [] {
      var e := events[0];
      NextKeepsInv(s, e);
      NextKeepsSchema(s, e);
      NextKeepsKnown(s, e);
      NextKeepsFlight(s, e);
      FlightInvariant(Next(s, e), events[1..]);
    }
  }

  lemma LockedWhileInvoking(s: System, call: nat, x: Delivery)
    requires SystemInv(s) && FlightInv(s)
    requires call in s.delivers && s.delivers[call].Invoking?
    requires x in s.store.disk.visible.deliveries && x.body.outcome.None?
    requires x.body.deliveryId == s.delivers[call].delivery.body.deliveryId
    ensures !Unlocked(s.store.disk.visible, x)
  {
    var d := s.store.disk.visible;
    assert d in s.store.disk.possible && ValidDelivery(x);
    forall r | r in d.resolutions ensures !Unlocks(r, x) {
      assert Mentions(s.store, r.body);
    }
  }

  lemma OneOfTwoUnlocked(d: Document, decisionId: string, x: Delivery, y: Delivery)
    requires SchemaAttempts(d, decisionId)
    requires x in Attempts(d.deliveries, decisionId) && y in Attempts(d.deliveries, decisionId)
    requires x.body.deliveryId != y.body.deliveryId
    ensures Unlocked(d, x) || Unlocked(d, y)
  {
  }

  lemma StoredAttempt(s: System, call: nat)
    requires SystemInv(s) && FlightInv(s) && call in s.delivers && s.delivers[call].Invoking?
    ensures var c := s.delivers[call].delivery.body;
            exists x | x in Attempts(s.store.disk.visible.deliveries, c.decisionId) ::
              x.body.deliveryId == c.deliveryId && x.body.outcome.None?
  {
    var d := s.store.disk.visible;
    var delivery := s.delivers[call].delivery;
    var k :| 0 <= k < |s.invoked| && s.invoked[k] == delivery;
    assert d in s.store.disk.possible && Stored(d, s.invoked[k]);
    var x :| x in d.deliveries && x.body.deliveryId == delivery.body.deliveryId
             && x.body.decisionId == delivery.body.decisionId;
    assert x in Attempts(d.deliveries, delivery.body.decisionId);
    assert !HasOutcome(s.store, delivery.body.deliveryId);
  }

  lemma InFlightDiffer(s: System, a: nat, b: nat)
    requires SystemInv(s) && SchemaInv(s) && FlightInv(s)
    requires a in s.delivers && b in s.delivers && a != b && s.delivers[a].Invoking? && s.delivers[b].Invoking?
    ensures s.delivers[a].delivery.body.decisionId != s.delivers[b].delivery.body.decisionId
  {
    var d := s.store.disk.visible;
    var decisionId := s.delivers[a].delivery.body.decisionId;
    StoredAttempt(s, a);
    var x :| x in Attempts(d.deliveries, decisionId)
             && x.body.deliveryId == s.delivers[a].delivery.body.deliveryId && x.body.outcome.None?;
    LockedWhileInvoking(s, a, x);
    if s.delivers[b].delivery.body.decisionId == decisionId {
      StoredAttempt(s, b);
      var y :| y in Attempts(d.deliveries, decisionId)
               && y.body.deliveryId == s.delivers[b].delivery.body.deliveryId && y.body.outcome.None?;
      VisibleAttempts(s, decisionId, x);
      LockedWhileInvoking(s, b, y);
      OneOfTwoUnlocked(d, decisionId, x, y);
    }
  }

  lemma VisibleAttempts(s: System, decisionId: string, x: Delivery)
    requires SystemInv(s) && SchemaInv(s) && x in Attempts(s.store.disk.visible.deliveries, decisionId)
    ensures SchemaAttempts(s.store.disk.visible, decisionId)
  {
    assert s.store.disk.visible in s.store.disk.possible;
  }

  lemma StartKnown(doc: Document)
    requires StartsFrom(doc)
    ensures KnownInv(Start(doc)) && SchemaInv(Start(doc))
  {
    var start := Start(doc);
    forall body | Mentions(start.store, body) && body.delivery.Some?
      ensures body.delivery.value.deliveryId in start.used
    {
      var r :| r in doc.resolutions && r.body == body;
      assert SchemaReference(doc, r.body);
      var i := FirstDelivery(doc.deliveries, body.delivery.value.deliveryId);
      assert doc.deliveries[i] in doc.deliveries;
    }
  }

  /**
  In every run where no confirmation is let through for an attempt whose intent is still being answered,
  two deliver calls that are invoking their targets always act for different decisions.
  */
  lemma AtMostOneInFlight(doc: Document, events: seq<Event>, a: nat, b: nat)
    requires StartsFrom(doc) && Guarded(Start(doc), events)
    requires var s := Run(Start(doc), events);
             a in s.delivers && b in s.delivers && a != b && s.delivers[a].Invoking? && s.delivers[b].Invoking?
    ensures var s := Run(Start(doc), events);
            s.delivers[a].delivery.body.decisionId != s.delivers[b].delivery.body.decisionId
  {
    var start := Start(doc);
    StartInv(doc);
    StartKnown(doc);
    FlightInvariant(start, events);
    InFlightDiffer(Run(start, events), a, b);
  }
}
