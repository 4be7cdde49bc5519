/** The shape of every stored label, and what the advertised retry status means in every document of a run. */
module QueueLabels {
  import opened Options
  import opened SerialStore
  import opened QueueRecords
  import opened QueueMutations
  import opened QueueHistory
  import opened QueueReconciliation
  import opened QueueProtocol
  import opened QueueSafety
  import opened QueueFlight

  /** A supersession names the other decision and no attempt; every other label names an attempt and no decision. */
  predicate Shaped(action: Action, delivery: Option<DeliveryRef>, related: Option<DecisionRef>) {
    if action == Superseded then delivery.None? && related.Some? else delivery.Some? && related.None?
  }

  predicate ShapedBody(r: ResolutionBody) {
    Shaped(r.action, r.delivery, r.related)
  }

  predicate ShapedRequest(q: Request) {
    Shaped(q.action, q.delivery, q.related)
  }

  lemma WellFormedIff(q: Request)
    ensures WellFormed(q) <==> ShapedRequest(q)
  {
  }

  ghost predicate LabelInv(s: System) {
    && (forall body | Mentions(s.store, body) :: ShapedBody(body))
    && (forall call | call in s.resolves && s.resolves[call].Checking? :: ShapedRequest(s.resolves[call].request))
  }

  /** A request being checked was checked before, or has just been read and is well formed. */
  lemma NextRequest(s: System, e: Event, call: nat)
    requires call in Next(s, e).resolves && Next(s, e).resolves[call].Checking?
    ensures (call in s.resolves && s.resolves[call] == Next(s, e).resolves[call])
         || WellFormed(Next(s, e).resolves[call].request)
  {
  }

  lemma NextKeepsLabels(s: System, e: Event)
    requires SystemInv(s) && LabelInv(s)
    ensures LabelInv(Next(s, e))
  {
    forall body | Mentions(Next(s, e).store, body) ensures ShapedBody(body) {
      NextMentions(s, e, body);
      if !Mentions(s.store, body) {
        SubmittedResolve(s, e);
      }
    }
    forall call | call in Next(s, e).resolves && Next(s, e).resolves[call].Checking?
      ensures ShapedRequest(Next(s, e).resolves[call].request)
    {
      NextRequest(s, e, call);
      WellFormedIff(Next(s, e).resolves[call].request);
    }
  }

  lemma {:induction false} RunKeepsLabels(s: System, events: seq<Event>)
    requires SystemInv(s) && SchemaInv(s) && LabelInv(s)
    ensures SystemInv(Run(s, events)) && SchemaInv(Run(s, events)) && LabelInv(Run(s, events))
    decreases |events|
  {
    if events != [] {
      var e := events[0];
      NextKeepsLabels(s, e);
      NextKeepsSchema(s, e);
      NextKeepsInv(s, e);
      RunKeepsLabels(Next(s, e), events[1..]);
    }
  }

  predicate AllShaped(d: Document) {
    forall r | r in d.resolutions :: ShapedBody(r.body)
  }

  lemma StartLabels(doc: Document)
    requires StartsFrom(doc) && AllShaped(doc)
    ensures SystemInv(Start(doc)) && SchemaInv(Start(doc)) && LabelInv(Start(doc))
  {
    StartInv(doc);
    StartKnown(doc);
    forall body | Mentions(Start(doc).store, body) ensures ShapedBody(body) {
      var r :| r in doc.resolutions && r.body == body;
    }
  }

  /** In every document a run could leave, every label has the shape its action asks for. */
  lemma StoredLabelsAreShaped(doc: Document, events: seq<Event>, d: Document)
    requires StartsFrom(doc) && AllShaped(doc)
    requires d in Run(Start(doc), events).store.disk.possible
    ensures AllShaped(d)
  {
    StartLabels(doc);
    RunKeepsLabels(Start(doc), events);
    forall r | r in d.resolutions ensures ShapedBody(r.body) {
      assert Mentions(Run(Start(doc), events).store, r.body);
    }
  }

  /**
  So in every document a run could leave, "retry ready" is advertised exactly when there is one attempt, a
  confirmation unlocks it, and the confirmation is the latest label of the decision; "locked" when the only attempt
  is not delivered and has no label yet; "exhausted" when there are two.
  */
  lemma ReadyAlongRuns(doc: Document, events: seq<Event>, d: Document, decisionId: string)
    requires StartsFrom(doc) && AllShaped(doc)
    requires d in Run(Start(doc), events).store.disk.possible
    ensures var attempts := Attempts(d.deliveries, decisionId);
            var history := ActionsOf(d.resolutions, decisionId);
            && (RetryStatus(attempts, history) == Ready <==>
                  && |attempts| == 1 && Unlocked(d, attempts[0])
                  && history != [] && history[|history| - 1] == ConfirmedNotDelivered)
            && (RetryStatus(attempts, history) == Locked <==>
                  |attempts| == 1 && !IsDelivered(attempts[0].body) && history == [])
            && (RetryStatus(attempts, history) == Exhausted <==> |attempts| == 2)
  {
    StartLabels(doc);
    RunKeepsLabels(Start(doc), events);
    StoredLabelsAreShaped(doc, events, d);
    ReadyIff(d, decisionId) by {
      assert d == EMPTY || SchemaOk(d);
      assert DocumentInv(d);
    }
    assert DocumentInv(d) && AttemptsBounded(d, decisionId);
  }
}
