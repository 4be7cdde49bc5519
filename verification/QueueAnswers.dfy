/** What each of the four mutations is answered, told from the document and the record alone. */
module QueueAnswers {
  import opened Options
  import opened SerialStore
  import opened QueueRecords
  import opened QueueMutations
  import opened QueueHistory
  import opened QueueReconciliation
  import opened QueueProtocol
  import opened QueueAgreement

  predicate Accepted(d: Document) {
    d == EMPTY || SchemaOk(d)
  }

  // ---------------------------------------------------------------- appending a decision

  predicate Decided(d: Document, source: Source) {
    exists c | c in d.decisions :: KeyOf(c.body.source) == KeyOf(source)
  }

  predicate DecidedAs(d: Document, body: DecisionBody) {
    exists c | c in d.decisions :: KeyOf(c.body.source) == KeyOf(body.source) && c.body.payload == body.payload
  }

  predicate FreshDecision(d: Document, decisionId: string) {
    forall c | c in d.decisions :: c.body.decisionId != decisionId
  }

  function WithDecision(d: Document, c: Decision): Document {
    d.(revision := d.revision + 1, decisions := d.decisions + [c])
  }

  lemma DecisionStays(decisions: seq<Decision>, c: Decision, decisionId: string)
    requires c.body.decisionId != decisionId
    ensures DecisionById(decisions + [c], decisionId) == DecisionById(decisions, decisionId)
  {
    assert (decisions + [c])[..|decisions|] == decisions;
  }

  lemma ReferenceStays(d: Document, c: Decision, decisionId: string, hash: Hash)
    requires FreshDecision(d, c.body.decisionId) && References(d, decisionId, hash)
    ensures References(WithDecision(d, c), decisionId, hash)
  {
    DecisionStays(d.decisions, c, decisionId);
  }

  lemma RelatedStays(d: Document, c: Decision, r: ResolutionBody)
    requires FreshDecision(d, c.body.decisionId) && SchemaRelated(d, r)
    ensures SchemaRelated(WithDecision(d, c), r)
  {
    if r.related.Some? {
      DecisionStays(d.decisions, c, r.decisionId);
      DecisionStays(d.decisions, c, r.related.value.decisionId);
    }
  }

  lemma DecisionKeepsDeliveries(d: Document, c: Decision)
    requires SchemaDeliveries(d) && FreshDecision(d, c.body.decisionId)
    ensures SchemaDeliveries(WithDecision(d, c))
  {
    var n := WithDecision(d, c);
    forall x | x in n.deliveries
      ensures References(n, x.body.decisionId, x.body.decisionHash) && SchemaAttempts(n, x.body.decisionId)
    {
      ReferenceStays(d, c, x.body.decisionId, x.body.decisionHash);
      assert SchemaAttempts(d, x.body.decisionId);
    }
  }

  lemma DecisionKeepsResolutions(d: Document, c: Decision)
    requires SchemaResolutions(d) && FreshDecision(d, c.body.decisionId)
    ensures SchemaResolutions(WithDecision(d, c))
  {
    var n := WithDecision(d, c);
    forall r | r in n.resolutions
      ensures References(n, r.body.decisionId, r.body.decisionHash) && SchemaReference(n, r.body) && SchemaRelated(n, r.body)
    {
      assert SchemaReference(d, r.body);
      ReferenceStays(d, c, r.body.decisionId, r.body.decisionHash);
      RelatedStays(d, c, r.body);
    }
  }

  lemma DecidedIff(d: Document, source: Source)
    ensures Decided(d, source)
       <==> exists i | 0 <= i < |d.decisions| :: KeyOf(d.decisions[i].body.source) == KeyOf(source)
  {
    if i :| 0 <= i < |d.decisions| && KeyOf(d.decisions[i].body.source) == KeyOf(source) {
      assert d.decisions[i] in d.decisions;
    }
  }

  lemma FirstWithKeyIs(d: Document, c: Decision)
    requires DistinctKeys(d.decisions) && c in d.decisions
    ensures Decided(d, c.body.source)
    ensures (exists i | 0 <= i < |d.decisions| :: KeyOf(d.decisions[i].body.source) == KeyOf(c.body.source))
    ensures d.decisions[FirstWithKey(d.decisions, KeyOf(c.body.source))] == c
  {
    var k :| 0 <= k < |d.decisions| && d.decisions[k] == c;
    var i := FirstWithKey(d.decisions, KeyOf(c.body.source));
    assert !(i < k) && !(k < i);
  }

  lemma AppendPlans(d: Document, c: Decision)
    requires DistinctKeys(d.decisions)
    ensures PlanUnchecked(Append(c), d)
         == if c.hash != OfDecision(c.body) then Refuse(InvalidState)
            else if Decided(d, c.body.source) then if DecidedAs(d, c.body) then Existing else Refuse(AlreadyDecided)
            else if 4096 <= |d.decisions| then Refuse(StateFull)
            else if d.revision < MAX_SAFE_INTEGER then Write(WithDecision(d, c))
            else Refuse(InvalidState)
  {
    DecidedIff(d, c.body.source);
    if Decided(d, c.body.source) {
      var other :| other in d.decisions && KeyOf(other.body.source) == KeyOf(c.body.source);
      FirstWithKeyIs(d, other);
      forall x | x in d.decisions && KeyOf(x.body.source) == KeyOf(c.body.source) ensures x == other {
        FirstWithKeyIs(d, x);
      }
    }
  }

  /**
  A decision with a fresh identifier is stored exactly if its hash is right, its item is not decided and there is
  room. A decided item is answered "already" for the same payload and refused as decided for another.
  */
  lemma AppendAnswers(d: Document, c: Decision)
    requires Accepted(d) && DistinctKeys(d.decisions) && FreshDecision(d, c.body.decisionId)
    ensures PlanMutation(Append(c), d)
         == if c.hash != OfDecision(c.body) then Refuse(InvalidState)
            else if Decided(d, c.body.source) then if DecidedAs(d, c.body) then Existing else Refuse(AlreadyDecided)
            else if 4096 <= |d.decisions| then Refuse(StateFull)
            else if d.revision < MAX_SAFE_INTEGER then Write(WithDecision(d, c))
            else Refuse(InvalidState)
  {
    AppendPlans(d, c);
    if PlanUnchecked(Append(c), d).Write? {
      DecisionKeepsDeliveries(d, c);
      DecisionKeepsResolutions(d, c);
      CheckedPlan(Append(c), d, WithDecision(d, c));
    } else {
      Unwritten(Append(c), d);
    }
  }

  // ---------------------------------------------------------------- beginning an attempt

  /** This very attempt is stored already, by its identifier or its hash. */
  predicate Begun(d: Document, x: Delivery) {
    exists a | a in d.deliveries ::
      a.body.decisionId == x.body.decisionId && (a.body.deliveryId == x.body.deliveryId || a.hash == x.hash)
  }

  lemma BeginPlans(d: Document, x: Delivery)
    ensures PlanUnchecked(Begin(x), d)
         == if x.hash != OfDelivery(x.body) then Refuse(InvalidState)
            else if Begun(d, x) || !Open(d, x.body.decisionId) then Existing
            else if !Names(d.decisions, x.body.decisionId, x.body.decisionHash) then Refuse(InvalidState)
            else if 8192 <= |d.deliveries| then Refuse(StateFull)
            else if d.revision < MAX_SAFE_INTEGER then Write(WithAttempt(d, x))
            else Refuse(InvalidState)
  {
    var attempts := Attempts(d.deliveries, x.body.decisionId);
    assert Begun(d, x) <==> exists a | a in attempts :: a.body.deliveryId == x.body.deliveryId || a.hash == x.hash;
  }

  /**
  An attempt is answered "existing" exactly if it is stored, or its decision has an attempt that is not unlocked, or
  two; the store is full for it at 8192 attempts; and what is stored is the attempt at the end, one revision later.
  */
  lemma BeginAnswers(d: Document, x: Delivery)
    ensures var answer, valid := PlanMutation(Begin(x), d), x.hash == OfDelivery(x.body);
            && (answer == Existing <==> valid && (Begun(d, x) || !Open(d, x.body.decisionId)))
            && (answer == Refuse(StateFull) <==>
                  && valid && !Begun(d, x) && Open(d, x.body.decisionId) && 8192 <= |d.deliveries|
                  && Names(d.decisions, x.body.decisionId, x.body.decisionHash))
            && (answer.Refuse? ==> answer.code == StateFull || answer.code == InvalidState)
            && (answer.Write? ==> answer.next == WithAttempt(d, x))
  {
    BeginPlans(d, x);
    CheckedRefusal(Begin(x), d);
  }

  lemma CheckedRefusal(m: Mutation, d: Document)
    ensures PlanMutation(m, d) == PlanUnchecked(m, d)
         || (PlanUnchecked(m, d).Write? && PlanMutation(m, d) == Refuse(InvalidState))
  {
  }

  lemma DistinctNeeds(deliveries: seq<Delivery>, x: Delivery)
    requires var all := deliveries + [x];
             forall i, j | 0 <= i < j < |all| :: all[i].body.deliveryId != all[j].body.deliveryId
    ensures forall y | y in deliveries :: y.body.deliveryId != x.body.deliveryId
  {
    var all := deliveries + [x];
    forall y | y in deliveries ensures y.body.deliveryId != x.body.deliveryId {
      var k :| 0 <= k < |deliveries| && deliveries[k] == y;
      assert all[k].body.deliveryId != all[|deliveries|].body.deliveryId;
    }
  }

  lemma PayloadNeeds(d: Document, x: Delivery)
    requires SchemaAttempts(WithAttempt(d, x), x.body.decisionId)
    ensures forall y | y in Attempts(d.deliveries, x.body.decisionId) :: SamePayload(y.body, x.body)
  {
    AttemptsAppend(d.deliveries, x, x.body.decisionId);
  }

  lemma BeginNeeds(d: Document, x: Delivery)
    requires SchemaDeliveries(WithAttempt(d, x))
    ensures forall y | y in d.deliveries :: y.body.deliveryId != x.body.deliveryId
    ensures forall y | y in Attempts(d.deliveries, x.body.decisionId) :: SamePayload(y.body, x.body)
  {
    var n := WithAttempt(d, x);
    assert n.deliveries[|d.deliveries|] == x && x in n.deliveries;
    DistinctNeeds(d.deliveries, x);
    PayloadNeeds(d, x);
  }

  /**
  A new attempt is stored exactly if its decision is open and stored under its hash, its identifier is new, its
  payload is that of the first attempt if there is one, and there is room.
  */
  lemma BeginAcceptedIff(d: Document, x: Delivery)
    requires SchemaOk(d) && DistinctDecisions(d.decisions) && AllValid(d.deliveries) && x.body.outcome.None?
    ensures PlanMutation(Begin(x), d) == Write(WithAttempt(d, x))
       <==> (&& x.hash == OfDelivery(x.body) && Open(d, x.body.decisionId)
             && Names(d.decisions, x.body.decisionId, x.body.decisionHash)
             && (forall y | y in d.deliveries :: y.body.deliveryId != x.body.deliveryId)
             && (forall y | y in Attempts(d.deliveries, x.body.decisionId) :: SamePayload(y.body, x.body))
             && |d.deliveries| < 8192 && d.revision < MAX_SAFE_INTEGER)
  {
    ReferencesIff(d, x.body.decisionId, x.body.decisionHash);
    BeginPlans(d, x);
    CheckedRefusal(Begin(x), d);
    if PlanMutation(Begin(x), d).Write? {
      BeginSchema(d, x);
      BeginNeeds(d, x);
    } else if Fits(d, x) && Open(d, x.body.decisionId) && References(d, x.body.decisionId, x.body.decisionHash)
              && |d.deliveries| < MAX_DELIVERIES && d.revision < MAX_SAFE_INTEGER {
      AttemptAccepted(d, x);
    }
  }

  lemma BeginSchema(d: Document, x: Delivery)
    requires PlanMutation(Begin(x), d).Write? && PlanUnchecked(Begin(x), d) == Write(WithAttempt(d, x))
    ensures SchemaOk(WithAttempt(d, x))
  {
  }

  // ---------------------------------------------------------------- finishing an attempt

  lemma FinishPlans(d: Document, x: Delivery, outcome: Outcome)
    requires DistinctAttempts(d.deliveries) && x in d.deliveries
    ensures PlanUnchecked(Finish(x.body.deliveryId, outcome), d).Write?
       <==> x.body.outcome.None? && d.revision < MAX_SAFE_INTEGER
    ensures PlanUnchecked(Finish(x.body.deliveryId, outcome), d) == Existing <==> x.body.outcome == Some(outcome)
    ensures PlanUnchecked(Finish(x.body.deliveryId, outcome), d).Refuse? ==>
              PlanUnchecked(Finish(x.body.deliveryId, outcome), d).code == InvalidState
  {
    SameAttempt(d.deliveries, x);
  }

  /**
  An outcome is stored exactly for a pending attempt that no label names; the outcome it has already is answered
  "existing", and everything else is refused as invalid.
  */
  lemma FinishAnswers(d: Document, x: Delivery, outcome: Outcome)
    requires SchemaOk(d) && AllValid(d.deliveries) && x in d.deliveries && d.revision < MAX_SAFE_INTEGER
    ensures var answer := PlanMutation(Finish(x.body.deliveryId, outcome), d);
            && (answer == Existing <==> x.body.outcome == Some(outcome))
            && (answer.Write? <==> x.body.outcome.None? && !Referenced(d, x.body.deliveryId))
            && (answer.Refuse? ==> answer.code == InvalidState)
  {
    SchemaDistinct(d);
    FinishPlans(d, x, outcome);
    SameAttempt(d.deliveries, x);
    CheckedRefusal(Finish(x.body.deliveryId, outcome), d);
    if x.body.outcome.None? {
      FinishAcceptedIff(d, x.body.deliveryId, outcome);
    }
  }

  lemma NobodyToFinish(d: Document, deliveryId: string, outcome: Outcome)
    requires forall x | x in d.deliveries :: x.body.deliveryId != deliveryId
    ensures PlanMutation(Finish(deliveryId, outcome), d) == Refuse(InvalidState)
  {
    assert forall i | 0 <= i < |d.deliveries| :: d.deliveries[i] in d.deliveries;
    Unwritten(Finish(deliveryId, outcome), d);
  }

  // ---------------------------------------------------------------- appending a label

  /**
  A label whose action is new for its decision is refused as too many exactly at 8192 labels, and as invalid without
  a document or with a wrong hash; what is stored is the label at the end, one revision later.
  */
  lemma LabelAnswers(d: Document, r: Resolution)
    requires r.body.action !in ActionsOf(d.resolutions, r.body.decisionId)
    ensures var answer := PlanMutation(Resolve(r), d);
            && (answer == Refuse(StateFull) <==>
                  r.hash == OfResolution(r.body) && d.revision != 0 && 8192 <= |d.resolutions|)
            && answer != Existing && (answer.Refuse? ==> answer.code == StateFull || answer.code == InvalidState)
            && (answer.Write? ==> answer.next == WithResolution(d, r) && r.hash == OfResolution(r.body) && d.revision != 0)
  {
    ActionsIff(d.resolutions, r.body);
    LabelPlansAs(d, r);
    CheckedRefusal(Resolve(r), d);
  }

  lemma LabelPlansAs(d: Document, r: Resolution)
    requires !exists i | 0 <= i < |d.resolutions| :: SameAction(d.resolutions[i].body, r.body)
    ensures PlanUnchecked(Resolve(r), d)
         == if r.hash != OfResolution(r.body) || d.revision == 0 then Refuse(InvalidState)
            else if 8192 <= |d.resolutions| then Refuse(StateFull)
            else if d.revision < MAX_SAFE_INTEGER then Write(WithResolution(d, r))
            else Refuse(InvalidState)
  {
  }
}
