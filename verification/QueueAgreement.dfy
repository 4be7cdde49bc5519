/**
What the services let through is what the store accepts: the checks of a resolve call and of a deliver call
against the planner, on every document that the schema accepts.
*/
module QueueAgreement {
  import opened Options
  import opened SerialStore
  import opened QueueRecords
  import opened QueueMutations
  import opened QueueHistory
  import opened QueueReconciliation
  import opened QueueProtocol

  // ---------------------------------------------------------------- decisions by identifier

  predicate DistinctDecisions(decisions: seq<Decision>) {
    forall i, j | 0 <= i < j < |decisions| :: decisions[i].body.decisionId != decisions[j].body.decisionId
  }

  predicate Names(decisions: seq<Decision>, decisionId: string, hash: Hash) {
    exists c | c in decisions :: c.body.decisionId == decisionId && c.hash == hash
  }

  lemma SameDecision(decisions: seq<Decision>, a: Decision, b: Decision)
    requires DistinctDecisions(decisions) && a in decisions && b in decisions
    requires a.body.decisionId == b.body.decisionId
    ensures a == b
  {
    var i :| 0 <= i < |decisions| && decisions[i] == a;
    var j :| 0 <= j < |decisions| && decisions[j] == b;
    assert !(i < j) && !(j < i);
  }

  lemma {:induction false} FoundById(decisions: seq<Decision>, c: Decision)
    requires c in decisions
    ensures DecisionById(decisions, c.body.decisionId).Some?
  {
    var n := |decisions| - 1;
    if decisions[n].body.decisionId != c.body.decisionId {
      FoundById(decisions[..n], c);
    }
  }

  lemma ReferencesIff(d: Document, decisionId: string, hash: Hash)
    requires DistinctDecisions(d.decisions)
    ensures References(d, decisionId, hash) <==> Names(d.decisions, decisionId, hash)
  {
    if Names(d.decisions, decisionId, hash) {
      var c :| c in d.decisions && c.body.decisionId == decisionId && c.hash == hash;
      FoundById(d.decisions, c);
      SameDecision(d.decisions, c, DecisionById(d.decisions, decisionId).value);
    }
  }

  lemma FirstIff(decisions: seq<Decision>, decisionId: string, hash: Hash)
    requires DistinctDecisions(decisions)
    ensures var i := FirstDecision(decisions, decisionId);
            i < |decisions| && decisions[i].hash == hash <==> Names(decisions, decisionId, hash)
  {
    var i := FirstDecision(decisions, decisionId);
    if i < |decisions| {
      assert decisions[i] in decisions;
    }
    if Names(decisions, decisionId, hash) {
      var c :| c in decisions && c.body.decisionId == decisionId && c.hash == hash;
      var k :| 0 <= k < |decisions| && decisions[k] == c;
      assert !(k < i);
      SameDecision(decisions, c, decisions[i]);
    }
  }

  // ---------------------------------------------------------------- what a label adds

  function WithResolution(d: Document, r: Resolution): Document {
    d.(revision := d.revision + 1, resolutions := d.resolutions + [r])
  }

  predicate AllHashed(resolutions: seq<Resolution>) {
    forall r | r in resolutions :: ValidResolution(r)
  }

  predicate FreshResolution(d: Document, resolutionId: string) {
    forall r | r in d.resolutions :: r.body.resolutionId != resolutionId
  }

  /** What the schema asks of one more label. */
  predicate Fitting(d: Document, r: ResolutionBody) {
    && References(d, r.decisionId, r.decisionHash) && SchemaReference(d, r) && SchemaRelated(d, r)
    && ValidTransition(ActionsOf(d.resolutions, r.decisionId), r.action)
  }

  lemma UnlockedStays(d: Document, r: Resolution, decisionId: string)
    requires SchemaAttempts(d, decisionId)
    ensures SchemaAttempts(WithResolution(d, r), decisionId)
  {
    var attempts := Attempts(d.deliveries, decisionId);
    if |attempts| == 2 {
      var u :| u in d.resolutions && Unlocks(u, attempts[0]);
      assert u in WithResolution(d, r).resolutions;
    }
  }

  lemma LabelKeepsDeliveries(d: Document, r: Resolution)
    requires SchemaDeliveries(d)
    ensures SchemaDeliveries(WithResolution(d, r))
  {
    forall x | x in d.deliveries ensures SchemaAttempts(WithResolution(d, r), x.body.decisionId) {
      UnlockedStays(d, r, x.body.decisionId);
    }
  }

  lemma SameReferences(d: Document, n: Document, r: ResolutionBody)
    requires n.decisions == d.decisions && n.deliveries == d.deliveries
    ensures References(n, r.decisionId, r.decisionHash) == References(d, r.decisionId, r.decisionHash)
    ensures SchemaReference(n, r) == SchemaReference(d, r) && SchemaRelated(n, r) == SchemaRelated(d, r)
  {
  }

  lemma LabelReferences(d: Document, r: Resolution)
    requires SchemaReferences(d)
    ensures SchemaReferences(WithResolution(d, r))
       <==> References(d, r.body.decisionId, r.body.decisionHash) && SchemaReference(d, r.body) && SchemaRelated(d, r.body)
  {
    var n := WithResolution(d, r);
    assert n.resolutions[|d.resolutions|] == r && r in n.resolutions;
    forall x | x in n.resolutions
      ensures References(n, x.body.decisionId, x.body.decisionHash) == References(d, x.body.decisionId, x.body.decisionHash)
      ensures SchemaReference(n, x.body) == SchemaReference(d, x.body) && SchemaRelated(n, x.body) == SchemaRelated(d, x.body)
    {
      SameReferences(d, n, x.body);
    }
  }

  lemma LabelTransitions(d: Document, r: Resolution)
    requires forall i | 0 <= i < |d.resolutions| ::
               ValidTransition(ActionsOf(d.resolutions[..i], d.resolutions[i].body.decisionId), d.resolutions[i].body.action)
    ensures var all := WithResolution(d, r).resolutions;
            (forall i | 0 <= i < |all| :: ValidTransition(ActionsOf(all[..i], all[i].body.decisionId), all[i].body.action))
            <==> ValidTransition(ActionsOf(d.resolutions, r.body.decisionId), r.body.action)
  {
    var all, n := WithResolution(d, r).resolutions, |d.resolutions|;
    assert all[..n] == d.resolutions && all[n] == r;
    forall i | 0 <= i < n
      ensures ValidTransition(ActionsOf(all[..i], all[i].body.decisionId), all[i].body.action)
    {
      assert all[..i] == d.resolutions[..i] && all[i] == d.resolutions[i];
    }
  }

  lemma LabelDistinct(d: Document, r: Resolution)
    requires SchemaResolutions(d) && AllHashed(d.resolutions) && ValidResolution(r) && FreshResolution(d, r.body.resolutionId)
    ensures var all := WithResolution(d, r).resolutions;
            forall i, j | 0 <= i < j < |all| ::
              all[i].body.resolutionId != all[j].body.resolutionId && all[i].hash != all[j].hash
  {
    var all := WithResolution(d, r).resolutions;
    forall i, j | 0 <= i < j < |all|
      ensures all[i].body.resolutionId != all[j].body.resolutionId && all[i].hash != all[j].hash
    {
      assert d.resolutions[i] in d.resolutions && all[i] == d.resolutions[i];
    }
  }

  lemma LabelSchemaIff(d: Document, r: Resolution)
    requires SchemaOk(d) && AllHashed(d.resolutions) && ValidResolution(r) && FreshResolution(d, r.body.resolutionId)
    requires |d.resolutions| < MAX_RESOLUTIONS && d.revision < MAX_SAFE_INTEGER
    ensures SchemaOk(WithResolution(d, r)) <==> Fitting(d, r.body)
  {
    LabelKeepsDeliveries(d, r);
    LabelReferences(d, r);
    LabelTransitions(d, r);
    LabelDistinct(d, r);
  }

  lemma {:induction false} ActionsIff(resolutions: seq<Resolution>, r: ResolutionBody)
    ensures r.action in ActionsOf(resolutions, r.decisionId)
       <==> exists i | 0 <= i < |resolutions| :: SameAction(resolutions[i].body, r)
  {
    if resolutions != [] {
      var n := |resolutions| - 1;
      ActionsIff(resolutions[..n], r);
      if i :| 0 <= i < |resolutions| && SameAction(resolutions[i].body, r) {
        assert i < n ==> SameAction(resolutions[..n][i].body, r);
      }
    }
  }

  lemma LabelPlans(d: Document, r: Resolution)
    requires 0 < d.revision < MAX_SAFE_INTEGER && |d.resolutions| < MAX_RESOLUTIONS && ValidResolution(r)
    ensures PlanUnchecked(Resolve(r), d).Write? <==> r.body.action !in ActionsOf(d.resolutions, r.body.decisionId)
    ensures PlanUnchecked(Resolve(r), d).Write? ==> PlanUnchecked(Resolve(r), d) == Write(WithResolution(d, r))
  {
    ActionsIff(d.resolutions, r.body);
  }

  lemma CheckedPlan(m: Mutation, d: Document, n: Document)
    requires PlanUnchecked(m, d).Write? ==> PlanUnchecked(m, d) == Write(n)
    ensures PlanMutation(m, d) == Write(n) <==> PlanUnchecked(m, d).Write? && SchemaOk(n)
    ensures PlanMutation(m, d).Write? ==> PlanMutation(m, d) == Write(n)
  {
  }

  /** The store accepts a fresh label exactly when it fits and its action is new for the decision. */
  lemma LabelAcceptedIff(d: Document, r: Resolution)
    requires SchemaOk(d) && AllHashed(d.resolutions) && ValidResolution(r) && FreshResolution(d, r.body.resolutionId)
    requires |d.resolutions| < MAX_RESOLUTIONS && d.revision < MAX_SAFE_INTEGER
    ensures PlanMutation(Resolve(r), d) == Write(WithResolution(d, r))
       <==> Fitting(d, r.body) && r.body.action !in ActionsOf(d.resolutions, r.body.decisionId)
    ensures PlanMutation(Resolve(r), d).Write? ==> PlanMutation(Resolve(r), d) == Write(WithResolution(d, r))
  {
    LabelPlans(d, r);
    LabelSchemaIff(d, r);
    CheckedPlan(Resolve(r), d, WithResolution(d, r));
  }

  // ---------------------------------------------------------------- the check of a resolve call

  /** The request names an attempt that is pending and being delivered now. */
  predicate PendingActive(d: Document, active: set<string>, q: Request) {
    exists x | x in d.deliveries ::
      && q.delivery == Some(DeliveryRef(x.body.deliveryId, x.hash))
      && x.body.outcome.None? && x.body.deliveryId in active
  }

  lemma RelatedIff(d: Document, decision: Decision, q: Request)
    requires DistinctDecisions(d.decisions) && decision in d.decisions && decision.body.decisionId == q.decisionId
    ensures EligibleRelated(d, decision.body, q) <==> SchemaRelated(d, Build(q, "", "").body)
  {
    FoundById(d.decisions, decision);
    SameDecision(d.decisions, decision, DecisionById(d.decisions, q.decisionId).value);
    if q.related.Some? {
      var related := DecisionById(d.decisions, q.related.value.decisionId);
      forall c | c in d.decisions && c.body.decisionId == q.related.value.decisionId ensures related == Some(c) {
        FoundById(d.decisions, c);
        SameDecision(d.decisions, c, related.value);
      }
    }
  }

  predicate DistinctAttempts(deliveries: seq<Delivery>) {
    forall j, k | 0 <= j < k < |deliveries| :: deliveries[j].body.deliveryId != deliveries[k].body.deliveryId
  }

  lemma SchemaDistinct(d: Document)
    requires SchemaDeliveries(d)
    ensures DistinctAttempts(d.deliveries)
  {
  }

  lemma SameAttempt(deliveries: seq<Delivery>, x: Delivery)
    requires x in deliveries && DistinctAttempts(deliveries)
    ensures var i := FirstDelivery(deliveries, x.body.deliveryId); i < |deliveries| && deliveries[i] == x
  {
    var i := FirstDelivery(deliveries, x.body.deliveryId);
    var k :| 0 <= k < |deliveries| && deliveries[k] == x;
    assert !(i < k) && !(k < i);
  }

  lemma PendingActiveIff(d: Document, active: set<string>, q: Request)
    requires DistinctAttempts(d.deliveries)
    ensures PendingActive(d, active, q)
       <==> (&& q.delivery.Some?
             && var i := FirstDelivery(d.deliveries, q.delivery.value.deliveryId);
             && i < |d.deliveries| && d.deliveries[i].hash == q.delivery.value.deliveryHash
             && d.deliveries[i].body.outcome.None? && d.deliveries[i].body.deliveryId in active)
  {
    if q.delivery.Some? {
      var i := FirstDelivery(d.deliveries, q.delivery.value.deliveryId);
      if i < |d.deliveries| {
        assert d.deliveries[i] in d.deliveries;
      }
    }
    if PendingActive(d, active, q) {
      var x :| x in d.deliveries && q.delivery == Some(DeliveryRef(x.body.deliveryId, x.hash))
               && x.body.outcome.None? && x.body.deliveryId in active;
      SameAttempt(d.deliveries, x);
    }
  }

  /** The part of the check about the attempt that is named. */
  predicate AttemptPasses(d: Document, active: set<string>, q: Request) {
    q.delivery.Some? ==>
      var i := FirstDelivery(d.deliveries, q.delivery.value.deliveryId);
      && i < |d.deliveries| && d.deliveries[i].body.decisionId == q.decisionId
      && d.deliveries[i].hash == q.delivery.value.deliveryHash
      && !(d.deliveries[i].body.outcome.None? && d.deliveries[i].body.deliveryId in active)
      && !(q.action == ConfirmedNotDelivered && IsDelivered(d.deliveries[i].body))
  }

  lemma CheckUnfold(d: Document, active: set<string>, q: Request)
    ensures Check(d, active, q) == None
       <==> (&& d.revision != 0
             && var i := FirstDecision(d.decisions, q.decisionId);
             && i < |d.decisions| && d.decisions[i].hash == q.decisionHash
             && AttemptPasses(d, active, q) && EligibleRelated(d, d.decisions[i].body, q)
             && CanAppend(ActionsOf(d.resolutions, q.decisionId), q.action))
  {
  }

  lemma AttemptPassesIff(d: Document, active: set<string>, q: Request)
    requires DistinctAttempts(d.deliveries)
    ensures AttemptPasses(d, active, q) <==> SchemaReference(d, Build(q, "", "").body) && !PendingActive(d, active, q)
  {
    PendingActiveIff(d, active, q);
  }

  lemma CheckFits(d: Document, active: set<string>, q: Request)
    requires d.revision != 0 && DistinctAttempts(d.deliveries) && DistinctDecisions(d.decisions)
    ensures var body := Build(q, "", "").body;
            Check(d, active, q) == None
            <==> (&& Fitting(d, body) && q.action !in ActionsOf(d.resolutions, q.decisionId)
                  && !PendingActive(d, active, q))
  {
    var i := FirstDecision(d.decisions, q.decisionId);
    CheckUnfold(d, active, q);
    AttemptPassesIff(d, active, q);
    FirstIff(d.decisions, q.decisionId, q.decisionHash);
    ReferencesIff(d, q.decisionId, q.decisionHash);
    CanAppendIff(ActionsOf(d.resolutions, q.decisionId), q.action);
    if i < |d.decisions| && d.decisions[i].hash == q.decisionHash {
      RelatedIff(d, d.decisions[i], q);
    }
  }

  lemma FittingIgnoresId(d: Document, q: Request, resolutionId: string, now: string)
    ensures Fitting(d, Build(q, resolutionId, now).body) == Fitting(d, Build(q, "", "").body)
  {
  }

  /**
  The check lets a request through exactly when the store accepts the label built from it, except that it also
  refuses to label an attempt that is pending and being delivered.
  */
  lemma CheckIff(d: Document, active: set<string>, q: Request, resolutionId: string, now: string)
    requires SchemaOk(d) && DistinctDecisions(d.decisions) && AllHashed(d.resolutions)
    requires |d.resolutions| < MAX_RESOLUTIONS && d.revision < MAX_SAFE_INTEGER && FreshResolution(d, resolutionId)
    ensures var r := Build(q, resolutionId, now);
            Check(d, active, q) == None
            <==> PlanMutation(Resolve(r), d) == Write(WithResolution(d, r)) && !PendingActive(d, active, q)
  {
    SchemaDistinct(d);
    CheckFits(d, active, q);
    FittingIgnoresId(d, q, resolutionId, now);
    LabelAcceptedIff(d, Build(q, resolutionId, now));
  }

  // ---------------------------------------------------------------- the answers of the check

  /** The request names a stored attempt of its decision; by its current hash, if exactly. */
  predicate NamesAttempt(d: Document, q: Request, exactly: bool) {
    q.delivery.Some? ==>
      exists x | x in d.deliveries ::
        && x.body.deliveryId == q.delivery.value.deliveryId && x.body.decisionId == q.decisionId
        && (exactly ==> x.hash == q.delivery.value.deliveryHash)
  }

  predicate Supersedes(own: DecisionBody, other: DecisionBody) {
    && own.source.workspaceId == other.source.workspaceId && own.source.sourceId == other.source.sourceId
    && own.source.itemId != other.source.itemId
  }

  /** If the request names another decision, it is stored and about another item of the same source. */
  predicate NamesRelated(d: Document, q: Request) {
    q.related.Some? ==>
      exists own, other | own in d.decisions && other in d.decisions ::
        && own.body.decisionId == q.decisionId && Supersedes(own.body, other.body)
        && other.body.decisionId == q.related.value.decisionId && other.hash == q.related.value.decisionHash
  }

  lemma NamesAttemptIff(d: Document, q: Request)
    requires DistinctAttempts(d.deliveries) && q.delivery.Some?
    ensures var i := FirstDelivery(d.deliveries, q.delivery.value.deliveryId);
            && (NamesAttempt(d, q, false) <==> i < |d.deliveries| && d.deliveries[i].body.decisionId == q.decisionId)
            && (NamesAttempt(d, q, true) <==> NamesAttempt(d, q, false)
                                              && d.deliveries[i].hash == q.delivery.value.deliveryHash)
  {
    var i := FirstDelivery(d.deliveries, q.delivery.value.deliveryId);
    if i < |d.deliveries| {
      assert d.deliveries[i] in d.deliveries;
    }
    forall x | x in d.deliveries && x.body.deliveryId == q.delivery.value.deliveryId
      ensures i < |d.deliveries| && d.deliveries[i] == x
    {
      SameAttempt(d.deliveries, x);
    }
  }

  lemma NamesRelatedIff(d: Document, q: Request)
    requires DistinctDecisions(d.decisions)
    requires var i := FirstDecision(d.decisions, q.decisionId); i < |d.decisions|
    ensures NamesRelated(d, q)
       <==> EligibleRelated(d, d.decisions[FirstDecision(d.decisions, q.decisionId)].body, q)
  {
    var own := d.decisions[FirstDecision(d.decisions, q.decisionId)];
    assert own in d.decisions;
    forall c | c in d.decisions && c.body.decisionId == q.decisionId ensures c == own {
      SameDecision(d.decisions, c, own);
    }
    if q.related.Some? && EligibleRelated(d, own.body, q) {
      var c :| c in d.decisions && c.body.decisionId == q.related.value.decisionId
               && c.hash == q.related.value.decisionHash && Supersedes(own.body, c.body);
    }
  }

  lemma NoDecisionIff(decisions: seq<Decision>, decisionId: string)
    ensures FirstDecision(decisions, decisionId) == |decisions|
       <==> forall c | c in decisions :: c.body.decisionId != decisionId
  {
    var i := FirstDecision(decisions, decisionId);
    if i < |decisions| {
      assert decisions[i] in decisions;
    }
  }

  lemma DecisionAnswers(d: Document, active: set<string>, q: Request)
    requires DistinctDecisions(d.decisions)
    ensures var a := Check(d, active, q);
            && (a == Some(StateUnavailable) <==> d.revision == 0)
            && (a == Some(DecisionNotFound) <==>
                  d.revision != 0 && forall c | c in d.decisions :: c.body.decisionId != q.decisionId)
            && (a == Some(DecisionHashMismatch) <==>
                  && d.revision != 0 && !Names(d.decisions, q.decisionId, q.decisionHash)
                  && exists c | c in d.decisions :: c.body.decisionId == q.decisionId)
  {
    NoDecisionIff(d.decisions, q.decisionId);
    FirstIff(d.decisions, q.decisionId, q.decisionHash);
  }

  /** What the check says about the attempt and the other decision once the decision is found. */
  lemma NamedAnswers(d: Document, active: set<string>, q: Request)
    requires d.revision != 0
    requires var i := FirstDecision(d.decisions, q.decisionId);
             i < |d.decisions| && d.decisions[i].hash == q.decisionHash
    ensures var a, own := Check(d, active, q), d.decisions[FirstDecision(d.decisions, q.decisionId)].body;
            var i := if q.delivery.Some? then FirstDelivery(d.deliveries, q.delivery.value.deliveryId) else 0;
            var missing := q.delivery.Some? && !(i < |d.deliveries| && d.deliveries[i].body.decisionId == q.decisionId);
            var other := q.delivery.Some? && !missing && d.deliveries[i].hash != q.delivery.value.deliveryHash;
            && (a == Some(DeliveryNotFound) <==> missing)
            && (a == Some(DeliveryHashMismatch) <==> other)
            && (a == Some(RelatedDecisionInvalid) <==> !missing && !other && !EligibleRelated(d, own, q))
  {
  }

  lemma DeliveryAnswers(d: Document, active: set<string>, q: Request)
    requires DistinctAttempts(d.deliveries) && DistinctDecisions(d.decisions)
    requires d.revision != 0 && Names(d.decisions, q.decisionId, q.decisionHash)
    ensures var a := Check(d, active, q);
            && (a == Some(DeliveryNotFound) <==> !NamesAttempt(d, q, false))
            && (a == Some(DeliveryHashMismatch) <==> NamesAttempt(d, q, false) && !NamesAttempt(d, q, true))
            && (a == Some(RelatedDecisionInvalid) <==> NamesAttempt(d, q, true) && !NamesRelated(d, q))
  {
    FirstIff(d.decisions, q.decisionId, q.decisionHash);
    NamedAnswers(d, active, q);
    NamesRelatedIff(d, q);
    if q.delivery.Some? {
      NamesAttemptIff(d, q);
    }
  }

  lemma UnnamedAnswers(d: Document, active: set<string>, q: Request)
    requires DistinctDecisions(d.decisions)
    requires d.revision == 0 || !Names(d.decisions, q.decisionId, q.decisionHash)
    ensures var a := Check(d, active, q);
            a in {Some(StateUnavailable), Some(DecisionNotFound), Some(DecisionHashMismatch)}
  {
    FirstIff(d.decisions, q.decisionId, q.decisionHash);
  }

  /** Each refusal says which part of the request is wrong, the first one in the order of the checks. */
  lemma CheckAnswers(d: Document, active: set<string>, q: Request)
    requires DistinctAttempts(d.deliveries) && DistinctDecisions(d.decisions)
    ensures var a, named := Check(d, active, q), d.revision != 0 && Names(d.decisions, q.decisionId, q.decisionHash);
            && (a == Some(StateUnavailable) <==> d.revision == 0)
            && (a == Some(DecisionNotFound) <==>
                  d.revision != 0 && forall c | c in d.decisions :: c.body.decisionId != q.decisionId)
            && (a == Some(DecisionHashMismatch) <==>
                  d.revision != 0 && !named && exists c | c in d.decisions :: c.body.decisionId == q.decisionId)
            && (a == Some(DeliveryNotFound) <==> named && !NamesAttempt(d, q, false))
            && (a == Some(DeliveryHashMismatch) <==> named && NamesAttempt(d, q, false) && !NamesAttempt(d, q, true))
            && (a == Some(RelatedDecisionInvalid) <==> named && NamesAttempt(d, q, true) && !NamesRelated(d, q))
  {
    DecisionAnswers(d, active, q);
    if d.revision != 0 && Names(d.decisions, q.decisionId, q.decisionHash) {
      DeliveryAnswers(d, active, q);
    } else {
      UnnamedAnswers(d, active, q);
    }
  }

  // ---------------------------------------------------------------- labels of one decision

  function Rank(a: Action): nat {
    match a
    case ConfirmedNotDelivered => 0
    case Acknowledged => 1
    case _ => 2
  }

  predicate Rising(actions: seq<Action>) {
    forall i, j | 0 <= i < j < |actions| :: Rank(actions[i]) < Rank(actions[j])
  }

  lemma RisingAppend(actions: seq<Action>, next: Action)
    requires Rising(actions) && ValidTransition(actions, next)
    ensures Rising(actions + [next])
  {
    forall i | 0 <= i < |actions| ensures Rank(actions[i]) < Rank(next) {
      assert Rank(actions[i]) <= Rank(actions[|actions| - 1]);
    }
  }

  lemma RisingExcludes(actions: seq<Action>, next: Action)
    requires Rising(actions + [next])
    ensures next !in actions
  {
    forall i | 0 <= i < |actions| ensures actions[i] != next {
      assert Rank((actions + [next])[i]) < Rank((actions + [next])[|actions|]);
    }
  }

  lemma {:induction false} RankAtLeast(actions: seq<Action>, i: nat)
    requires Rising(actions) && i < |actions|
    ensures i <= Rank(actions[i])
  {
    if i != 0 {
      RankAtLeast(actions, i - 1);
    }
  }

  lemma RisingIsShort(actions: seq<Action>)
    requires Rising(actions)
    ensures |actions| <= 3
  {
    if actions != [] {
      RankAtLeast(actions, |actions| - 1);
    }
  }

  lemma ActionsLast(resolutions: seq<Resolution>, n: nat, decisionId: string)
    requires 0 < n <= |resolutions|
    ensures ActionsOf(resolutions[..n], decisionId)
         == ActionsOf(resolutions[..n - 1], decisionId)
            + if resolutions[n - 1].body.decisionId == decisionId then [resolutions[n - 1].body.action] else []
  {
    assert resolutions[..n][..n - 1] == resolutions[..n - 1];
  }

  lemma TransitionAt(d: Document, i: nat)
    requires SchemaResolutions(d) && i < |d.resolutions|
    ensures var r := d.resolutions[i].body; ValidTransition(ActionsOf(d.resolutions[..i], r.decisionId), r.action)
  {
  }

  lemma {:induction false} ActionsRise(d: Document, n: nat, decisionId: string)
    requires SchemaResolutions(d) && n <= |d.resolutions|
    ensures Rising(ActionsOf(d.resolutions[..n], decisionId))
    decreases n
  {
    if n != 0 {
      ActionsRise(d, n - 1, decisionId);
      TransitionAt(d, n - 1);
      ActionsLast(d.resolutions, n, decisionId);
      RisingOneMore(ActionsOf(d.resolutions[..n - 1], decisionId), ActionsOf(d.resolutions[..n], decisionId),
                    d.resolutions[n - 1].body.action);
    }
  }

  lemma RisingOneMore(before: seq<Action>, after: seq<Action>, next: Action)
    requires Rising(before)
    requires after == before || (after == before + [next] && ValidTransition(before, next))
    ensures Rising(after)
  {
    if after != before {
      RisingAppend(before, next);
    }
  }

  /**
  The labels of one decision: perhaps a confirmation, then perhaps an acknowledgement, then perhaps one of the
  three that close it; so no action twice and never more than three.
  */
  lemma LabelsRise(d: Document, decisionId: string)
    requires SchemaResolutions(d)
    ensures var actions := ActionsOf(d.resolutions, decisionId); Rising(actions) && |actions| <= 3
  {
    assert d.resolutions[..|d.resolutions|] == d.resolutions;
    ActionsRise(d, |d.resolutions|, decisionId);
    RisingIsShort(ActionsOf(d.resolutions, decisionId));
  }

  lemma OnceEach(d: Document, i: nat, j: nat)
    requires SchemaResolutions(d) && i < j < |d.resolutions|
    ensures !SameAction(d.resolutions[i].body, d.resolutions[j].body)
  {
    var r := d.resolutions[j].body;
    var actions := ActionsOf(d.resolutions[..j], r.decisionId);
    ActionsRise(d, j, r.decisionId);
    TransitionAt(d, j);
    RisingAppend(actions, r.action);
    RisingExcludes(actions, r.action);
    ActionsIff(d.resolutions[..j], r);
    assert d.resolutions[..j][i] == d.resolutions[i];
  }

  lemma FirstIsOnly(d: Document, r: Resolution, again: ResolutionBody)
    requires SchemaResolutions(d) && r in d.resolutions && SameAction(r.body, again)
    ensures var i := FirstWithAction(d.resolutions, again); i < |d.resolutions| && d.resolutions[i] == r
  {
    var i := FirstWithAction(d.resolutions, again);
    var k :| 0 <= k < |d.resolutions| && d.resolutions[k] == r;
    assert !(k < i);
    if i < k {
      OnceEach(d, i, k);
    }
  }

  lemma Unwritten(m: Mutation, d: Document)
    requires !PlanUnchecked(m, d).Write?
    ensures PlanMutation(m, d) == PlanUnchecked(m, d)
  {
  }

  lemma SameIntentIff(a: ResolutionBody, b: ResolutionBody)
    ensures SameIntent(a, b)
       <==> (&& a.decisionId == b.decisionId && a.decisionHash == b.decisionHash && a.action == b.action
             && a.delivery == b.delivery && a.related == b.related && a.note == b.note)
  {
  }

  lemma FoundAgain(d: Document, r: Resolution, again: Resolution)
    requires d.revision != 0 && ValidResolution(again)
    requires var i := FirstWithAction(d.resolutions, again.body); i < |d.resolutions| && d.resolutions[i] == r
    ensures PlanUnchecked(Resolve(again), d) == if SameIntent(r.body, again.body) then Existing else Refuse(InvalidState)
  {
  }

  /**
  Labelling a decision a second time with the same action, under a new identifier and at another time, is
  answered "already" if it says the same about the same attempt or decision, and refused otherwise.
  */
  lemma LabelAgain(d: Document, r: Resolution, again: Resolution)
    requires SchemaResolutions(d) && d.revision != 0 && r in d.resolutions && ValidResolution(again)
    requires again.body.decisionId == r.body.decisionId && again.body.action == r.body.action
    ensures PlanMutation(Resolve(again), d)
         == if && again.body.decisionHash == r.body.decisionHash && again.body.delivery == r.body.delivery
               && again.body.related == r.body.related && again.body.note == r.body.note
            then Existing else Refuse(InvalidState)
  {
    FirstIsOnly(d, r, again.body);
    SameIntentIff(r.body, again.body);
    FoundAgain(d, r, again);
    Unwritten(Resolve(again), d);
  }

  /** The request names an attempt whose outcome says that it was delivered. */
  predicate NamesDelivered(d: Document, q: Request) {
    exists x | x in d.deliveries ::
      && q.delivery == Some(DeliveryRef(x.body.deliveryId, x.hash))
      && match x.body.outcome
         case Some(Delivered(_, _)) => true
         case _ => false
  }

  lemma NamesDeliveredIff(d: Document, q: Request)
    requires DistinctAttempts(d.deliveries) && q.delivery.Some?
    ensures NamesDelivered(d, q)
       <==> (var i := FirstDelivery(d.deliveries, q.delivery.value.deliveryId);
             && i < |d.deliveries| && d.deliveries[i].hash == q.delivery.value.deliveryHash
             && IsDelivered(d.deliveries[i].body))
  {
    var i := FirstDelivery(d.deliveries, q.delivery.value.deliveryId);
    if i < |d.deliveries| {
      assert d.deliveries[i] in d.deliveries;
    }
    if NamesDelivered(d, q) {
      var x :| x in d.deliveries && q.delivery == Some(DeliveryRef(x.body.deliveryId, x.hash)) && IsDelivered(x.body);
      SameAttempt(d.deliveries, x);
    }
  }

  lemma CanAppendRises(actions: seq<Action>, next: Action)
    requires Rising(actions)
    ensures CanAppend(actions, next) <==> Rising(actions + [next])
  {
    CanAppendIff(actions, next);
    if next !in actions && ValidTransition(actions, next) {
      RisingAppend(actions, next);
    }
    if Rising(actions + [next]) {
      RisingExcludes(actions, next);
      var n := |actions| - 1;
      if actions != [] {
        assert Rank((actions + [next])[n]) < Rank((actions + [next])[n + 1]);
      }
    }
  }

  /**
  A request is let through exactly if everything it names is stored, its attempt is not being delivered, its action
  comes after all labels of the decision, and it does not deny what an outcome says was delivered.
  */
  lemma LetThroughIff(d: Document, active: set<string>, q: Request)
    requires SchemaOk(d) && DistinctDecisions(d.decisions)
    ensures Check(d, active, q) == None
       <==> (&& Names(d.decisions, q.decisionId, q.decisionHash) && NamesAttempt(d, q, true) && NamesRelated(d, q)
             && !PendingActive(d, active, q) && Rising(ActionsOf(d.resolutions, q.decisionId) + [q.action])
             && !(q.action == ConfirmedNotDelivered && NamesDelivered(d, q)))
  {
    SchemaDistinct(d);
    CheckUnfold(d, active, q);
    LabelsRise(d, q.decisionId);
    CanAppendRises(ActionsOf(d.resolutions, q.decisionId), q.action);
    PassesIff(d, active, q);
    FirstIff(d.decisions, q.decisionId, q.decisionHash);
    if Names(d.decisions, q.decisionId, q.decisionHash) {
      NamesRelatedIff(d, q);
    }
  }

  lemma PassesIff(d: Document, active: set<string>, q: Request)
    requires DistinctAttempts(d.deliveries)
    ensures AttemptPasses(d, active, q)
       <==> (&& NamesAttempt(d, q, true) && !PendingActive(d, active, q)
             && !(q.action == ConfirmedNotDelivered && NamesDelivered(d, q)))
  {
    PendingActiveIff(d, active, q);
    if q.delivery.Some? {
      NamesAttemptIff(d, q);
      NamesDeliveredIff(d, q);
    }
  }

  // ---------------------------------------------------------------- what an attempt adds

  function WithAttempt(d: Document, x: Delivery): Document {
    d.(revision := d.revision + 1, deliveries := d.deliveries + [x])
  }

  predicate FreshIntent(x: Delivery) {
    x.body.outcome.None? && ValidDelivery(x)
  }

  predicate SamePayload(a: DeliveryBody, b: DeliveryBody) {
    a.payloadHash == b.payloadHash && a.payloadByteLength == b.payloadByteLength
  }

  /** The decision has no attempt yet, or one that is unlocked. */
  predicate Open(d: Document, decisionId: string) {
    var attempts := Attempts(d.deliveries, decisionId);
    attempts == [] || (|attempts| == 1 && Unlocked(d, attempts[0]))
  }

  /** A new attempt of a decision, with the payload of the first if there is one. */
  predicate Fits(d: Document, x: Delivery) {
    && FreshIntent(x) && AllValid(d.deliveries)
    && (forall y | y in d.deliveries :: y.body.deliveryId != x.body.deliveryId)
    && forall y | y in Attempts(d.deliveries, x.body.decisionId) :: SamePayload(y.body, x.body)
  }

  lemma {:induction false} FirstDeliveryAppend(deliveries: seq<Delivery>, x: Delivery, deliveryId: string)
    requires FirstDelivery(deliveries, deliveryId) < |deliveries|
    ensures FirstDelivery(deliveries + [x], deliveryId) == FirstDelivery(deliveries, deliveryId)
    decreases |deliveries|
  {
    if deliveries[0].body.deliveryId != deliveryId {
      assert (deliveries + [x])[1..] == deliveries[1..] + [x];
      FirstDeliveryAppend(deliveries[1..], x, deliveryId);
    }
  }

  lemma AddedAttempts(d: Document, x: Delivery, decisionId: string)
    requires Fits(d, x) && Open(d, x.body.decisionId)
    requires decisionId != x.body.decisionId ==> SchemaAttempts(d, decisionId)
    ensures SchemaAttempts(WithAttempt(d, x), decisionId)
  {
    var n, attempts := WithAttempt(d, x), Attempts(d.deliveries, decisionId);
    AttemptsAppend(d.deliveries, x, decisionId);
    if decisionId == x.body.decisionId {
      assert Attempts(n.deliveries, decisionId) == attempts + [x];
      if attempts != [] {
        assert attempts[0] in attempts;
        var r :| r in d.resolutions && Unlocks(r, attempts[0]);
        assert r in n.resolutions;
      }
    } else {
      assert Attempts(n.deliveries, decisionId) == attempts;
      if |attempts| == 2 {
        var r :| r in d.resolutions && Unlocks(r, attempts[0]);
        assert r in n.resolutions;
      }
    }
  }

  lemma AddedDistinct(d: Document, x: Delivery)
    requires SchemaDeliveries(d) && Fits(d, x)
    ensures var ds := WithAttempt(d, x).deliveries;
            forall i, j | 0 <= i < j < |ds| ::
              ds[i].body.deliveryId != ds[j].body.deliveryId && ds[i].hash != ds[j].hash
  {
    var ds := WithAttempt(d, x).deliveries;
    forall i, j | 0 <= i < j < |ds| ensures ds[i].body.deliveryId != ds[j].body.deliveryId && ds[i].hash != ds[j].hash {
      assert d.deliveries[i] in d.deliveries && ds[i] == d.deliveries[i];
    }
  }

  lemma AddedDeliveries(d: Document, x: Delivery)
    requires SchemaDeliveries(d) && |d.deliveries| < MAX_DELIVERIES
    requires Fits(d, x) && Open(d, x.body.decisionId) && References(d, x.body.decisionId, x.body.decisionHash)
    ensures SchemaDeliveries(WithAttempt(d, x))
  {
    var n := WithAttempt(d, x);
    AddedDistinct(d, x);
    forall y | y in n.deliveries
      ensures References(n, y.body.decisionId, y.body.decisionHash) && SchemaAttempts(n, y.body.decisionId)
    {
      if y != x {
        assert y in d.deliveries;
      }
      AddedAttempts(d, x, y.body.decisionId);
    }
  }

  lemma AddedReference(d: Document, x: Delivery, r: ResolutionBody)
    requires SchemaReference(d, r)
    ensures SchemaReference(WithAttempt(d, x), r)
  {
    if r.delivery.Some? {
      FirstDeliveryAppend(d.deliveries, x, r.delivery.value.deliveryId);
    }
  }

  lemma AddedResolutions(d: Document, x: Delivery)
    requires SchemaResolutions(d)
    ensures SchemaResolutions(WithAttempt(d, x))
  {
    var n := WithAttempt(d, x);
    forall r | r in n.resolutions
      ensures References(n, r.body.decisionId, r.body.decisionHash) && SchemaReference(n, r.body) && SchemaRelated(n, r.body)
    {
      assert r in d.resolutions;
      AddedReference(d, x, r.body);
    }
  }

  lemma AttemptPlans(d: Document, x: Delivery)
    requires Fits(d, x) && References(d, x.body.decisionId, x.body.decisionHash)
    requires |d.deliveries| < MAX_DELIVERIES && d.revision < MAX_SAFE_INTEGER
    requires Open(d, x.body.decisionId)
    ensures PlanUnchecked(Begin(x), d) == Write(WithAttempt(d, x))
  {
    assert DecisionById(d.decisions, x.body.decisionId).value in d.decisions;
  }

  /** An attempt of an open decision is accepted. */
  lemma AttemptAccepted(d: Document, x: Delivery)
    requires SchemaOk(d) && |d.deliveries| < MAX_DELIVERIES && d.revision < MAX_SAFE_INTEGER
    requires Fits(d, x) && Open(d, x.body.decisionId) && References(d, x.body.decisionId, x.body.decisionHash)
    ensures PlanMutation(Begin(x), d) == Write(WithAttempt(d, x))
  {
    AttemptPlans(d, x);
    AddedDeliveries(d, x);
    AddedResolutions(d, x);
    CheckedPlan(Begin(x), d, WithAttempt(d, x));
  }

  lemma OnlyOpen(d: Document, x: Delivery)
    requires PlanMutation(Begin(x), d).Write?
    ensures Open(d, x.body.decisionId) && Names(d.decisions, x.body.decisionId, x.body.decisionHash)
  {
  }

  // ---------------------------------------------------------------- the check of a deliver call

  lemma MayAttemptIff(d: Document, decisionId: string, decisionHash: Hash)
    requires SchemaReferences(d) && DistinctDecisions(d.decisions) && AllValid(d.deliveries)
    ensures MayAttempt(d, decisionId, decisionHash).Some?
       <==> Names(d.decisions, decisionId, decisionHash) && Open(d, decisionId)
  {
    FirstIff(d.decisions, decisionId, decisionHash);
    var attempts := Attempts(d.deliveries, decisionId);
    if |attempts| == 1 && Unlocked(d, attempts[0]) {
      assert attempts[0] in attempts;
      UnlockedUndelivered(d, attempts[0]);
    }
  }

  /**
  A deliver call goes on exactly when the store would accept a new attempt, with the payload of the first if there
  is one; and it takes the attempt for a retry of the only one that is stored.
  */
  lemma AttemptIff(d: Document, x: Delivery)
    requires SchemaOk(d) && DistinctDecisions(d.decisions) && Fits(d, x)
    requires |d.deliveries| < MAX_DELIVERIES && d.revision < MAX_SAFE_INTEGER
    ensures var may := MayAttempt(d, x.body.decisionId, x.body.decisionHash);
            && (may.Some? <==> PlanMutation(Begin(x), d) == Write(WithAttempt(d, x)))
            && (may.Some? ==> Attempts(d.deliveries, x.body.decisionId)
                              == if may.value.Some? then [may.value.value] else [])
  {
    MayAttemptIff(d, x.body.decisionId, x.body.decisionHash);
    ReferencesIff(d, x.body.decisionId, x.body.decisionHash);
    if MayAttempt(d, x.body.decisionId, x.body.decisionHash).Some? {
      AttemptAccepted(d, x);
    }
    if PlanMutation(Begin(x), d).Write? {
      OnlyOpen(d, x);
    }
  }
}
