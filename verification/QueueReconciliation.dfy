/** Lifecycle labels: the checks an operator's resolution passes before it is submitted to the store. */
module QueueReconciliation {
  import opened Options
  import opened QueueRecords
  import opened QueueMutations
  import opened QueueHistory

  datatype Request = Request(
    decisionId: string, decisionHash: Hash, action: Action,
    delivery: Option<DeliveryRef>, related: Option<DecisionRef>, note: Option<string>)

  datatype RequestError =
    | DecisionNotFound | DecisionHashMismatch | DeliveryNotFound | DeliveryHashMismatch
    | RelatedDecisionInvalid | TransitionInvalid | StateUnavailable

  /** Only a supersession names a related decision; every other action names a delivery. */
  predicate WellFormed(q: Request) {
    (q.action == Superseded) == q.related.Some? && (q.action == Superseded) == q.delivery.None?
  }

  function FirstDecision(decisions: seq<Decision>, decisionId: string): (i: nat)
    ensures i <= |decisions|
    ensures i < |decisions| ==> decisions[i].body.decisionId == decisionId
    ensures forall j | 0 <= j < i :: decisions[j].body.decisionId != decisionId
  {
    if decisions == [] || decisions[0].body.decisionId == decisionId then 0
    else 1 + FirstDecision(decisions[1..], decisionId)
  }

  predicate EligibleRelated(d: Document, decision: DecisionBody, q: Request) {
    q.related.Some? ==>
      exists c | c in d.decisions ::
        && c.body.decisionId == q.related.value.decisionId && c.hash == q.related.value.decisionHash
        && c.body.source.workspaceId == decision.source.workspaceId
        && c.body.source.sourceId == decision.source.sourceId
        && c.body.source.itemId != decision.source.itemId
  }

  predicate CanAppend(history: seq<Action>, next: Action) {
    if next in history then false
    else if history == [] then true
    else match history[|history| - 1]
      case Applied => false
      case UnableToApply => false
      case Superseded => false
      case Acknowledged => next in {Applied, UnableToApply, Superseded}
      case ConfirmedNotDelivered => next != ConfirmedNotDelivered
  }

  /** The checks of one resolve call on the snapshot it read; None lets the resolution through. */
  function Check(d: Document, active: set<string>, q: Request): Option<RequestError> {
    if d.revision == 0 then Some(StateUnavailable)
    else
      var i := FirstDecision(d.decisions, q.decisionId);
      if i == |d.decisions| then Some(DecisionNotFound)
      else if d.decisions[i].hash != q.decisionHash then Some(DecisionHashMismatch)
      else
        var delivery := if q.delivery.None? then |d.deliveries|
                        else FirstDelivery(d.deliveries, q.delivery.value.deliveryId);
        if q.delivery.Some? && (delivery == |d.deliveries|
                                || d.deliveries[delivery].body.decisionId != q.decisionId) then Some(DeliveryNotFound)
        else if q.delivery.Some? && d.deliveries[delivery].hash != q.delivery.value.deliveryHash then
          Some(DeliveryHashMismatch)
        else if !EligibleRelated(d, d.decisions[i].body, q) then Some(RelatedDecisionInvalid)
        else if q.delivery.Some? && d.deliveries[delivery].body.outcome.None?
                && d.deliveries[delivery].body.deliveryId in active then Some(TransitionInvalid)
        else if !CanAppend(ActionsOf(d.resolutions, q.decisionId), q.action) then Some(TransitionInvalid)
        else if q.action == ConfirmedNotDelivered && q.delivery.Some?
                && IsDelivered(d.deliveries[delivery].body) then Some(TransitionInvalid)
        else None
  }

  function Build(q: Request, resolutionId: string, now: string): Resolution {
    var body := ResolutionBody(
      resolutionId, q.decisionId, q.decisionHash, q.action, q.delivery, q.related, now, q.note);
    Resolution(body, OfResolution(body))
  }

  /** Whatever snapshot the check saw, a confirmation it lets through binds the hash of an undelivered attempt. */
  lemma CheckedBindsUndelivered(d: Document, active: set<string>, q: Request, resolutionId: string, now: string)
    requires forall x | x in d.deliveries :: ValidDelivery(x)
    requires Check(d, active, q) == None
    ensures BindsUndelivered(Build(q, resolutionId, now).body)
  {
    if q.delivery.Some? {
      var x := d.deliveries[FirstDelivery(d.deliveries, q.delivery.value.deliveryId)];
      assert x in d.deliveries;
    }
  }

  /** The service check is the schema's transition order plus "each action at most once". */
  lemma CanAppendIff(history: seq<Action>, next: Action)
    ensures CanAppend(history, next) <==> next !in history && ValidTransition(history, next)
  {
  }

  // ---------------------------------------------------------------- retry status

  datatype Retry = NotApplicable | Exhausted | Ready | Locked

  function RetryStatus(attempts: seq<Delivery>, history: seq<Action>): Retry {
    if attempts == [] then NotApplicable
    else if |attempts| >= 2 then Exhausted
    else if IsDelivered(attempts[0].body) then NotApplicable
    else if history == [] then Locked
    else if history[|history| - 1] == ConfirmedNotDelivered then Ready
    else NotApplicable
  }

  lemma {:induction false} LastConfirmed(resolutions: seq<Resolution>, decisionId: string) returns (i: nat)
    requires ActionsOf(resolutions, decisionId) != []
    ensures i < |resolutions| && resolutions[i].body.decisionId == decisionId
    ensures var actions := ActionsOf(resolutions, decisionId);
            actions[|actions| - 1] == resolutions[i].body.action
    decreases |resolutions|
  {
    var n := |resolutions| - 1;
    if resolutions[n].body.decisionId == decisionId {
      i := n;
    } else {
      i := LastConfirmed(resolutions[..n], decisionId);
    }
  }

  lemma UnlockedUndelivered(d: Document, first: Delivery)
    requires SchemaReferences(d) && Unlocked(d, first)
    requires first in d.deliveries && ValidDelivery(first)
    requires forall x | x in d.deliveries :: ValidDelivery(x)
    ensures !IsDelivered(first.body)
  {
    var r :| r in d.resolutions && Unlocks(r, first);
    assert SchemaReference(d, r.body);
    var k := FirstDelivery(d.deliveries, first.body.deliveryId);
    assert d.deliveries[k] in d.deliveries && d.deliveries[k].hash == first.hash;
  }

  lemma LatestConfirmationUnlocks(d: Document, decisionId: string, first: Delivery)
    requires SchemaReferences(d) && Attempts(d.deliveries, decisionId) == [first]
    requires forall r | r in d.resolutions :: r.body.action == ConfirmedNotDelivered ==> r.body.delivery.Some?
    requires var history := ActionsOf(d.resolutions, decisionId);
             history != [] && history[|history| - 1] == ConfirmedNotDelivered
    ensures Unlocked(d, first)
  {
    var i := LastConfirmed(d.resolutions, decisionId);
    var r := d.resolutions[i];
    assert r in d.resolutions && SchemaReference(d, r.body);
    var k := FirstDelivery(d.deliveries, r.body.delivery.value.deliveryId);
    assert d.deliveries[k] in Attempts(d.deliveries, decisionId);
    assert Unlocks(r, first);
  }

  /**
  The advertised retry status against what the store would accept: "ready" is advertised exactly when
  there is one attempt, an exact confirmation unlocks it, and the confirmation is still the latest label.
  A later label hides the retry without locking it.
  */
  lemma ReadyIff(d: Document, decisionId: string)
    requires SchemaReferences(d) && (forall x | x in d.deliveries :: ValidDelivery(x))
    requires forall r | r in d.resolutions :: r.body.action == ConfirmedNotDelivered ==> r.body.delivery.Some?
    ensures var attempts := Attempts(d.deliveries, decisionId);
            var history := ActionsOf(d.resolutions, decisionId);
            RetryStatus(attempts, history) == Ready
            <==> (&& |attempts| == 1 && Unlocked(d, attempts[0])
                  && history != [] && history[|history| - 1] == ConfirmedNotDelivered)
  {
    var attempts := Attempts(d.deliveries, decisionId);
    var history := ActionsOf(d.resolutions, decisionId);
    if |attempts| == 1 {
      var first := attempts[0];
      var latest := history != [] && history[|history| - 1] == ConfirmedNotDelivered;
      assert latest ==> Unlocked(d, first) by {
        if latest {
          assert attempts == [first];
          LatestConfirmationUnlocks(d, decisionId, first);
        }
      }
      assert Unlocked(d, first) ==> !IsDelivered(first.body) by {
        if Unlocked(d, first) {
          assert first in d.deliveries;
          UnlockedUndelivered(d, first);
        }
      }
    }
  }
}
