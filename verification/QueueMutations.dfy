/** The four mutations of the queue state document, the schema check, and what they do to a document. */
module QueueMutations {
  import opened Options
  import opened SerialStore
  import opened QueueRecords

  datatype Mutation =
    | Append(decision: Decision)
    | Begin(delivery: Delivery)
    | Finish(deliveryId: string, outcome: Outcome)
    | Resolve(resolution: Resolution)

  function NextRevision(d: Document): Option<nat> {
    if d.revision >= MAX_SAFE_INTEGER then None else Some(d.revision + 1)
  }

  // ---------------------------------------------------------------- plans

  function PlanAppend(d: Document, decision: Decision): Plan<Document> {
    var key := KeyOf(decision.body.source);
    if !ValidDecision(decision) then Refuse(InvalidState)
    else if exists i | 0 <= i < |d.decisions| :: KeyOf(d.decisions[i].body.source) == key then
      var existing := d.decisions[FirstWithKey(d.decisions, key)];
      if existing.body.payload == decision.body.payload then Existing else Refuse(AlreadyDecided)
    else if |d.decisions| >= MAX_DECISIONS then Refuse(StateFull)
    else if NextRevision(d).None? then Refuse(InvalidState)
    else Write(d.(revision := d.revision + 1, decisions := d.decisions + [decision]))
  }

  function FirstWithKey(decisions: seq<Decision>, key: SourceKey): (i: nat)
    requires exists i | 0 <= i < |decisions| :: KeyOf(decisions[i].body.source) == key
    ensures i < |decisions| && KeyOf(decisions[i].body.source) == key
    ensures forall j | 0 <= j < i :: KeyOf(decisions[j].body.source) != key
  {
    if KeyOf(decisions[0].body.source) == key then 0 else 1 + FirstWithKey(decisions[1..], key)
  }

  /** An operator has confirmed, naming the attempt by its current hash, that it was not delivered. */
  predicate Unlocks(r: Resolution, attempt: Delivery) {
    && r.body.decisionId == attempt.body.decisionId
    && r.body.action == ConfirmedNotDelivered
    && r.body.delivery == Some(DeliveryRef(attempt.body.deliveryId, attempt.hash))
  }

  predicate Unlocked(d: Document, attempt: Delivery) {
    exists r | r in d.resolutions :: Unlocks(r, attempt)
  }

  function PlanBegin(d: Document, delivery: Delivery): Plan<Document> {
    var attempts := Attempts(d.deliveries, delivery.body.decisionId);
    if !ValidDelivery(delivery) then Refuse(InvalidState)
    else if exists a | a in attempts :: a.body.deliveryId == delivery.body.deliveryId || a.hash == delivery.hash then
      Existing
    else if |attempts| >= 2 then Existing
    else if |attempts| == 1 && !Unlocked(d, attempts[0]) then Existing
    else if !exists c | c in d.decisions ::
        c.body.decisionId == delivery.body.decisionId && c.hash == delivery.body.decisionHash then
      Refuse(InvalidState)
    else if |d.deliveries| >= MAX_DELIVERIES then Refuse(StateFull)
    else if NextRevision(d).None? then Refuse(InvalidState)
    else Write(d.(revision := d.revision + 1, deliveries := d.deliveries + [delivery]))
  }

  function FirstDelivery(deliveries: seq<Delivery>, deliveryId: string): (i: nat)
    ensures i <= |deliveries|
    ensures i < |deliveries| ==> deliveries[i].body.deliveryId == deliveryId
    ensures forall j | 0 <= j < i :: deliveries[j].body.deliveryId != deliveryId
  {
    if deliveries == [] || deliveries[0].body.deliveryId == deliveryId then 0
    else 1 + FirstDelivery(deliveries[1..], deliveryId)
  }

  function WithOutcome(d: Delivery, outcome: Outcome): Delivery {
    var body := d.body.(outcome := Some(outcome));
    Delivery(body, OfDelivery(body))
  }

  function PlanFinish(d: Document, deliveryId: string, outcome: Outcome): Plan<Document> {
    var i := FirstDelivery(d.deliveries, deliveryId);
    if i == |d.deliveries| then Refuse(InvalidState)
    else if d.deliveries[i].body.outcome.Some? then
      if d.deliveries[i].body.outcome.value == outcome then Existing else Refuse(InvalidState)
    else if NextRevision(d).None? then Refuse(InvalidState)
    else Write(d.(revision := d.revision + 1, deliveries := d.deliveries[i := WithOutcome(d.deliveries[i], outcome)]))
  }

  predicate SameAction(a: ResolutionBody, b: ResolutionBody) {
    a.decisionId == b.decisionId && a.action == b.action
  }

  predicate SameIntent(a: ResolutionBody, b: ResolutionBody) {
    a.(resolutionId := "", recordedAt := "") == b.(resolutionId := "", recordedAt := "")
  }

  function FirstWithAction(resolutions: seq<Resolution>, r: ResolutionBody): (i: nat)
    ensures i <= |resolutions|
    ensures i < |resolutions| ==> SameAction(resolutions[i].body, r)
    ensures forall j | 0 <= j < i :: !SameAction(resolutions[j].body, r)
  {
    if resolutions == [] || SameAction(resolutions[0].body, r) then 0
    else 1 + FirstWithAction(resolutions[1..], r)
  }

  function PlanResolve(d: Document, r: Resolution): Plan<Document> {
    var i := FirstWithAction(d.resolutions, r.body);
    if !ValidResolution(r) || d.revision == 0 then Refuse(InvalidState)
    else if i < |d.resolutions| then
      if SameIntent(d.resolutions[i].body, r.body) then Existing else Refuse(InvalidState)
    else if |d.resolutions| >= MAX_RESOLUTIONS then Refuse(StateFull)
    else if NextRevision(d).None? then Refuse(InvalidState)
    else Write(d.(revision := d.revision + 1, resolutions := d.resolutions + [r]))
  }

  function PlanUnchecked(m: Mutation, d: Document): Plan<Document> {
    match m
    case Append(decision) => PlanAppend(d, decision)
    case Begin(delivery) => PlanBegin(d, delivery)
    case Finish(deliveryId, outcome) => PlanFinish(d, deliveryId, outcome)
    case Resolve(resolution) => PlanResolve(d, resolution)
  }

  /** The planner of the store: a replacement that the document schema rejects is refused. */
  function PlanMutation(m: Mutation, d: Document): Plan<Document> {
    var plan := PlanUnchecked(m, d);
    if plan.Write? && !SchemaOk(plan.next) then Refuse(InvalidState) else plan
  }

  // ---------------------------------------------------------------- document schema

  /** The last decision with this identifier, as a lookup table built in order would hold. */
  function DecisionById(decisions: seq<Decision>, decisionId: string): (r: Option<Decision>)
    ensures r.Some? ==> r.value in decisions && r.value.body.decisionId == decisionId
  {
    if decisions == [] then None
    else
      var n := |decisions| - 1;
      if decisions[n].body.decisionId == decisionId then Some(decisions[n])
      else DecisionById(decisions[..n], decisionId)
  }

  predicate References(d: Document, decisionId: string, hash: Hash) {
    var found := DecisionById(d.decisions, decisionId);
    found.Some? && found.value.hash == hash
  }

  /** At most two attempts; a retry keeps the payload and needs an exact confirmation of the first. */
  predicate SchemaAttempts(d: Document, decisionId: string) {
    var attempts := Attempts(d.deliveries, decisionId);
    && |attempts| <= 2
    && (|attempts| == 2 ==>
          && attempts[0].body.payloadHash == attempts[1].body.payloadHash
          && attempts[0].body.payloadByteLength == attempts[1].body.payloadByteLength
          && Unlocked(d, attempts[0]))
  }

  predicate SchemaDeliveries(d: Document) {
    && |d.deliveries| <= MAX_DELIVERIES
    && (forall x | x in d.deliveries :: References(d, x.body.decisionId, x.body.decisionHash))
    && (forall i, j | 0 <= i < j < |d.deliveries| ::
          && d.deliveries[i].body.deliveryId != d.deliveries[j].body.deliveryId
          && d.deliveries[i].hash != d.deliveries[j].hash)
    && (forall x | x in d.deliveries :: SchemaAttempts(d, x.body.decisionId))
  }

  predicate ValidTransition(history: seq<Action>, next: Action) {
    if history == [] then true
    else match history[|history| - 1]
      case Applied => false
      case UnableToApply => false
      case Superseded => false
      case Acknowledged => next in {Applied, UnableToApply, Superseded}
      case ConfirmedNotDelivered => next in {Acknowledged, Applied, UnableToApply, Superseded}
  }

  function ActionsOf(resolutions: seq<Resolution>, decisionId: string): seq<Action> {
    if resolutions == [] then []
    else
      var n := |resolutions| - 1;
      ActionsOf(resolutions[..n], decisionId)
      + if resolutions[n].body.decisionId == decisionId then [resolutions[n].body.action] else []
  }

  predicate SchemaReference(d: Document, r: ResolutionBody) {
    r.delivery.Some? ==>
      var i := FirstDelivery(d.deliveries, r.delivery.value.deliveryId);
      && i < |d.deliveries|
      && d.deliveries[i].hash == r.delivery.value.deliveryHash
      && d.deliveries[i].body.decisionId == r.decisionId
      && !(r.action == ConfirmedNotDelivered && IsDelivered(d.deliveries[i].body))
  }

  predicate SchemaRelated(d: Document, r: ResolutionBody) {
    r.related.Some? ==>
      var own := DecisionById(d.decisions, r.decisionId);
      var related := DecisionById(d.decisions, r.related.value.decisionId);
      && own.Some? && related.Some?
      && related.value.hash == r.related.value.decisionHash
      && related.value.body.source.workspaceId == own.value.body.source.workspaceId
      && related.value.body.source.sourceId == own.value.body.source.sourceId
      && related.value.body.source.itemId != own.value.body.source.itemId
  }

  predicate SchemaReferences(d: Document) {
    forall r | r in d.resolutions ::
      && References(d, r.body.decisionId, r.body.decisionHash)
      && SchemaReference(d, r.body)
      && SchemaRelated(d, r.body)
  }

  predicate SchemaResolutions(d: Document) {
    && |d.resolutions| <= MAX_RESOLUTIONS
    && SchemaReferences(d)
    && (forall i, j | 0 <= i < j < |d.resolutions| ::
          && d.resolutions[i].body.resolutionId != d.resolutions[j].body.resolutionId
          && d.resolutions[i].hash != d.resolutions[j].hash)
    && (forall i | 0 <= i < |d.resolutions| ::
          var r := d.resolutions[i].body;
          ValidTransition(ActionsOf(d.resolutions[..i], r.decisionId), r.action))
  }

  predicate SchemaOk(d: Document) {
    && 0 < d.revision <= MAX_SAFE_INTEGER
    && |d.decisions| <= MAX_DECISIONS
    && SchemaDeliveries(d)
    && SchemaResolutions(d)
  }
}
