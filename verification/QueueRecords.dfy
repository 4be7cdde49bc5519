/**
Immutable queue records. SHA-256 over canonical JSON is taken to be collision free, so a hash is modelled
by the record it was computed from.
*/
module QueueRecords {
  import opened Options

  datatype ItemType = Question | ApprovalRequest

  datatype Source = Source(
    workspaceId: string, workspaceRevision: nat, sourceId: string, observationRevision: nat,
    boundary: string, contentHash: string, itemId: string, itemType: ItemType)

  datatype SourceKey = SourceKey(workspaceId: string, sourceId: string, boundary: string, itemId: string)

  datatype Payload =
    | QuestionAnswer(answer: string, note: Option<string>)
    | ApprovalDecision(approved: bool, note: Option<string>)

  datatype DecisionBody = DecisionBody(decisionId: string, source: Source, payload: Payload, decidedAt: string)

  datatype Decision = Decision(body: DecisionBody, hash: Hash)

  datatype Target =
    | AnswerFile(methodId: string, methodLabel: string, path: string)
    | RolePrompt(methodId: string, methodLabel: string, role: string, sessionId: string, sessionEpoch: nat)

  datatype Outcome =
    | Delivered(recordedAt: string, evidence: string)
    | NotDelivered(recordedAt: string, error: string)
    | UnknownOutcome(recordedAt: string, error: string)

  datatype DeliveryBody = DeliveryBody(
    deliveryId: string, decisionId: string, decisionHash: Hash, target: Target,
    payloadHash: string, payloadByteLength: nat, requestedAt: string, outcome: Option<Outcome>)

  datatype Delivery = Delivery(body: DeliveryBody, hash: Hash)

  datatype Action = Acknowledged | Applied | UnableToApply | ConfirmedNotDelivered | Superseded

  datatype DeliveryRef = DeliveryRef(deliveryId: string, deliveryHash: Hash)

  datatype DecisionRef = DecisionRef(decisionId: string, decisionHash: Hash)

  datatype ResolutionBody = ResolutionBody(
    resolutionId: string, decisionId: string, decisionHash: Hash, action: Action,
    delivery: Option<DeliveryRef>, related: Option<DecisionRef>, recordedAt: string, note: Option<string>)

  datatype Resolution = Resolution(body: ResolutionBody, hash: Hash)

  datatype Hash =
    | OfDecision(decision: DecisionBody)
    | OfDelivery(delivery: DeliveryBody)
    | OfResolution(resolution: ResolutionBody)

  /** The queue state document; revision 0 stands for a missing file. */
  datatype Document = Document(
    revision: nat, decisions: seq<Decision>, deliveries: seq<Delivery>, resolutions: seq<Resolution>)

  const EMPTY := Document(0, [], [], [])

  const MAX_DECISIONS := 4096
  const MAX_DELIVERIES := 8192
  const MAX_RESOLUTIONS := 8192
  const MAX_SAFE_INTEGER := 0x1F_FFFF_FFFF_FFFF

  function KeyOf(s: Source): SourceKey {
    SourceKey(s.workspaceId, s.sourceId, s.boundary, s.itemId)
  }

  predicate ValidDecision(d: Decision) {
    d.hash == OfDecision(d.body)
  }

  predicate ValidDelivery(d: Delivery) {
    d.hash == OfDelivery(d.body)
  }

  predicate ValidResolution(r: Resolution) {
    r.hash == OfResolution(r.body)
  }

  predicate IsDelivered(d: DeliveryBody) {
    d.outcome.Some? && d.outcome.value.Delivered?
  }

  /** The attempts of one decision, in storage order. */
  function Attempts(deliveries: seq<Delivery>, decisionId: string): (r: seq<Delivery>)
    ensures forall d :: d in r <==> d in deliveries && d.body.decisionId == decisionId
  {
    if deliveries == [] then []
    else
      var n := |deliveries| - 1;
      Attempts(deliveries[..n], decisionId)
      + if deliveries[n].body.decisionId == decisionId then [deliveries[n]] else []
  }

  lemma AttemptsAppend(deliveries: seq<Delivery>, d: Delivery, decisionId: string)
    ensures Attempts(deliveries + [d], decisionId)
         == Attempts(deliveries, decisionId) + if d.body.decisionId == decisionId then [d] else []
  {
    assert (deliveries + [d])[..|deliveries|] == deliveries;
  }
}
