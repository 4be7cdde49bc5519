/**
The gap between an intent becoming visible and its attempt being marked active: whenever a confirmation of the
attempt is let through there, a retry can be in flight together with it.
*/
module QueueGap {
  import opened Options
  import opened SerialStore
  import opened QueueRecords
  import opened QueueMutations
  import opened QueueHistory
  import opened QueueReconciliation
  import opened QueueProtocol
  import opened QueueAgreement
  import opened QueueSafety
  import opened QueueFlight

  // ---------------------------------------------------------------- continuations

  /** Some run leads from s to t. */
  ghost predicate Leads(s: System, t: System) {
    exists events :: t == Run(s, events)
  }

  lemma {:induction false} RunThen(s: System, events: seq<Event>, e: Event)
    ensures Run(s, events + [e]) == Next(Run(s, events), e)
    decreases |events|
  {
    if events == [] {
      assert Run(Next(s, e), []) == Next(s, e) && ([] + [e])[1..] == [];
    } else {
      RunThen(Next(s, events[0]), events[1..], e);
      assert (events + [e])[1..] == events[1..] + [e];
    }
  }

  lemma LeadsRefl(s: System)
    ensures Leads(s, s)
  {
    assert s == Run(s, []);
  }

  lemma LeadsNext(origin: System, s: System, e: Event)
    requires Leads(origin, s)
    ensures Leads(origin, Next(s, e))
  {
    var events :| s == Run(origin, events);
    RunThen(origin, events, e);
  }

  lemma LeadsStore(origin: System, s: System, step: Step<Document, Mutation>, after: Store)
    requires Leads(origin, s) && !step.Submit? && !step.Restart? && !step.PowerLoss?
    requires after == Do(PlanMutation, s.store, step)
    ensures Leads(origin, s.(store := after))
  {
    LeadsNext(origin, s, StoreAdvances(step));
  }

  // ---------------------------------------------------------------- the store, left alone

  predicate HeadReady<D(==), Op>(s: State<D, Op>, phase: Phase<D>) {
    0 < |s.queue| <= s.tickets && s.phase == phase
  }

  lemma InspectsAndRenames<D, Op>(plan: (Op, D) -> Plan<D>, s: State<D, Op>, next: D)
    requires HeadReady(s, Idle) && plan(s.queue[0], s.disk.visible) == Write(next)
    ensures Do(plan, Do(plan, s, Inspect(true, true)), Rename)
         == s.(disk := s.disk.Replace(next), phase := Replaced(next))
  {
  }

  lemma Syncs<D, Op>(plan: (Op, D) -> Plan<D>, s: State<D, Op>, next: D)
    requires HeadReady(s, Replaced(next)) && s.disk.visible == next
    ensures Do(plan, s, SyncDirectory(true)) == s.(disk := Disk(next, {next}), phase := Durable(next))
  {
  }

  lemma Verifies<D, Op>(plan: (Op, D) -> Plan<D>, s: State<D, Op>, next: D)
    requires HeadReady(s, Durable(next))
    ensures Do(plan, s, Verify(true)) == Answered(s, Recorded(s.queue[0], next))
  {
  }

  /** The head mutation runs from its inspection to the visible replacement. */
  lemma HeadReplaces(origin: System, s: System, next: Document) returns (s': System)
    requires Leads(origin, s) && HeadReady(s.store, Idle)
    requires PlanMutation(s.store.queue[0], s.store.disk.visible) == Write(next)
    ensures Leads(origin, s')
    ensures s' == s.(store := s.store.(disk := s.store.disk.Replace(next), phase := Replaced(next)))
  {
    var inspected := Do(PlanMutation, s.store, Inspect(true, true));
    var renamed := Do(PlanMutation, inspected, Rename);
    InspectsAndRenames(PlanMutation, s.store, next);
    LeadsStore(origin, s, Inspect(true, true), inspected);
    LeadsStore(origin, s.(store := inspected), Rename, renamed);
    s' := s.(store := renamed);
  }

  /** A replaced or durable head is answered "recorded". */
  lemma HeadRecords(origin: System, s: System, next: Document) returns (s': System)
    requires Leads(origin, s) && s.store.disk.visible == next
    requires HeadReady(s.store, Replaced(next)) || HeadReady(s.store, Durable(next))
    requires s.store.phase == Durable(next) ==> s.store.disk == Disk(next, {next})
    ensures Leads(origin, s')
    ensures s' == s.(store := Answered(s.store, Recorded(s.store.queue[0], next)).(disk := Disk(next, {next})))
  {
    var mid := s;
    if s.store.phase.Replaced? {
      Syncs(PlanMutation, s.store, next);
      LeadsStore(origin, s, SyncDirectory(true), Do(PlanMutation, s.store, SyncDirectory(true)));
      mid := s.(store := Do(PlanMutation, s.store, SyncDirectory(true)));
    }
    Verifies(PlanMutation, mid.store, next);
    LeadsStore(origin, mid, Verify(true), Do(PlanMutation, mid.store, Verify(true)));
    s' := mid.(store := Do(PlanMutation, mid.store, Verify(true)));
  }

  lemma ReplacedRecords(origin: System, s: System, mid: System, m: Mutation, next: Document) returns (s': System)
    requires Leads(origin, mid) && HeadReady(s.store, Idle) && s.store.queue == [m]
    requires mid == s.(store := s.store.(disk := s.store.disk.Replace(next), phase := Replaced(next)))
    ensures Leads(origin, s')
    ensures s' == s.(store := Answered(s.store, Recorded(m, next)).(disk := Disk(next, {next})))
    ensures s'.store.queue == [] && s'.store.phase == Idle
  {
    s' := HeadRecords(origin, mid, next);
  }

  /** A lone mutation that the planner accepts is carried out and recorded. */
  lemma LoneRecords(origin: System, s: System, m: Mutation, next: Document) returns (s': System)
    requires Leads(origin, s) && HeadReady(s.store, Idle) && s.store.queue == [m]
    requires PlanMutation(m, s.store.disk.visible) == Write(next)
    ensures Leads(origin, s')
    ensures s' == s.(store := Answered(s.store, Recorded(m, next)).(disk := Disk(next, {next})))
    ensures s'.store.queue == [] && s'.store.phase == Idle
  {
    var mid := HeadReplaces(origin, s, next);
    s' := ReplacedRecords(origin, s, mid, m, next);
  }

  // ---------------------------------------------------------------- one deliver call

  lemma DeliverPrepares(
      origin: System, s: System, call: nat, decisionId: string, decisionHash: Hash, retryOf: Option<Delivery>)
    returns (s': System)
    requires Leads(origin, s) && call !in s.delivers
    requires MayAttempt(s.store.disk.visible, decisionId, decisionHash) == Some(retryOf)
    ensures Leads(origin, s')
    ensures s' == s.(delivers := s.delivers[call := Prepared(decisionId, decisionHash, retryOf)])
  {
    LeadsNext(origin, s, DeliverCalled(call, decisionId, decisionHash));
    var called := Next(s, DeliverCalled(call, decisionId, decisionHash));
    LeadsNext(origin, called, DeliverResolved(call));
    s' := Next(called, DeliverResolved(call));
    assert s'.delivers == s.delivers[call := Prepared(decisionId, decisionHash, retryOf)];
  }

  /** A deliver call up to the submission of its intent. */
  lemma Submits(origin: System, s: System, call: nat, retryOf: Option<Delivery>, delivery: Delivery) returns (s': System)
    requires Leads(origin, s) && call !in s.delivers && FreshIntent(delivery)
    requires MayAttempt(s.store.disk.visible, delivery.body.decisionId, delivery.body.decisionHash) == Some(retryOf)
    requires retryOf.Some? ==> retryOf.value.body.target == delivery.body.target
    requires delivery.body.deliveryId !in s.used
    ensures Leads(origin, s')
    ensures s' == s.(store := s.store.(queue := s.store.queue + [Begin(delivery)], tickets := s.store.tickets + 1),
                     used := s.used + {delivery.body.deliveryId},
                     delivers := s.delivers[call := AwaitingIntent(s.store.tickets, delivery)])
  {
    var b := delivery.body;
    var mid := DeliverPrepares(origin, s, call, b.decisionId, b.decisionHash, retryOf);
    var e := DeliverSubmits(call, b.deliveryId, b.target, b.payloadHash, b.payloadByteLength, b.requestedAt);
    SubmitNext(mid, e, delivery);
    LeadsNext(origin, mid, e);
    s' := Next(mid, e);
    assert s'.delivers == s.delivers[call := AwaitingIntent(s.store.tickets, delivery)];
  }

  lemma SubmitNext(s: System, e: Event, delivery: Delivery)
    requires e.DeliverSubmits? && e.call in s.delivers && s.delivers[e.call].Prepared?
    requires Intent(s.delivers[e.call], e) == delivery && SubmitAllowed(s, s.delivers[e.call], e)
    ensures Next(s, e)
         == s.(store := s.store.(queue := s.store.queue + [Begin(delivery)], tickets := s.store.tickets + 1),
               used := s.used + {delivery.body.deliveryId},
               delivers := s.delivers[e.call := AwaitingIntent(s.store.tickets, delivery)])
  {
  }

  lemma Invokes(origin: System, s: System, call: nat) returns (s': System)
    requires Leads(origin, s) && call in s.delivers && s.delivers[call].AwaitingIntent?
    requires s.delivers[call].ticket in s.store.answers && s.store.answers[s.delivers[call].ticket].Recorded?
    ensures Leads(origin, s') && s'.store == s.store && s'.used == s.used
    ensures s'.delivers == s.delivers[call := Invoking(s.delivers[call].delivery)]
  {
    LeadsNext(origin, s, DeliverInvokes(call));
    s' := Next(s, DeliverInvokes(call));
  }

  ghost predicate TwoInFlight(s: System) {
    exists a, b | a in s.delivers && b in s.delivers && a != b ::
      && s.delivers[a].Invoking? && s.delivers[b].Invoking?
      && s.delivers[a].delivery.body.decisionId == s.delivers[b].delivery.body.decisionId
  }

  // ---------------------------------------------------------------- identifiers that are still free

  lemma {:induction false} LengthBound(ids: set<string>) returns (n: nat)
    ensures forall id | id in ids :: |id| <= n
    decreases |ids|
  {
    n := 0;
    if id :| id in ids {
      var rest := LengthBound(ids - {id});
      n := if |id| <= rest then rest else |id|;
    }
  }

  lemma FreeId(ids: set<string>) returns (id: string)
    ensures id !in ids
  {
    var n := LengthBound(ids);
    id := seq(n + 1, _ => 'a');
    forall other | other in ids ensures other != id {
      assert |other| <= n < |id|;
    }
  }

  lemma {:induction false} NumberBound(numbers: set<nat>) returns (n: nat)
    ensures forall k | k in numbers :: k <= n
    decreases |numbers|
  {
    n := 0;
    if k :| k in numbers {
      var rest := NumberBound(numbers - {k});
      n := if k <= rest then rest else k;
      forall j | j in numbers ensures j <= n {
        assert j == k || j in numbers - {k};
      }
    }
  }

  lemma FreeCall(delivers: map<nat, DeliverCall>) returns (call: nat)
    ensures call !in delivers
  {
    var n := NumberBound(delivers.Keys);
    call := n + 1;
    assert call !in delivers.Keys;
  }

  // ---------------------------------------------------------------- snapshots are not ahead

  lemma {:induction false} FirstDecisionPrefix(a: seq<Decision>, b: seq<Decision>, decisionId: string)
    requires a <= b && FirstDecision(a, decisionId) < |a|
    ensures FirstDecision(b, decisionId) == FirstDecision(a, decisionId)
    decreases |a|
  {
    if a[0].body.decisionId != decisionId {
      assert a[1..] <= b[1..];
      FirstDecisionPrefix(a[1..], b[1..], decisionId);
    }
  }

  /** Every snapshot a resolve call works from has only decisions that are still there. */
  ghost predicate SnapshotInv(s: System) {
    forall call | call in s.resolves && s.resolves[call].Checking? ::
      s.resolves[call].snapshot.decisions <= s.store.disk.visible.decisions
  }

  lemma PowerClears(s: System, e: Event)
    requires e.PowerFails?
    ensures Next(s, e) == s || Next(s, e).resolves == map[]
  {
  }

  lemma MoveKeepsDecisions(s: Store, after: Document)
    requires VisibleMove(s, after, false)
    ensures s.disk.visible.decisions <= after.decisions
  {
  }

  lemma NextKeepsSnapshots(s: System, e: Event)
    requires SystemInv(s) && SnapshotInv(s)
    ensures SnapshotInv(Next(s, e))
  {
    if e.PowerFails? {
      PowerClears(s, e);
    } else {
      var s' := Next(s, e);
      VisibleStep(s, e);
      MoveKeepsDecisions(s.store, s'.store.disk.visible);
      forall call | call in s'.resolves && s'.resolves[call].Checking?
        ensures s'.resolves[call].snapshot.decisions <= s'.store.disk.visible.decisions
      {
        NextSnapshot(s, e, call);
      }
    }
  }

  /** What holds in every state a run reaches. */
  ghost predicate ReachedInv(s: System) {
    SystemInv(s) && SchemaInv(s) && KnownInv(s) && SnapshotInv(s)
  }

  lemma {:induction false} RunKeepsReached(s: System, events: seq<Event>)
    requires ReachedInv(s)
    ensures ReachedInv(Run(s, events))
    decreases |events|
  {
    if events != [] {
      var e := events[0];
      NextKeepsInv(s, e);
      NextKeepsSchema(s, e);
      NextKeepsKnown(s, e);
      NextKeepsSnapshots(s, e);
      RunKeepsReached(Next(s, e), events[1..]);
    }
  }

  lemma StartReached(doc: Document)
    requires StartsFrom(doc)
    ensures ReachedInv(Start(doc))
  {
    StartInv(doc);
    StartKnown(doc);
  }

  // ---------------------------------------------------------------- a confirmation in the gap

  /** The event lets a confirmation through for the attempt whose intent this call awaits. */
  predicate ConfirmsInGap(s: System, call: nat, e: Event) {
    && call in s.delivers && s.delivers[call].AwaitingIntent?
    && e.ResolveSubmits? && e.call in s.resolves && s.resolves[e.call].Checking? && e.resolutionId !in s.used
    && var q := s.resolves[e.call].request;
    && Check(s.resolves[e.call].snapshot, s.active, q) == None
    && q.action == ConfirmedNotDelivered && q.delivery.Some?
    && q.delivery.value.deliveryId == s.delivers[call].delivery.body.deliveryId
  }

  /** The intent is visible: it is answered "recorded" already, or it is the head and has been renamed. */
  predicate IntentVisible(s: System, call: nat)
    requires call in s.delivers && s.delivers[call].AwaitingIntent?
  {
    var ticket, next := s.delivers[call].ticket, s.store.disk.visible;
    || (s.store.queue == [] && s.store.phase == Idle && ticket in s.store.answers && s.store.answers[ticket].Recorded?)
    || (|s.store.queue| == 1 <= s.store.tickets && ticket == s.store.tickets - 1 && ticket !in s.store.answers
        && (s.store.phase == Replaced(next) || s.store.phase == Durable(next)))
  }

  function Confirmation(s: System, e: Event): Resolution
    requires e.ResolveSubmits? && e.call in s.resolves && s.resolves[e.call].Checking?
  {
    Build(s.resolves[e.call].request, e.resolutionId, e.now)
  }

  /** The store accepts the confirmation, and the document has room for a retry. */
  predicate RoomForRetry(d: Document, confirmation: Resolution, decisionId: string) {
    && PlanMutation(Resolve(confirmation), d).Write?
    && |Attempts(d.deliveries, decisionId)| == 1
    && |d.deliveries| < MAX_DELIVERIES && d.revision + 1 < MAX_SAFE_INTEGER
  }

  /** The stored attempt of an intent that is visible. */
  lemma VisibleHolds(s: Store, ticket: nat, m: Mutation)
    requires StoreInv(s) && Tracks(s, ticket, m)
    requires || (ticket in s.answers && s.answers[ticket].Recorded?)
             || (ticket !in s.answers && |s.queue| == 1 && (s.phase.Replaced? || s.phase.Durable?))
    ensures Holds(m, s.disk.visible)
  {
    if ticket in s.answers {
      assert s.disk.visible in s.disk.possible;
      RecordedIsDurable(s, ticket, s.disk.visible);
    } else {
      InstalledIsVisible(PlanMutation, s, m);
    }
  }

  lemma InstalledIsVisible<D(!new), Op(!new)>(plan: (Op, D) -> Plan<D>, s: State<D, Op>, op: Op)
    requires Inv(plan, s) && |s.queue| == 1 && s.queue[0] == op && (s.phase.Replaced? || s.phase.Durable?)
    ensures Installed(s, op, s.disk.visible)
  {
  }

  lemma StoredIntent(s: System, call: nat) returns (x: Delivery)
    requires SystemInv(s) && call in s.delivers && s.delivers[call].AwaitingIntent? && IntentVisible(s, call)
    ensures x in s.store.disk.visible.deliveries && Evolves(s.delivers[call].delivery, x)
  {
    var c := s.delivers[call];
    VisibleHolds(s.store, c.ticket, Begin(c.delivery));
    x :| x in s.store.disk.visible.deliveries && Evolves(c.delivery, x);
  }

  lemma PlannedConfirmation(d: Document, r: Resolution)
    requires PlanMutation(Resolve(r), d).Write?
    ensures PlanMutation(Resolve(r), d) == Write(WithResolution(d, r)) && SchemaOk(WithResolution(d, r))
  {
  }

  lemma SameId(deliveries: seq<Delivery>, x: Delivery, i: nat)
    requires x in deliveries && i < |deliveries| && deliveries[i].body.deliveryId == x.body.deliveryId
    requires forall j, k | 0 <= j < k < |deliveries| :: deliveries[j].body.deliveryId != deliveries[k].body.deliveryId
    ensures deliveries[i] == x
  {
    var k :| 0 <= k < |deliveries| && deliveries[k] == x;
    assert !(i < k) && !(k < i);
  }

  /** A stored confirmation that names an attempt unlocks it: the schema ties the hashes. */
  lemma ConfirmationUnlocks(n: Document, r: Resolution, x: Delivery)
    requires SchemaOk(n) && r in n.resolutions && x in n.deliveries
    requires r.body.action == ConfirmedNotDelivered && r.body.delivery.Some?
    requires r.body.delivery.value.deliveryId == x.body.deliveryId
    ensures Unlocked(n, x) && r.body.decisionId == x.body.decisionId && r.body.decisionHash == x.body.decisionHash
  {
    assert SchemaReference(n, r.body) && References(n, r.body.decisionId, r.body.decisionHash);
    SameId(n.deliveries, x, FirstDelivery(n.deliveries, x.body.deliveryId));
    assert References(n, x.body.decisionId, x.body.decisionHash);
    assert Unlocks(r, x);
  }

  /** The confirmation is submitted; nothing else changes but the resolve call itself. */
  lemma ConfirmationSubmits(s: System, call: nat, e: Event)
    requires ConfirmsInGap(s, call, e)
    ensures var s' := Next(s, e);
            && s'.delivers == s.delivers && s'.used == s.used + {e.resolutionId}
            && s'.store == s.store.(queue := s.store.queue + [Resolve(Confirmation(s, e))], tickets := s.store.tickets + 1)
  {
  }

  /** The queue holds only the confirmation, and the intent has been answered "recorded". */
  predicate IntentRecorded(s: System, call: nat, m: Mutation) {
    && HeadReady(s.store, Idle) && s.store.queue == [m]
    && call in s.delivers && s.delivers[call].AwaitingIntent?
    && s.delivers[call].ticket in s.store.answers && s.store.answers[s.delivers[call].ticket].Recorded?
  }

  /** With the confirmation behind it in the queue, a visible intent is answered "recorded". */
  lemma IntentAnswered(origin: System, s: System, s1: System, call: nat, m: Mutation) returns (s': System)
    requires Leads(origin, s1) && s1.delivers == s.delivers
    requires call in s.delivers && s.delivers[call].AwaitingIntent? && IntentVisible(s, call)
    requires s.store.phase.Durable? ==> s.store.disk == Disk(s.store.phase.next, {s.store.phase.next})
    requires s1.store == s.store.(queue := s.store.queue + [m], tickets := s.store.tickets + 1)
    ensures Leads(origin, s') && IntentRecorded(s', call, m)
    ensures s'.delivers == s.delivers && s'.used == s1.used && s'.store.disk.visible == s.store.disk.visible
  {
    if s.store.queue == [] {
      s' := s1;
    } else {
      s' := HeadRecords(origin, s1, s.store.disk.visible);
      assert s1.store.queue[1..] == [m];
    }
  }

  lemma DurableDisk<D(!new), Op(!new)>(plan: (Op, D) -> Plan<D>, s: State<D, Op>)
    requires Inv(plan, s)
    ensures s.phase.Durable? ==> s.disk == Disk(s.phase.next, {s.phase.next})
  {
  }

  lemma SubmittedLeads(s: System, call: nat, e: Event) returns (s': System)
    requires SystemInv(s) && ConfirmsInGap(s, call, e) && IntentVisible(s, call)
    ensures Leads(Next(s, e), s') && IntentRecorded(s', call, Resolve(Confirmation(s, e)))
    ensures s'.delivers == s.delivers && s'.used == s.used + {e.resolutionId}
    ensures s'.store.disk.visible == s.store.disk.visible
  {
    LeadsRefl(Next(s, e));
    ConfirmationSubmits(s, call, e);
    DurableDisk(PlanMutation, s.store);
    s' := IntentAnswered(Next(s, e), s, Next(s, e), call, Resolve(Confirmation(s, e)));
  }

  lemma MayRetry(n: Document, first: Delivery, decisionHash: Hash)
    requires Attempts(n.deliveries, first.body.decisionId) == [first]
    requires Unlocked(n, first) && !IsDelivered(first.body)
    requires var i := FirstDecision(n.decisions, first.body.decisionId);
             i < |n.decisions| && n.decisions[i].hash == decisionHash
    ensures MayAttempt(n, first.body.decisionId, decisionHash) == Some(Some(first))
  {
  }

  function Second(first: Delivery, deliveryId: string): Delivery {
    var body := first.body.(deliveryId := deliveryId, outcome := None);
    Delivery(body, OfDelivery(body))
  }

  lemma CheckedDecision(snapshot: Document, active: set<string>, q: Request)
    requires Check(snapshot, active, q) == None
    ensures var i := FirstDecision(snapshot.decisions, q.decisionId);
            i < |snapshot.decisions| && snapshot.decisions[i].hash == q.decisionHash
  {
  }

  lemma KnownIds(s: System, x: Delivery)
    requires KnownInv(s) && s.store.disk.visible in s.store.disk.possible && x in s.store.disk.visible.deliveries
    ensures x.body.deliveryId in s.used
  {
    assert Knows(s.store, x.body.deliveryId);
  }

  // ---------------------------------------------------------------- the confirmed document

  function Confirmed(s: System, e: Event): Document
    requires e.ResolveSubmits? && e.call in s.resolves && s.resolves[e.call].Checking?
  {
    WithResolution(s.store.disk.visible, Confirmation(s, e))
  }

  /** A confirmation let through in the gap, and the stored attempt that it names. */
  ghost predicate GapAt(s: System, call: nat, e: Event, x: Delivery) {
    && ReachedInv(s) && ConfirmsInGap(s, call, e)
    && RoomForRetry(s.store.disk.visible, Confirmation(s, e), s.delivers[call].delivery.body.decisionId)
    && x in s.store.disk.visible.deliveries && Evolves(s.delivers[call].delivery, x)
  }

  lemma ConfirmedSchema(d: Document, r: Resolution, decisionId: string)
    requires RoomForRetry(d, r, decisionId)
    ensures PlanMutation(Resolve(r), d) == Write(WithResolution(d, r))
    ensures SchemaOk(WithResolution(d, r))
  {
    PlannedConfirmation(d, r);
  }

  lemma ConfirmedUnlocks(s: System, call: nat, e: Event, x: Delivery)
    requires GapAt(s, call, e, x)
    ensures Unlocked(Confirmed(s, e), x)
    ensures var q := s.resolves[e.call].request; q.decisionId == x.body.decisionId && q.decisionHash == x.body.decisionHash
  {
    var n, r := Confirmed(s, e), Confirmation(s, e);
    ConfirmationUnlocks(n, r, x) by {
      ConfirmedSchema(s.store.disk.visible, r, x.body.decisionId);
      assert n.resolutions[|n.resolutions| - 1] == r;
    }
  }

  lemma VisibleInv(s: System)
    requires SystemInv(s)
    ensures DocumentInv(s.store.disk.visible)
  {
    assert s.store.disk.visible in s.store.disk.possible;
  }

  lemma ConfirmationBinds(s: System, call: nat, e: Event)
    requires SystemInv(s) && ConfirmsInGap(s, call, e)
    ensures BindsUndelivered(Confirmation(s, e).body)
  {
    var c := s.resolves[e.call];
    assert DocumentInv(c.snapshot);
    CheckedBindsUndelivered(c.snapshot, s.active, c.request, e.resolutionId, e.now);
  }

  lemma ConfirmedBinds(s: System, call: nat, e: Event)
    requires SystemInv(s) && ConfirmsInGap(s, call, e)
    ensures AllBind(Confirmed(s, e).resolutions) && AllValid(Confirmed(s, e).deliveries)
  {
    VisibleInv(s);
    ConfirmationBinds(s, call, e);
    BindsOneMore(s.store.disk.visible.resolutions, Confirmation(s, e));
  }

  lemma BindsOneMore(resolutions: seq<Resolution>, r: Resolution)
    requires AllBind(resolutions) && BindsUndelivered(r.body)
    ensures AllBind(resolutions + [r])
  {
  }

  lemma ConfirmedUndelivered(s: System, call: nat, e: Event, x: Delivery)
    requires GapAt(s, call, e, x)
    ensures !IsDelivered(x.body)
  {
    UnlockedIsUndelivered(Confirmed(s, e), x) by {
      ConfirmedBinds(s, call, e);
      ConfirmedUnlocks(s, call, e, x);
    }
  }

  lemma ConfirmedFirst(s: System, call: nat, e: Event, x: Delivery)
    requires GapAt(s, call, e, x)
    ensures var n := Confirmed(s, e);
            var i := FirstDecision(n.decisions, x.body.decisionId);
            i < |n.decisions| && n.decisions[i].hash == x.body.decisionHash
  {
    var c := s.resolves[e.call];
    CheckedDecision(c.snapshot, s.active, c.request);
    FirstDecisionPrefix(c.snapshot.decisions, s.store.disk.visible.decisions, c.request.decisionId);
    ConfirmedUnlocks(s, call, e, x);
  }

  lemma OnlyAttempt(deliveries: seq<Delivery>, x: Delivery)
    requires x in deliveries && |Attempts(deliveries, x.body.decisionId)| == 1
    ensures Attempts(deliveries, x.body.decisionId) == [x]
  {
    assert x in Attempts(deliveries, x.body.decisionId);
  }

  lemma ConfirmedMayRetry(s: System, call: nat, e: Event, x: Delivery)
    requires GapAt(s, call, e, x)
    ensures MayAttempt(Confirmed(s, e), x.body.decisionId, x.body.decisionHash) == Some(Some(x))
  {
    MayRetry(Confirmed(s, e), x, x.body.decisionHash) by {
      OnlyAttempt(s.store.disk.visible.deliveries, x);
      ConfirmedUnlocks(s, call, e, x);
      ConfirmedUndelivered(s, call, e, x);
      ConfirmedFirst(s, call, e, x);
    }
  }

  lemma SecondAccepted(n: Document, x: Delivery, deliveryId: string)
    requires SchemaOk(n) && |n.deliveries| < MAX_DELIVERIES && n.revision < MAX_SAFE_INTEGER
    requires AllValid(n.deliveries) && Attempts(n.deliveries, x.body.decisionId) == [x] && Unlocked(n, x)
    requires forall y | y in n.deliveries :: y.body.deliveryId != deliveryId
    ensures PlanMutation(Begin(Second(x, deliveryId)), n) == Write(WithAttempt(n, Second(x, deliveryId)))
  {
    assert x in Attempts(n.deliveries, x.body.decisionId);
    AttemptAccepted(n, Second(x, deliveryId));
  }

  lemma ConfirmedPlansRetry(s: System, call: nat, e: Event, x: Delivery, deliveryId: string)
    requires GapAt(s, call, e, x) && deliveryId !in s.used
    ensures var n, second := Confirmed(s, e), Second(x, deliveryId);
            PlanMutation(Begin(second), n) == Write(WithAttempt(n, second))
  {
    SecondAccepted(Confirmed(s, e), x, deliveryId) by {
      OnlyAttempt(s.store.disk.visible.deliveries, x);
      ConfirmedSchema(s.store.disk.visible, Confirmation(s, e), x.body.decisionId);
      ConfirmedUnlocks(s, call, e, x);
      ConfirmedBinds(s, call, e);
      forall y | y in s.store.disk.visible.deliveries ensures y.body.deliveryId != deliveryId {
        KnownIds(s, y);
      }
    }
  }

  // ---------------------------------------------------------------- the run

  predicate Flying(s: System, call: nat, decisionId: string) {
    call in s.delivers && s.delivers[call].Invoking? && s.delivers[call].delivery.body.decisionId == decisionId
  }

  /** The confirmation is stored and the first attempt is invoked. */
  lemma ConfirmedFlies(s: System, call: nat, e: Event, x: Delivery) returns (s': System)
    requires GapAt(s, call, e, x) && IntentVisible(s, call)
    ensures Leads(Next(s, e), s') && Flying(s', call, x.body.decisionId)
    ensures s'.store.queue == [] && s'.store.phase == Idle && s'.store.disk.visible == Confirmed(s, e)
    ensures s'.used == s.used + {e.resolutionId}
  {
    var r, d := Confirmation(s, e), s.store.disk.visible;
    var s1 := SubmittedLeads(s, call, e);
    var s2 := LoneRecords(Next(s, e), s1, Resolve(r), WithResolution(d, r)) by {
      ConfirmedSchema(d, r, x.body.decisionId);
    }
    s' := Invokes(Next(s, e), s2, call);
  }

  lemma RecordedFlies(origin: System, s: System, s1: System, other: nat, m: Mutation, n: Document) returns (s': System)
    requires Leads(origin, s1) && s.store.queue == [m] && s.store.phase == Idle && 1 <= s.store.tickets
    requires s1 == s.(store := Answered(s.store, Recorded(m, n)).(disk := Disk(n, {n})))
    requires other in s.delivers && s.delivers[other].AwaitingIntent? && s.delivers[other].ticket == s.store.tickets - 1
    ensures Leads(origin, s') && s'.delivers == s.delivers[other := Invoking(s.delivers[other].delivery)]
  {
    s' := Invokes(origin, s1, other);
  }

  /** A second attempt, submitted while the store rests, is recorded and invoked. */
  lemma SecondFlies(origin: System, s: System, other: nat, m: Mutation, n: Document) returns (s': System)
    requires Leads(origin, s) && s.store.queue == [m] && s.store.phase == Idle && 1 <= s.store.tickets
    requires PlanMutation(m, s.store.disk.visible) == Write(n)
    requires other in s.delivers && s.delivers[other].AwaitingIntent? && s.delivers[other].ticket == s.store.tickets - 1
    ensures Leads(origin, s') && s'.delivers == s.delivers[other := Invoking(s.delivers[other].delivery)]
  {
    var s1 := LoneRecords(origin, s, m, n);
    s' := RecordedFlies(origin, s, s1, other, m, n);
  }

  lemma GapFlies(s: System, call: nat, e: Event) returns (s': System)
    requires ReachedInv(s) && ConfirmsInGap(s, call, e) && IntentVisible(s, call)
    requires RoomForRetry(s.store.disk.visible, Confirmation(s, e), s.delivers[call].delivery.body.decisionId)
    ensures Leads(Next(s, e), s') && TwoInFlight(s')
  {
    var x := StoredIntent(s, call);
    var s1 := ConfirmedFlies(s, call, e, x);
    var other, second;
    s', other, second := GapRetries(s, call, e, x, s1);
    TwoFly(s1, s', call, other, x.body.decisionId, second);
  }

  /** Another call, on a document that allows a retry of x, gets as far as submitting its intent. */
  lemma RetrySubmits(origin: System, s: System, x: Delivery, other: nat, second: Delivery) returns (s': System)
    requires Leads(origin, s) && other !in s.delivers && s.store.queue == [] && s.store.phase == Idle
    requires FreshIntent(second) && second.body.deliveryId !in s.used && second.body.target == x.body.target
    requires MayAttempt(s.store.disk.visible, second.body.decisionId, second.body.decisionHash) == Some(Some(x))
    ensures Leads(origin, s') && s'.store.queue == [Begin(second)] && s'.store.phase == Idle && 1 <= s'.store.tickets
    ensures s'.store.disk == s.store.disk
    ensures s'.delivers == s.delivers[other := AwaitingIntent(s'.store.tickets - 1, second)]
  {
    s' := Submits(origin, s, other, Some(x), second);
  }

  lemma SecondIsFresh(x: Delivery, id: string)
    ensures var second := Second(x, id);
            && FreshIntent(second) && second.body.deliveryId == id && second.body.target == x.body.target
            && second.body.decisionId == x.body.decisionId && second.body.decisionHash == x.body.decisionHash
  {
  }

  lemma GapRetries(s: System, call: nat, e: Event, x: Delivery, s1: System)
    returns (s': System, other: nat, second: Delivery)
    requires GapAt(s, call, e, x) && Leads(Next(s, e), s1)
    requires s1.store.queue == [] && s1.store.phase == Idle && s1.store.disk.visible == Confirmed(s, e)
    requires s1.used == s.used + {e.resolutionId}
    ensures Leads(Next(s, e), s') && other !in s1.delivers && second.body.decisionId == x.body.decisionId
    ensures s'.delivers == s1.delivers[other := Invoking(second)]
  {
    var id := FreeId(s1.used);
    other := FreeCall(s1.delivers);
    second := Second(x, id);
    var s2 := RetrySubmits(Next(s, e), s1, x, other, second) by {
      SecondIsFresh(x, id);
      ConfirmedMayRetry(s, call, e, x);
    }
    s' := GapRetried(s, call, e, x, id, s2, other);
    Overwrites(s1.delivers, other, s2.delivers[other], Invoking(second));
    SecondIsFresh(x, id);
  }

  lemma Overwrites<K, V>(m: map<K, V>, k: K, a: V, b: V)
    ensures m[k := a][k := b] == m[k := b]
  {
  }

  lemma GapRetried(s: System, call: nat, e: Event, x: Delivery, id: string, s2: System, other: nat) returns (s': System)
    requires GapAt(s, call, e, x) && Leads(Next(s, e), s2) && id !in s.used
    requires s2.store.queue == [Begin(Second(x, id))] && s2.store.phase == Idle && 1 <= s2.store.tickets
    requires s2.store.disk.visible == Confirmed(s, e)
    requires other in s2.delivers && s2.delivers[other] == AwaitingIntent(s2.store.tickets - 1, Second(x, id))
    ensures Leads(Next(s, e), s') && s'.delivers == s2.delivers[other := Invoking(Second(x, id))]
  {
    var second := Second(x, id);
    s' := SecondFlies(Next(s, e), s2, other, Begin(second), WithAttempt(Confirmed(s, e), second)) by {
      ConfirmedPlansRetry(s, call, e, x, id);
    }
  }

  lemma TwoFly(s: System, s': System, call: nat, other: nat, decisionId: string, second: Delivery)
    requires Flying(s, call, decisionId) && other !in s.delivers && second.body.decisionId == decisionId
    requires s'.delivers == s.delivers[other := Invoking(second)]
    ensures TwoInFlight(s')
  {
    assert Flying(s', call, decisionId) && Flying(s', other, decisionId);
  }

  /**
  The gap is exact: in any state a run reaches, when a confirmation is let through for an attempt whose intent
  is visible but still awaited, and the store accepts it with room for a retry, the run can go on so that two
  attempts of the decision are in flight together. QueueFlight shows that nothing else brings this about.
  */
  lemma GapIsExact(doc: Document, events: seq<Event>, call: nat, e: Event)
    requires StartsFrom(doc)
    requires var s := Run(Start(doc), events);
             && ConfirmsInGap(s, call, e) && IntentVisible(s, call)
             && RoomForRetry(s.store.disk.visible, Confirmation(s, e), s.delivers[call].delivery.body.decisionId)
    ensures var s := Run(Start(doc), events);
            !GapFree(s, e) && exists more :: TwoInFlight(Run(Next(s, e), more))
  {
    var s := Run(Start(doc), events);
    StartReached(doc);
    RunKeepsReached(Start(doc), events);
    var s' := GapFlies(s, call, e);
    var more :| s' == Run(Next(s, e), more);
    assert TwoInFlight(Run(Next(s, e), more));
  }

  // ---------------------------------------------------------------- one run into the gap

  const SOURCE := Source("workspace", 1, "inbox", 1, "whole_source_v1", "content", "item", Question)
  const BODY := DecisionBody("decision", SOURCE, QuestionAnswer("yes", None), "09:00")
  const DECISION := Decision(BODY, OfDecision(BODY))
  const TARGET := RolePrompt("method", "label", "builder", "session", 1)
  const FIRST_BODY := DeliveryBody("first", "decision", OfDecision(BODY), TARGET, "payload", 7, "09:01", None)
  const FIRST := Delivery(FIRST_BODY, OfDelivery(FIRST_BODY))
  const REQUEST := Request("decision", OfDecision(BODY), ConfirmedNotDelivered,
                           Some(DeliveryRef("first", OfDelivery(FIRST_BODY))), None, None)
  const CONFIRMATION := Build(REQUEST, "confirmation", "09:01")

  const DECIDED := Document(1, [DECISION], [], [])
  const ATTEMPTED := Document(2, [DECISION], [FIRST], [])
  const CONFIRMS := ResolveSubmits(9, "confirmation", "09:01")

  lemma Planned()
    ensures StartsFrom(DECIDED)
    ensures MayAttempt(DECIDED, "decision", OfDecision(BODY)) == Some(None)
    ensures PlanMutation(Begin(FIRST), DECIDED) == Write(ATTEMPTED)
  {
    assert Attempts([], "decision") == [];
    assert DecisionById([DECISION], "decision") == Some(DECISION);
    assert Attempts([FIRST], "decision") == [FIRST] by {
      assert [FIRST][..0] == [];
    }
    assert ATTEMPTED.deliveries == [] + [FIRST];
    assert DECISION in DECIDED.decisions;
  }

  lemma CheckedConfirmation()
    ensures Check(ATTEMPTED, {}, REQUEST) == None
  {
    assert ActionsOf([], "decision") == [];
    assert FirstDelivery([FIRST], "first") == 0;
  }

  lemma AttemptedDocument()
    ensures SchemaOk(ATTEMPTED) && Attempts(ATTEMPTED.deliveries, "decision") == [FIRST]
  {
    Planned();
    WriteIsChecked(Begin(FIRST), DECIDED, ATTEMPTED);
    assert [FIRST][..0] == [];
  }

  lemma AcceptedConfirmation()
    ensures Check(ATTEMPTED, {}, REQUEST) == None
    ensures RoomForRetry(ATTEMPTED, CONFIRMATION, "decision")
  {
    CheckedConfirmation();
    AttemptedDocument();
    CheckIff(ATTEMPTED, {}, REQUEST, "confirmation", "09:01");
  }

  /** The intent of a first attempt has been renamed into place, and an operator's label is being checked. */
  ghost predicate InTheGap(s: System, first: Delivery, d: Document, q: Request) {
    && 1 in s.delivers && s.delivers[1] == AwaitingIntent(0, first)
    && s.store.queue == [Begin(first)] && s.store.tickets == 1 && s.store.answers == map[]
    && s.store.phase == Replaced(d) && s.store.disk.visible == d
    && 9 in s.resolves && s.resolves[9] == Checking(q, d) && s.active == {} && s.used == {first.body.deliveryId}
  }

  lemma LabelChecked(origin: System, s: System, first: Delivery, d: Document, q: Request) returns (s': System)
    requires Leads(origin, s) && WellFormed(q) && s.resolves == map[] && s.active == {}
    requires s.used == {first.body.deliveryId} && s.delivers == map[1 := AwaitingIntent(0, first)]
    requires s.store.queue == [Begin(first)] && s.store.tickets == 1 && s.store.answers == map[]
    requires s.store.phase == Replaced(d) && s.store.disk.visible == d
    ensures Leads(origin, s') && InTheGap(s', first, d, q)
  {
    LeadsNext(origin, s, ResolveCalled(9, q));
    s' := Next(s, ResolveCalled(9, q));
  }

  lemma FirstSubmits(doc: Document, first: Delivery) returns (s: System)
    requires FreshIntent(first) && doc.deliveries == []
    requires MayAttempt(doc, first.body.decisionId, first.body.decisionHash) == Some(None)
    ensures Leads(Start(doc), s) && HeadReady(s.store, Idle) && s.store.queue == [Begin(first)]
    ensures s.store.disk == Disk(doc, {doc}) && s.store.tickets == 1 && s.store.answers == map[]
    ensures s.resolves == map[] && s.active == {} && s.used == {first.body.deliveryId}
    ensures s.delivers == map[1 := AwaitingIntent(0, first)]
  {
    LeadsRefl(Start(doc));
    s := Submits(Start(doc), Start(doc), 1, None, first);
  }

  lemma ReplacesAndLabels(doc: Document, first: Delivery, d: Document, q: Request) returns (s: System)
    requires FreshIntent(first) && doc.deliveries == [] && WellFormed(q)
    requires MayAttempt(doc, first.body.decisionId, first.body.decisionHash) == Some(None)
    requires PlanMutation(Begin(first), doc) == Write(d)
    ensures Leads(Start(doc), s) && InTheGap(s, first, d, q)
  {
    var s1 := FirstSubmits(doc, first);
    var s2 := HeadReplaces(Start(doc), s1, d);
    s := LabelChecked(Start(doc), s2, first, d, q);
  }

  lemma GapRuns(doc: Document, s: System, call: nat, e: Event)
    requires StartsFrom(doc) && Leads(Start(doc), s)
    requires ConfirmsInGap(s, call, e) && IntentVisible(s, call)
    requires RoomForRetry(s.store.disk.visible, Confirmation(s, e), s.delivers[call].delivery.body.decisionId)
    ensures exists events :: TwoInFlight(Run(Start(doc), events))
  {
    var events :| s == Run(Start(doc), events);
    GapIsExact(doc, events, call, e);
    Continued(Start(doc), events, s, e);
  }

  lemma Continued(start: System, events: seq<Event>, s: System, e: Event)
    requires s == Run(start, events) && exists more :: TwoInFlight(Run(Next(s, e), more))
    ensures exists all :: TwoInFlight(Run(start, all))
  {
    var more :| TwoInFlight(Run(Next(s, e), more));
    RunContinues(start, events, e, more);
    assert TwoInFlight(Run(start, events + [e] + more));
  }

  /** Without the guard of AtMostOneInFlight, a run exists in which one decision is being invoked twice. */
  lemma GapLetsTwoFly()
    ensures StartsFrom(DECIDED)
    ensures exists events :: TwoInFlight(Run(Start(DECIDED), events))
  {
    assert StartsFrom(DECIDED) by { Planned(); }
    var s := ReplacesAndLabels(DECIDED, FIRST, ATTEMPTED, REQUEST) by { Planned(); }
    GapRuns(DECIDED, s, 1, CONFIRMS) by {
      AcceptedConfirmation();
      Planned();
    }
  }

  lemma {:induction false} RunContinues(s: System, first: seq<Event>, e: Event, more: seq<Event>)
    ensures Run(s, first + [e] + more) == Run(Next(Run(s, first), e), more)
    decreases |first|
  {
    if first == [] {
      assert ([] + [e] + more)[1..] == more;
    } else {
      assert (first + [e] + more)[1..] == first[1..] + [e] + more;
      RunContinues(Next(s, first[0]), first[1..], e, more);
    }
  }
}
