/**
Overlapping deliver, resolve and append calls over one store, with crashes anywhere.

Every call is cut at its awaits. A deliver call reads a snapshot, decides whether it may attempt, submits
an intent, invokes its target once the intent is answered "recorded", and submits the outcome.
*/
module QueueProtocol {
  import opened Options
  import opened SerialStore
  import opened QueueRecords
  import opened QueueMutations
  import opened QueueHistory
  import opened QueueReconciliation

  datatype DeliverCall =
    | Resolving(decisionId: string, decisionHash: Hash, seen: Document)
    | Prepared(decisionId: string, decisionHash: Hash, retryOf: Option<Delivery>)
    | AwaitingIntent(ticket: nat, delivery: Delivery)
    | Invoking(delivery: Delivery)
    | AwaitingOutcome(ticket: nat, delivery: Delivery)

  datatype ResolveCall =
    | Checking(request: Request, snapshot: Document)
    | AwaitingRecord(ticket: nat)

  /** invoked lists every attempt whose irreversible effect was started; used holds every id ever drawn. */
  datatype System = System(
    store: Store,
    delivers: map<nat, DeliverCall>,
    resolves: map<nat, ResolveCall>,
    active: set<string>,
    used: set<string>,
    invoked: seq<Delivery>)

  datatype Event =
    | StoreAdvances(step: Step<Document, Mutation>)
    | AppendCalled(decision: Decision)
    | DeliverCalled(call: nat, decisionId: string, decisionHash: Hash)
    | DeliverResolved(call: nat)
    | DeliverAborted(call: nat)
    | DeliverSubmits(call: nat, deliveryId: string, target: Target, payloadHash: string, payloadLength: nat, now: string)
    | DeliverInvokes(call: nat)
    | DeliverReports(call: nat, outcome: Outcome)
    | DeliverReturns(call: nat)
    | ResolveCalled(call: nat, request: Request)
    | ResolveSubmits(call: nat, resolutionId: string, now: string)
    | ResolveReturns(call: nat)
    | ProcessRestarts
    | PowerFails(kept: Document)

  function Start(doc: Document): System {
    System(Fresh(doc), map[], map[], {}, set x | x in doc.deliveries :: x.body.deliveryId, [])
  }

  /** The attempt a deliver call may make on its snapshot: Some(None) a first one, Some(Some(first)) a retry. */
  function MayAttempt(d: Document, decisionId: string, decisionHash: Hash): Option<Option<Delivery>> {
    var i := FirstDecision(d.decisions, decisionId);
    if i == |d.decisions| || d.decisions[i].hash != decisionHash then None
    else
      var attempts := Attempts(d.deliveries, decisionId);
      if |attempts| >= 2 then None
      else if attempts == [] then Some(None)
      else if !IsDelivered(attempts[0].body) && Unlocked(d, attempts[0]) then Some(Some(attempts[0]))
      else None
  }

  function Submitted(store: Store, m: Mutation): Store {
    Do(PlanMutation, store, Submit(m))
  }

  function Intent(c: DeliverCall, e: Event): Delivery
    requires c.Prepared? && e.DeliverSubmits?
  {
    var body := DeliveryBody(e.deliveryId, c.decisionId, c.decisionHash, e.target, e.payloadHash,
                             e.payloadLength, e.now, None);
    Delivery(body, OfDelivery(body))
  }

  predicate SubmitAllowed(s: System, c: DeliverCall, e: Event)
    requires c.Prepared? && e.DeliverSubmits?
  {
    e.deliveryId !in s.used && (c.retryOf.Some? ==> e.target == c.retryOf.value.body.target)
  }

  /** The next state; an event that is not enabled changes nothing. */
  function Next(s: System, e: Event): System {
    match e
    case StoreAdvances(step) =>
      if step.Submit? || step.Restart? || step.PowerLoss? then s
      else s.(store := Do(PlanMutation, s.store, step))
    case AppendCalled(decision) =>
      s.(store := Submitted(s.store, Append(decision)))
    case ProcessRestarts =>
      s.(store := Do(PlanMutation, s.store, Restart), delivers := map[], resolves := map[], active := {})
    case PowerFails(kept) =>
      if kept in s.store.disk.possible then
        s.(store := Do(PlanMutation, s.store, PowerLoss(kept)), delivers := map[], resolves := map[], active := {})
      else s
    case DeliverCalled(call, decisionId, decisionHash) =>
      if call in s.delivers then s
      else s.(delivers := s.delivers[call := Resolving(decisionId, decisionHash, s.store.disk.visible)])
    case ResolveCalled(call, request) =>
      if call in s.resolves || !WellFormed(request) then s
      else s.(resolves := s.resolves[call := Checking(request, s.store.disk.visible)])
    case ResolveSubmits(call, resolutionId, now) =>
      if call in s.resolves && s.resolves[call].Checking? then NextResolve(s, e, s.resolves[call]) else s
    case ResolveReturns(call) =>
      if call in s.resolves && s.resolves[call].AwaitingRecord? && s.resolves[call].ticket in s.store.answers then
        s.(resolves := s.resolves - {call})
      else s
    case _ =>
      if e.call in s.delivers then NextDeliver(s, e, s.delivers[e.call]) else s
  }

  function NextResolve(s: System, e: Event, c: ResolveCall): System
    requires e.ResolveSubmits? && c.Checking?
  {
    if Check(c.snapshot, s.active, c.request).Some? || e.resolutionId in s.used then
      s.(resolves := s.resolves - {e.call})
    else
      var r := Build(c.request, e.resolutionId, e.now);
      s.(store := Submitted(s.store, Resolve(r)), used := s.used + {e.resolutionId},
         resolves := s.resolves[e.call := AwaitingRecord(s.store.tickets)])
  }

  function NextDeliver(s: System, e: Event, c: DeliverCall): System
    requires !e.StoreAdvances? && !e.AppendCalled? && !e.ProcessRestarts? && !e.PowerFails?
  {
    match (c, e)
    case (Resolving(decisionId, decisionHash, seen), DeliverResolved(call)) =>
      var attempt := MayAttempt(seen, decisionId, decisionHash);
      if attempt.None? then s.(delivers := s.delivers - {call})
      else s.(delivers := s.delivers[call := Prepared(decisionId, decisionHash, attempt.value)])
    case (Prepared(_, _, _), DeliverAborted(call)) =>
      s.(delivers := s.delivers - {call})
    case (Prepared(_, _, _), DeliverSubmits(call, deliveryId, _, _, _, _)) =>
      if !SubmitAllowed(s, c, e) then s
      else
        s.(store := Submitted(s.store, Begin(Intent(c, e))), used := s.used + {deliveryId},
           delivers := s.delivers[call := AwaitingIntent(s.store.tickets, Intent(c, e))])
    case (AwaitingIntent(ticket, delivery), DeliverInvokes(call)) =>
      if ticket !in s.store.answers then s
      else if !s.store.answers[ticket].Recorded? then s.(delivers := s.delivers - {call})
      else
        s.(delivers := s.delivers[call := Invoking(delivery)],
           active := s.active + {delivery.body.deliveryId}, invoked := s.invoked + [delivery])
    case (Invoking(delivery), DeliverReports(call, outcome)) =>
      s.(store := Submitted(s.store, Finish(delivery.body.deliveryId, outcome)),
         delivers := s.delivers[call := AwaitingOutcome(s.store.tickets, delivery)])
    case (AwaitingOutcome(ticket, delivery), DeliverReturns(call)) =>
      if ticket !in s.store.answers then s
      else s.(delivers := s.delivers - {call}, active := s.active - {delivery.body.deliveryId})
    case _ => s
  }

  function Run(s: System, events: seq<Event>): System
    decreases |events|
  {
    if events == [] then s else Run(Next(s, events[0]), events[1..])
  }

  // ---------------------------------------------------------------- invariant

  predicate Holding(c: DeliverCall) {
    c.AwaitingIntent? || c.Invoking? || c.AwaitingOutcome?
  }

  ghost predicate Stored(d: Document, delivery: Delivery) {
    exists x | x in d.deliveries ::
      x.body.deliveryId == delivery.body.deliveryId && x.body.decisionId == delivery.body.decisionId
  }

  /** Every intent in flight is tracked by its ticket; every snapshot was once an accepted document. */
  ghost predicate CallsInv(s: System) {
    && (forall call | call in s.delivers && s.delivers[call].AwaitingIntent? ::
          Tracks(s.store, s.delivers[call].ticket, Begin(s.delivers[call].delivery)))
    && (forall call | call in s.resolves && s.resolves[call].Checking? ::
          DocumentInv(s.resolves[call].snapshot))
  }

  ghost predicate IdsInv(s: System) {
    && (forall call | call in s.delivers && Holding(s.delivers[call]) ::
          s.delivers[call].delivery.body.deliveryId in s.used)
    && (forall a, b | a in s.delivers && b in s.delivers && a != b && Holding(s.delivers[a]) && Holding(s.delivers[b]) ::
          s.delivers[a].delivery.body.deliveryId != s.delivers[b].delivery.body.deliveryId)
    && (forall i | 0 <= i < |s.invoked| :: s.invoked[i].body.deliveryId in s.used)
    && (forall call, i | call in s.delivers && s.delivers[call].AwaitingIntent? && 0 <= i < |s.invoked| ::
          s.delivers[call].delivery.body.deliveryId != s.invoked[i].body.deliveryId)
    && (forall i, j | 0 <= i < j < |s.invoked| ::
          s.invoked[i].body.deliveryId != s.invoked[j].body.deliveryId)
  }

  ghost predicate InvokedInv(s: System) {
    forall i, d | 0 <= i < |s.invoked| && d in s.store.disk.possible :: Stored(d, s.invoked[i])
  }

  predicate InEffect(c: DeliverCall) {
    c.Invoking? || c.AwaitingOutcome?
  }

  /** The active set is exactly the attempts between their recorded intent and their answered outcome. */
  ghost predicate ActiveInv(s: System) {
    s.active == ActiveIds(s.delivers)
  }

  ghost function ActiveIds(delivers: map<nat, DeliverCall>): set<string> {
    set call | call in delivers && InEffect(delivers[call]) :: delivers[call].delivery.body.deliveryId
  }

  lemma SameActive(a: map<nat, DeliverCall>, b: map<nat, DeliverCall>)
    requires forall c | c in a && InEffect(a[c]) :: c in b && InEffect(b[c]) && b[c].delivery == a[c].delivery
    requires forall c | c in b && InEffect(b[c]) :: c in a && InEffect(a[c]) && b[c].delivery == a[c].delivery
    ensures ActiveIds(a) == ActiveIds(b)
  {
    forall id | id in ActiveIds(a) ensures id in ActiveIds(b) {
      var c :| c in a && InEffect(a[c]) && a[c].delivery.body.deliveryId == id;
      assert c in b && InEffect(b[c]);
    }
    forall id | id in ActiveIds(b) ensures id in ActiveIds(a) {
      var c :| c in b && InEffect(b[c]) && b[c].delivery.body.deliveryId == id;
      assert c in a && InEffect(a[c]);
    }
  }

  ghost predicate SystemInv(s: System) {
    StoreInv(s.store) && CallsInv(s) && LocalInv(s) && InvokedInv(s)
  }

  lemma StoredOn(a: Document, b: Document, delivery: Delivery)
    requires Stored(a, delivery) && Extends(a, b)
    ensures Stored(b, delivery)
  {
    var i :| 0 <= i < |a.deliveries|
             && a.deliveries[i].body.deliveryId == delivery.body.deliveryId
             && a.deliveries[i].body.decisionId == delivery.body.decisionId;
    assert Evolves(a.deliveries[i], b.deliveries[i]) && b.deliveries[i] in b.deliveries;
  }

  lemma InvokedAdvance(s: System, step: Step<Document, Mutation>)
    requires StoreInv(s.store) && InvokedInv(s)
    ensures InvokedInv(s.(store := Do(PlanMutation, s.store, step)))
  {
    var store' := Do(PlanMutation, s.store, step);
    forall i, d | 0 <= i < |s.invoked| && d in store'.disk.possible ensures Stored(d, s.invoked[i]) {
      var before := s.store.disk.visible;
      assert before in s.store.disk.possible && Stored(before, s.invoked[i]);
      DoPossible(PlanMutation, s.store, step, d);
      if d !in s.store.disk.possible {
        WriteExtends(s.store.queue[0], before, d);
        StoredOn(before, d, s.invoked[i]);
      }
    }
  }

  /** An intent answered "recorded" is in every document a crash could leave before its target is invoked. */
  lemma RecordedIntentIsStored(s: System, call: nat, d: Document)
    requires StoreInv(s.store) && CallsInv(s)
    requires call in s.delivers && s.delivers[call].AwaitingIntent?
    requires s.delivers[call].ticket in s.store.answers && s.store.answers[s.delivers[call].ticket].Recorded?
    requires d in s.store.disk.possible
    ensures Stored(d, s.delivers[call].delivery)
  {
    RecordedIsDurable(s.store, s.delivers[call].ticket, d);
    var x :| x in d.deliveries && Evolves(s.delivers[call].delivery, x);
  }

  // ---------------------------------------------------------------- identifiers and active attempts

  ghost predicate LocalInv(s: System) {
    IdsInv(s) && ActiveInv(s)
  }

  lemma QuietLocal(s: System, s': System)
    requires LocalInv(s) && s'.delivers == s.delivers && s'.active == s.active && s'.invoked == s.invoked
    requires s.used <= s'.used
    ensures LocalInv(s')
  {
  }

  lemma ClearedLocal(s: System, s': System)
    requires LocalInv(s) && s'.delivers == map[] && s'.active == {} && s'.invoked == s.invoked && s'.used == s.used
    ensures LocalInv(s')
  {
  }

  lemma IdleLocal(s: System, s': System, call: nat)
    requires LocalInv(s) && s'.active == s.active && s'.invoked == s.invoked && s'.used == s.used
    requires s'.delivers - {call} == s.delivers - {call}
    requires call in s.delivers ==> !InEffect(s.delivers[call])
    requires call in s'.delivers ==> !Holding(s'.delivers[call])
    ensures LocalInv(s')
  {
    forall c | c != call ensures (c in s.delivers <==> c in s'.delivers) && (c in s.delivers ==> s'.delivers[c] == s.delivers[c]) {
      assert c in s.delivers <==> c in s.delivers - {call};
      assert c in s'.delivers <==> c in s'.delivers - {call};
    }
    SameActive(s.delivers, s'.delivers);
  }

  lemma EntersLocal(s: System, s': System, call: nat, ticket: nat, delivery: Delivery)
    requires LocalInv(s) && call in s.delivers && s.delivers[call].Prepared?
    requires delivery.body.deliveryId !in s.used
    requires s'.delivers == s.delivers[call := AwaitingIntent(ticket, delivery)]
    requires s'.active == s.active && s'.invoked == s.invoked && s'.used == s.used + {delivery.body.deliveryId}
    ensures LocalInv(s')
  {
    SameActive(s.delivers, s'.delivers);
  }

  lemma InvokesActive(delivers: map<nat, DeliverCall>, call: nat, delivery: Delivery)
    requires call in delivers && delivers[call].AwaitingIntent?
    ensures ActiveIds(delivers[call := Invoking(delivery)]) == ActiveIds(delivers) + {delivery.body.deliveryId}
  {
    var after := delivers[call := Invoking(delivery)];
    forall x | x in ActiveIds(delivers) ensures x in ActiveIds(after) {
      var c :| c in delivers && InEffect(delivers[c]) && delivers[c].delivery.body.deliveryId == x;
      assert c in after && after[c] == delivers[c];
    }
    assert call in after && InEffect(after[call]);
  }

  lemma InvokesLocal(s: System, s': System, call: nat)
    requires LocalInv(s) && call in s.delivers && s.delivers[call].AwaitingIntent?
    requires s'.delivers == s.delivers[call := Invoking(s.delivers[call].delivery)]
    requires s'.active == s.active + {s.delivers[call].delivery.body.deliveryId}
    requires s'.invoked == s.invoked + [s.delivers[call].delivery] && s'.used == s.used
    ensures LocalInv(s')
  {
    InvokesActive(s.delivers, call, s.delivers[call].delivery);
  }

  lemma ReportsLocal(s: System, s': System, call: nat, ticket: nat)
    requires LocalInv(s) && call in s.delivers && s.delivers[call].Invoking?
    requires s'.delivers == s.delivers[call := AwaitingOutcome(ticket, s.delivers[call].delivery)]
    requires s'.active == s.active && s'.invoked == s.invoked && s'.used == s.used
    ensures LocalInv(s')
  {
    SameActive(s.delivers, s'.delivers);
  }

  lemma ReturnsLocal(s: System, s': System, call: nat)
    requires LocalInv(s) && call in s.delivers && InEffect(s.delivers[call])
    requires s'.delivers == s.delivers - {call}
    requires s'.active == s.active - {s.delivers[call].delivery.body.deliveryId}
    requires s'.invoked == s.invoked && s'.used == s.used
    ensures LocalInv(s')
  {
    var now := ActiveIds(s'.delivers);
    forall x | x in s'.active ensures x in now {
      var c :| c in s.delivers && InEffect(s.delivers[c]) && s.delivers[c].delivery.body.deliveryId == x;
      assert c in s'.delivers && s'.delivers[c] == s.delivers[c];
    }
    assert s'.active == now;
  }

  predicate IsDeliverStep(e: Event) {
    || e.DeliverResolved? || e.DeliverAborted? || e.DeliverSubmits? || e.DeliverInvokes? || e.DeliverReports?
    || e.DeliverReturns?
  }

  lemma StopKeepsLocal(s: System, e: Event)
    requires LocalInv(s) && (e.ProcessRestarts? || e.PowerFails?)
    ensures LocalInv(Next(s, e))
  {
    if Next(s, e) != s {
      ClearedLocal(s, Next(s, e));
    }
  }

  lemma OthersKeepLocal(s: System, e: Event)
    requires LocalInv(s) && (e.StoreAdvances? || e.AppendCalled? || e.ResolveCalled? || e.ResolveSubmits? || e.ResolveReturns?)
    ensures LocalInv(Next(s, e))
  {
    QuietLocal(s, Next(s, e));
  }

  lemma CallKeepsLocal(s: System, e: Event)
    requires LocalInv(s) && e.DeliverCalled?
    ensures LocalInv(Next(s, e))
  {
    if e.call !in s.delivers {
      IdleLocal(s, Next(s, e), e.call);
    }
  }

  lemma NextKeepsLocal(s: System, e: Event)
    requires LocalInv(s)
    ensures LocalInv(Next(s, e))
  {
    if e.ProcessRestarts? || e.PowerFails? {
      StopKeepsLocal(s, e);
    } else if e.DeliverCalled? {
      CallKeepsLocal(s, e);
    } else if IsDeliverStep(e) {
      if e.call in s.delivers {
        DeliverKeepsLocal(s, e, s.delivers[e.call]);
      }
    } else {
      OthersKeepLocal(s, e);
    }
  }

  lemma DeliverKeepsLocal(s: System, e: Event, c: DeliverCall)
    requires LocalInv(s) && IsDeliverStep(e)
    requires e.call in s.delivers && s.delivers[e.call] == c
    ensures LocalInv(NextDeliver(s, e, c))
  {
    if c.AwaitingIntent? {
      AwaitingKeepsLocal(s, e, c);
    } else if InEffect(c) {
      EffectKeepsLocal(s, e, c);
    } else {
      EarlyKeepsLocal(s, e, c);
    }
  }

  lemma AwaitingKeepsLocal(s: System, e: Event, c: DeliverCall)
    requires LocalInv(s) && IsDeliverStep(e) && c.AwaitingIntent?
    requires e.call in s.delivers && s.delivers[e.call] == c
    ensures LocalInv(NextDeliver(s, e, c))
  {
    if e.DeliverInvokes? && c.ticket in s.store.answers {
      if s.store.answers[c.ticket].Recorded? {
        InvokesLocal(s, NextDeliver(s, e, c), e.call);
      } else {
        IdleLocal(s, NextDeliver(s, e, c), e.call);
      }
    }
  }

  lemma EarlyKeepsLocal(s: System, e: Event, c: DeliverCall)
    requires LocalInv(s) && IsDeliverStep(e) && !Holding(c)
    requires e.call in s.delivers && s.delivers[e.call] == c
    ensures LocalInv(NextDeliver(s, e, c))
  {
    if e.DeliverSubmits? {
      if c.Prepared? && SubmitAllowed(s, c, e) {
        EntersLocal(s, NextDeliver(s, e, c), e.call, s.store.tickets, Intent(c, e));
      }
    } else {
      IdleLocal(s, NextDeliver(s, e, c), e.call);
    }
  }

  lemma EffectKeepsLocal(s: System, e: Event, c: DeliverCall)
    requires LocalInv(s) && IsDeliverStep(e) && InEffect(c)
    requires e.call in s.delivers && s.delivers[e.call] == c
    ensures LocalInv(NextDeliver(s, e, c))
  {
    if c.Invoking? && e.DeliverReports? {
      ReportsLocal(s, NextDeliver(s, e, c), e.call, s.store.tickets);
    } else if c.AwaitingOutcome? && e.DeliverReturns? && c.ticket in s.store.answers {
      ReturnsLocal(s, NextDeliver(s, e, c), e.call);
    }
  }

  // ---------------------------------------------------------------- the store and what was invoked

  /** The store step an event performs, if any. */
  function StoreStep(s: System, e: Event): Option<Step<Document, Mutation>> {
    match e
    case StoreAdvances(step) => if step.Submit? || step.Restart? || step.PowerLoss? then None else Some(step)
    case AppendCalled(decision) => Some(Submit(Append(decision)))
    case ProcessRestarts => Some(Restart)
    case PowerFails(kept) => if kept in s.store.disk.possible then Some(PowerLoss(kept)) else None
    case ResolveSubmits(call, resolutionId, now) =>
      if call in s.resolves && s.resolves[call].Checking?
         && Check(s.resolves[call].snapshot, s.active, s.resolves[call].request).None? && resolutionId !in s.used then
        Some(Submit(Resolve(Build(s.resolves[call].request, resolutionId, now))))
      else None
    case DeliverSubmits(call, _, _, _, _, _) =>
      if call in s.delivers && s.delivers[call].Prepared? && SubmitAllowed(s, s.delivers[call], e) then
        Some(Submit(Begin(Intent(s.delivers[call], e))))
      else None
    case DeliverReports(call, outcome) =>
      if call in s.delivers && s.delivers[call].Invoking? then
        Some(Submit(Finish(s.delivers[call].delivery.body.deliveryId, outcome)))
      else None
    case _ => None
  }

  lemma NextStore(s: System, e: Event)
    ensures Next(s, e).store
         == if StoreStep(s, e).None? then s.store else Do(PlanMutation, s.store, StoreStep(s, e).value)
  {
  }

  lemma NextKeepsStore(s: System, e: Event)
    requires StoreInv(s.store) && CallsInv(s)
    ensures StoreInv(Next(s, e).store)
  {
    NextStore(s, e);
    if StoreStep(s, e).Some? {
      if e.ResolveSubmits? {
        var c := s.resolves[e.call];
        CheckedBindsUndelivered(c.snapshot, s.active, c.request, e.resolutionId, e.now);
      }
      StoreStepKeepsInv(s.store, StoreStep(s, e).value);
    }
  }

  /** An intent being awaited was awaited before, and nothing stopped, or is submitted now. */
  lemma NextAwaiting(s: System, e: Event, call: nat)
    requires call in Next(s, e).delivers && Next(s, e).delivers[call].AwaitingIntent?
    ensures var c, step := Next(s, e).delivers[call], StoreStep(s, e);
            || (&& call in s.delivers && s.delivers[call] == c
                && (step.Some? ==> !step.value.Restart? && !step.value.PowerLoss?))
            || (step == Some(Submit(Begin(c.delivery))) && c.ticket == s.store.tickets)
  {
  }

  lemma TracksAfter(store: Store, step: Step<Document, Mutation>, ticket: nat, op: Mutation)
    requires Inv(PlanMutation, store)
    requires || (Tracks(store, ticket, op) && !step.Restart? && !step.PowerLoss?)
             || (step == Submit(op) && ticket == store.tickets)
    ensures Tracks(Do(PlanMutation, store, step), ticket, op)
  {
    if step == Submit(op) && ticket == store.tickets {
      TracksSubmitted(PlanMutation, store, op);
    } else {
      TracksAdvance(PlanMutation, store, step, ticket, op);
    }
  }

  lemma NextKeepsTracks(s: System, e: Event, call: nat)
    requires Inv(PlanMutation, s.store) && CallsInv(s)
    requires call in Next(s, e).delivers && Next(s, e).delivers[call].AwaitingIntent?
    ensures Tracks(Next(s, e).store, Next(s, e).delivers[call].ticket, Begin(Next(s, e).delivers[call].delivery))
  {
    var c := Next(s, e).delivers[call];
    NextStore(s, e);
    NextAwaiting(s, e, call);
    if StoreStep(s, e).Some? {
      TracksAfter(s.store, StoreStep(s, e).value, c.ticket, Begin(c.delivery));
    }
  }

  lemma NextKeepsCalls(s: System, e: Event)
    requires StoreInv(s.store) && CallsInv(s)
    ensures CallsInv(Next(s, e))
  {
    var s' := Next(s, e);
    forall call | call in s'.delivers && s'.delivers[call].AwaitingIntent?
      ensures Tracks(s'.store, s'.delivers[call].ticket, Begin(s'.delivers[call].delivery))
    {
      NextKeepsTracks(s, e, call);
    }
    forall call | call in s'.resolves && s'.resolves[call].Checking?
      ensures DocumentInv(s'.resolves[call].snapshot)
    {
      NextSnapshot(s, e, call);
      assert s.store.disk.visible in s.store.disk.possible;
    }
  }

  lemma NextSnapshot(s: System, e: Event, call: nat)
    requires call in Next(s, e).resolves && Next(s, e).resolves[call].Checking?
    ensures (call in s.resolves && s.resolves[call] == Next(s, e).resolves[call])
         || Next(s, e).resolves[call].snapshot == s.store.disk.visible
  {
  }

  lemma NextInvoked(s: System, e: Event)
    ensures var s' := Next(s, e);
            s'.invoked == s.invoked
            || (&& e.DeliverInvokes? && e.call in s.delivers && s.delivers[e.call].AwaitingIntent?
                && s.delivers[e.call].ticket in s.store.answers
                && s.store.answers[s.delivers[e.call].ticket].Recorded?
                && s'.invoked == s.invoked + [s.delivers[e.call].delivery] && s'.store == s.store)
  {
  }

  lemma NextKeepsInvoked(s: System, e: Event)
    requires StoreInv(s.store) && CallsInv(s) && InvokedInv(s)
    ensures InvokedInv(Next(s, e))
  {
    var s' := Next(s, e);
    NextInvoked(s, e);
    if s'.invoked == s.invoked {
      NextStore(s, e);
      if StoreStep(s, e).Some? {
        InvokedAdvance(s, StoreStep(s, e).value);
      }
    } else {
      forall i, d | 0 <= i < |s'.invoked| && d in s'.store.disk.possible ensures Stored(d, s'.invoked[i]) {
        if i == |s.invoked| {
          RecordedIntentIsStored(s, e.call, d);
        } else {
          assert Stored(d, s.invoked[i]);
        }
      }
    }
  }

  lemma NextKeepsInv(s: System, e: Event)
    requires SystemInv(s)
    ensures SystemInv(Next(s, e))
  {
    NextKeepsStore(s, e);
    NextKeepsCalls(s, e);
    NextKeepsLocal(s, e);
    NextKeepsInvoked(s, e);
  }

  lemma {:induction false} ProtocolInvariant(s: System, events: seq<Event>)
    requires SystemInv(s)
    ensures SystemInv(Run(s, events))
    decreases |events|
  {
    if events != [] {
      NextKeepsInv(s, events[0]);
      ProtocolInvariant(Next(s, events[0]), events[1..]);
    }
  }
}
