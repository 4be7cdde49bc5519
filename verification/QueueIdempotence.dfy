/** Submitting a mutation again after it was recorded, and competing decisions for one item. */
module QueueIdempotence {
  import opened Options
  import opened SerialStore
  import opened QueueRecords
  import opened QueueMutations
  import opened QueueHistory
  import opened QueueProtocol
  import opened QueueSafety

  lemma {:induction false} FirstDeliveryIsAt(deliveries: seq<Delivery>, deliveryId: string, i: nat)
    requires i < |deliveries| && deliveries[i].body.deliveryId == deliveryId
    requires forall j | 0 <= j < i :: deliveries[j].body.deliveryId != deliveryId
    ensures FirstDelivery(deliveries, deliveryId) == i
  {
    if i != 0 {
      FirstDeliveryIsAt(deliveries[1..], deliveryId, i - 1);
    }
  }

  lemma OnlyDecisionWithKey(d: Document, decision: Decision)
    requires DocumentInv(d) && decision in d.decisions
    ensures var key := KeyOf(decision.body.source);
            && (exists i | 0 <= i < |d.decisions| :: KeyOf(d.decisions[i].body.source) == key)
            && d.decisions[FirstWithKey(d.decisions, key)] == decision
  {
    var i :| 0 <= i < |d.decisions| && d.decisions[i] == decision;
    var j := FirstWithKey(d.decisions, KeyOf(decision.body.source));
    assert !(i < j) && !(j < i);
  }

  /** A decision is final: later appends for its item are accepted as a repetition or refused, nothing else. */
  lemma DecisionIsFinal(d: Document, decision: Decision, other: Decision)
    requires DocumentInv(d) && decision in d.decisions && ValidDecision(other)
    requires KeyOf(other.body.source) == KeyOf(decision.body.source)
    ensures PlanMutation(Append(other), d)
         == if other.body.payload == decision.body.payload then Existing else Refuse(AlreadyDecided)
  {
    OnlyDecisionWithKey(d, decision);
  }

  lemma AppendAgain(decision: Decision, a: Document, d: Document)
    requires PlanAppend(a, decision).Write? && Extends(PlanAppend(a, decision).next, d) && DocumentInv(d)
    ensures PlanUnchecked(Append(decision), d) == Existing
  {
    var n := PlanAppend(a, decision).next;
    assert n.decisions[|a.decisions|] == d.decisions[|a.decisions|] == decision;
    OnlyDecisionWithKey(d, decision);
  }

  lemma BeginAgain(delivery: Delivery, a: Document, d: Document)
    requires PlanBegin(a, delivery).Write? && Extends(PlanBegin(a, delivery).next, d)
    ensures PlanUnchecked(Begin(delivery), d) == Existing
  {
    var n, i := PlanBegin(a, delivery).next, |a.deliveries|;
    assert Evolves(n.deliveries[i], d.deliveries[i]) && n.deliveries[i] == delivery;
    var x := d.deliveries[i];
    assert x in Attempts(d.deliveries, delivery.body.decisionId);
  }

  lemma FinishAgain(deliveryId: string, outcome: Outcome, a: Document, d: Document)
    requires PlanFinish(a, deliveryId, outcome).Write? && Extends(PlanFinish(a, deliveryId, outcome).next, d)
    ensures PlanUnchecked(Finish(deliveryId, outcome), d) == Existing
  {
    var n, i := PlanFinish(a, deliveryId, outcome).next, FirstDelivery(a.deliveries, deliveryId);
    forall j | 0 <= j <= i ensures d.deliveries[j].body.deliveryId == a.deliveries[j].body.deliveryId {
      assert Evolves(n.deliveries[j], d.deliveries[j]);
    }
    FirstDeliveryIsAt(d.deliveries, deliveryId, i);
  }

  lemma {:induction false} FirstWithActionIsAt(resolutions: seq<Resolution>, r: ResolutionBody, i: nat)
    requires i < |resolutions| && SameAction(resolutions[i].body, r)
    requires forall j | 0 <= j < i :: !SameAction(resolutions[j].body, r)
    ensures FirstWithAction(resolutions, r) == i
  {
    if i != 0 {
      FirstWithActionIsAt(resolutions[1..], r, i - 1);
    }
  }

  lemma ResolveAgain(r: Resolution, a: Document, d: Document)
    requires PlanResolve(a, r).Write? && Extends(PlanResolve(a, r).next, d)
    ensures PlanUnchecked(Resolve(r), d) == Existing
  {
    var n, i := PlanResolve(a, r).next, |a.resolutions|;
    forall j | 0 <= j <= i ensures d.resolutions[j] == n.resolutions[j] {
    }
    assert forall j | 0 <= j < i :: d.resolutions[j] == a.resolutions[j];
    FirstWithActionIsAt(d.resolutions, r.body, i);
  }

  /** In every document that descends from the one a mutation made, that mutation is already there. */
  lemma MutationAgain(m: Mutation, a: Document, n: Document, d: Document)
    requires PlanMutation(m, a) == Write(n) && Extends(n, d) && DocumentInv(d)
    ensures PlanMutation(m, d) == Existing
  {
    match m {
      case Append(decision) => AppendAgain(decision, a, d);
      case Begin(delivery) => BeginAgain(delivery, a, d);
      case Finish(deliveryId, outcome) => FinishAgain(deliveryId, outcome, a, d);
      case Resolve(r) => ResolveAgain(r, a, d);
    }
  }

  // ---------------------------------------------------------------- along runs

  /** A mutation under way, or answered "recorded", was planned as a write. */
  ghost predicate Planned<D(!new), Op(!new)>(plan: (Op, D) -> Plan<D>, m: Op, n: D) {
    exists a :: plan(m, a) == Write(n)
  }

  ghost predicate PlannedInv<D(!new), Op(!new)>(plan: (Op, D) -> Plan<D>, s: State<D, Op>) {
    && (s.phase != Idle ==> s.queue != [] && Planned(plan, s.queue[0], s.phase.next))
    && (forall t | t in s.answers && s.answers[t].Recorded? :: Planned(plan, s.answers[t].op, s.answers[t].doc))
  }

  lemma StepKeepsPlanned<D(!new), Op(!new)>(plan: (Op, D) -> Plan<D>, s: State<D, Op>, step: Step<D, Op>)
    requires Inv(plan, s) && PlannedInv(plan, s)
    ensures PlannedInv(plan, Do(plan, s, step))
  {
    if s.phase == Idle && step.Inspect? && s.queue != [] {
      var m := s.queue[0];
      if plan(m, s.disk.visible).Write? {
        assert Planned(plan, m, plan(m, s.disk.visible).next);
      }
    }
  }

  lemma {:induction false} RunKeepsPlanned(s: System, events: seq<Event>)
    requires SystemInv(s) && PlannedInv(PlanMutation, s.store)
    ensures PlannedInv(PlanMutation, Run(s, events).store)
    decreases |events|
  {
    if events != [] {
      var e := events[0];
      NextStore(s, e);
      if StoreStep(s, e).Some? {
        StepKeepsPlanned(PlanMutation, s.store, StoreStep(s, e).value);
      }
      NextKeepsInv(s, e);
      RunKeepsPlanned(Next(s, e), events[1..]);
    }
  }

  /** The inputs of a repetition do not matter: the disk stays as it is and nothing is recorded twice. */
  lemma ExistingChangesNothing(disk: Disk<Document>, m: Mutation, io: Io)
    requires PlanMutation(m, disk.visible) == Existing
    ensures var (after, answer) := RunOnce(PlanMutation, disk, m, io);
            after == disk && answer == if io.inspected then Already(m, disk.visible) else Failed(m, InvalidState)
  {
  }

  /**
  Submitting a mutation again after it was answered "recorded", at any later time and after any crashes, is
  answered "already" with the document then visible and changes nothing on disk.
  */
  lemma RepetitionIsIdempotent(doc: Document, before: seq<Event>, after: seq<Event>, t: nat, io: Io)
    requires StartsFrom(doc)
    requires var s := Run(Start(doc), before); t in s.store.answers && s.store.answers[t].Recorded?
    ensures var m, disk := Run(Start(doc), before).store.answers[t].op, Run(Run(Start(doc), before), after).store.disk;
            var (afterwards, answer) := RunOnce(PlanMutation, disk, m, io);
            afterwards == disk && answer == if io.inspected then Already(m, disk.visible) else Failed(m, InvalidState)
  {
    var s := Run(Start(doc), before);
    var m, n := s.store.answers[t].op, s.store.answers[t].doc;
    StartInv(doc);
    ProtocolInvariant(Start(doc), before);
    RunKeepsPlanned(Start(doc), before);
    ProtocolInvariant(s, after);
    var d := Run(s, after).store.disk.visible;
    LaterVisible(doc, before, after, t);
    assert Planned(PlanMutation, m, n);
    var a :| PlanMutation(m, a) == Write(n);
    MutationAgain(m, a, n, d);
    ExistingChangesNothing(Run(s, after).store.disk, m, io);
  }

  lemma LaterVisible(doc: Document, before: seq<Event>, after: seq<Event>, t: nat)
    requires StartsFrom(doc)
    requires var s := Run(Start(doc), before); t in s.store.answers && s.store.answers[t].Recorded?
    ensures var d := Run(Run(Start(doc), before), after).store.disk.visible;
            Extends(Run(Start(doc), before).store.answers[t].doc, d) && DocumentInv(d)
  {
    StartInv(doc);
    ProtocolInvariant(Start(doc), before);
    var s := Run(Start(doc), before);
    ProtocolInvariant(s, after);
    var d := Run(s, after).store.disk.visible;
    assert d in Run(s, after).store.disk.possible;
    RecordedSurvives(doc, before, after, t, d);
  }
}
