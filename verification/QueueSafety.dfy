/** What holds along every run of the delivery protocol, from any document the store accepts. */
module QueueSafety {
  import opened Options
  import opened SerialStore
  import opened QueueRecords
  import opened QueueMutations
  import opened QueueHistory
  import opened QueueReconciliation
  import opened QueueProtocol

  ghost predicate StartsFrom(doc: Document) {
    doc == EMPTY || (SchemaOk(doc) && DocumentInv(doc))
  }

  /** Any document that inspection accepts, with one decision per source item, is a possible start. */
  lemma AcceptedDocumentStarts(doc: Document)
    requires SchemaDeliveries(doc) && SchemaReferences(doc)
    requires forall x | x in doc.deliveries :: ValidDelivery(x)
    requires forall i, j | 0 <= i < j < |doc.decisions| ::
               KeyOf(doc.decisions[i].body.source) != KeyOf(doc.decisions[j].body.source)
    ensures DocumentInv(doc)
  {
    forall r | r in doc.resolutions ensures BindsUndelivered(r.body) {
      assert SchemaReference(doc, r.body);
      if r.body.delivery.Some? {
        var x := doc.deliveries[FirstDelivery(doc.deliveries, r.body.delivery.value.deliveryId)];
        assert x in doc.deliveries;
      }
    }
    forall decisionId ensures AttemptsBounded(doc, decisionId) {
      var attempts := Attempts(doc.deliveries, decisionId);
      if |attempts| > 0 {
        assert attempts[0] in doc.deliveries && attempts[0].body.decisionId == decisionId;
        assert SchemaAttempts(doc, decisionId);
        if |attempts| == 2 {
          var r :| r in doc.resolutions && Unlocks(r, attempts[0]);
          assert Confirmed(doc, attempts[0]);
        }
      }
    }
  }

  lemma StartInv(doc: Document)
    requires StartsFrom(doc)
    ensures SystemInv(Start(doc))
  {
    FreshInv<Document, Mutation>(PlanMutation, doc);
  }

  // ---------------------------------------------------------------- invocations

  ghost predicate DistinctIds(deliveries: seq<Delivery>) {
    forall i, j | 0 <= i < j < |deliveries| :: deliveries[i].body.deliveryId != deliveries[j].body.deliveryId
  }

  lemma {:induction false} AttemptsDistinct(invoked: seq<Delivery>, decisionId: string)
    requires DistinctIds(invoked)
    ensures DistinctIds(Attempts(invoked, decisionId))
    decreases |invoked|
  {
    if invoked != [] {
      var n := |invoked| - 1;
      AttemptsDistinct(invoked[..n], decisionId);
      var rest := Attempts(invoked[..n], decisionId);
      forall x | x in rest ensures x.body.deliveryId != invoked[n].body.deliveryId {
        var k :| 0 <= k < n && invoked[k] == x;
      }
      assert Attempts(invoked, decisionId)
          == rest + if invoked[n].body.decisionId == decisionId then [invoked[n]] else [];
    }
  }

  ghost predicate IdAmong(stored: seq<Delivery>, x: Delivery) {
    exists i | 0 <= i < |stored| :: stored[i].body.deliveryId == x.body.deliveryId
  }

  lemma AtMostTwo(invoked: seq<Delivery>, stored: seq<Delivery>)
    requires |stored| <= 2 && DistinctIds(invoked)
    requires forall x | x in invoked :: IdAmong(stored, x)
    ensures |invoked| <= 2
  {
    if |invoked| > 2 {
      TwoOfThreeAgree(invoked[0], invoked[1], invoked[2], stored);
    }
  }

  lemma TwoOfThreeAgree(x: Delivery, y: Delivery, z: Delivery, stored: seq<Delivery>)
    requires |stored| <= 2 && IdAmong(stored, x) && IdAmong(stored, y) && IdAmong(stored, z)
    ensures x.body.deliveryId == y.body.deliveryId || y.body.deliveryId == z.body.deliveryId
         || x.body.deliveryId == z.body.deliveryId
  {
  }

  lemma InvokedIsAttempt(s: System, decisionId: string, d: Document, x: Delivery)
    requires InvokedInv(s) && d in s.store.disk.possible && x in Attempts(s.invoked, decisionId)
    ensures IdAmong(Attempts(d.deliveries, decisionId), x)
  {
    assert x in s.invoked;
    var k :| 0 <= k < |s.invoked| && s.invoked[k] == x;
    assert Stored(d, s.invoked[k]);
    var y :| y in d.deliveries && y.body.deliveryId == x.body.deliveryId && y.body.decisionId == x.body.decisionId;
    assert y in Attempts(d.deliveries, decisionId);
  }

  lemma InvokedAtMostTwice(s: System, decisionId: string, d: Document)
    requires InvokedInv(s) && DistinctIds(s.invoked) && d in s.store.disk.possible
    requires |Attempts(d.deliveries, decisionId)| <= 2
    ensures |Attempts(s.invoked, decisionId)| <= 2
  {
    AttemptsDistinct(s.invoked, decisionId);
    var mine := Attempts(s.invoked, decisionId);
    forall x | x in mine ensures IdAmong(Attempts(d.deliveries, decisionId), x) {
      InvokedIsAttempt(s, decisionId, d, x);
    }
    AtMostTwo(mine, Attempts(d.deliveries, decisionId));
  }

  /**
  In every interleaving, with crashes and restarts anywhere: an attempt is invoked at most once, it is by
  then in every document a crash could leave, and no decision is ever invoked more than twice.
  */
  lemma InvocationBound(doc: Document, events: seq<Event>, decisionId: string, d: Document)
    requires StartsFrom(doc)
    requires d in Run(Start(doc), events).store.disk.possible
    ensures var invoked := Run(Start(doc), events).invoked;
            && DistinctIds(invoked)
            && (forall i | 0 <= i < |invoked| :: Stored(d, invoked[i]))
            && |Attempts(d.deliveries, decisionId)| <= 2
            && |Attempts(invoked, decisionId)| <= 2
  {
    StartInv(doc);
    ProtocolInvariant(Start(doc), events);
    var s := Run(Start(doc), events);
    assert AttemptsBounded(d, decisionId);
    InvokedAtMostTwice(s, decisionId, d);
  }

  // ---------------------------------------------------------------- durability

  lemma DoKeepsAnswers(s: Store, step: Step<Document, Mutation>)
    requires Inv(PlanMutation, s)
    ensures forall t | t in s.answers ::
              t in Do(PlanMutation, s, step).answers && Do(PlanMutation, s, step).answers[t] == s.answers[t]
  {
  }

  lemma {:induction false} AnswersKept(s: System, events: seq<Event>, t: nat)
    requires SystemInv(s) && t in s.store.answers
    ensures t in Run(s, events).store.answers && Run(s, events).store.answers[t] == s.store.answers[t]
    decreases |events|
  {
    if events != [] {
      var e := events[0];
      NextStore(s, e);
      if StoreStep(s, e).Some? {
        DoKeepsAnswers(s.store, StoreStep(s, e).value);
      }
      NextKeepsInv(s, e);
      AnswersKept(Next(s, e), events[1..], t);
    }
  }

  /** A mutation answered "recorded" is in all later documents, whatever crashes come after. */
  lemma RecordedSurvives(doc: Document, before: seq<Event>, after: seq<Event>, t: nat, d: Document)
    requires StartsFrom(doc)
    requires var s := Run(Start(doc), before); t in s.store.answers && s.store.answers[t].Recorded?
    requires d in Run(Run(Start(doc), before), after).store.disk.possible
    ensures Holds(Run(Start(doc), before).store.answers[t].op, d)
    ensures Extends(Run(Start(doc), before).store.answers[t].doc, d)
  {
    var s := Run(Start(doc), before);
    StartInv(doc);
    ProtocolInvariant(Start(doc), before);
    ProtocolInvariant(s, after);
    AnswersKept(s, after, t);
    RecordedIsDurable(Run(s, after).store, t, d);
    DescendsExtends(s.store.answers[t].doc, d);
  }

  /** One accepted mutation, or a return to an ancestor that loses nothing answered "recorded". */
  ghost predicate VisibleMove(s: Store, after: Document, powerFails: bool) {
    var before := s.disk.visible;
    || after == before
    || (OneWrite(PlanMutation, before, after) && after.revision == before.revision + 1 && Extends(before, after))
    || (powerFails && Extends(after, before)
        && forall t | t in s.answers && s.answers[t].Recorded? :: Holds(s.answers[t].op, after))
  }

  lemma WriteMoves(s: Store, m: Mutation, after: Document)
    requires PlanMutation(m, s.disk.visible) == Write(after)
    ensures VisibleMove(s, after, false)
  {
    assert OneWrite(PlanMutation, s.disk.visible, after);
    OneWriteExtends(s.disk.visible, after);
  }

  lemma FailureMoves(s: Store, after: Document)
    requires StoreInv(s) && after in s.disk.possible
    ensures VisibleMove(s, after, true)
  {
    CrashOnlyUndoes(s, after);
  }

  lemma StepMoves(s: Store, step: Step<Document, Mutation>)
    requires StoreInv(s)
    ensures VisibleMove(s, Do(PlanMutation, s, step).disk.visible, step.PowerLoss?)
  {
    var after := Do(PlanMutation, s, step).disk.visible;
    DoVisible(PlanMutation, s, step);
    if after != s.disk.visible {
      if s.queue != [] && PlanMutation(s.queue[0], s.disk.visible) == Write(after) {
        WriteMoves(s, s.queue[0], after);
      } else {
        FailureMoves(s, after);
      }
    }
  }

  lemma OnlyPowerLoss(s: System, e: Event)
    requires StoreStep(s, e).Some? && StoreStep(s, e).value.PowerLoss?
    ensures e.PowerFails?
  {
  }

  /** The visible document changes only by one accepted mutation, or back to an ancestor when power fails. */
  lemma VisibleStep(s: System, e: Event)
    requires SystemInv(s)
    ensures VisibleMove(s.store, Next(s, e).store.disk.visible, e.PowerFails?)
  {
    NextStore(s, e);
    if StoreStep(s, e).Some? {
      StepMoves(s.store, StoreStep(s, e).value);
      if StoreStep(s, e).value.PowerLoss? {
        OnlyPowerLoss(s, e);
      }
    }
  }

  // ---------------------------------------------------------------- retries and delivered attempts

  ghost predicate SchemaInv(s: System) {
    forall d | d in s.store.disk.possible :: d == EMPTY || SchemaOk(d)
  }

  lemma WriteIsChecked(m: Mutation, d: Document, n: Document)
    requires PlanMutation(m, d) == Write(n)
    ensures SchemaOk(n)
  {
  }

  lemma StepKeepsSchema(s: Store, step: Step<Document, Mutation>, d: Document)
    requires Inv(PlanMutation, s)
    requires forall x | x in s.disk.possible :: x == EMPTY || SchemaOk(x)
    requires d in Do(PlanMutation, s, step).disk.possible
    ensures d == EMPTY || SchemaOk(d)
  {
    DoPossible(PlanMutation, s, step, d);
    if d !in s.disk.possible {
      WriteIsChecked(s.queue[0], s.disk.visible, d);
    }
  }

  lemma NextKeepsSchema(s: System, e: Event)
    requires SystemInv(s) && SchemaInv(s)
    ensures SchemaInv(Next(s, e))
  {
    NextStore(s, e);
    if StoreStep(s, e).Some? {
      forall d | d in Next(s, e).store.disk.possible ensures d == EMPTY || SchemaOk(d) {
        StepKeepsSchema(s.store, StoreStep(s, e).value, d);
      }
    }
  }

  lemma {:induction false} RunKeepsSchema(s: System, events: seq<Event>)
    requires SystemInv(s) && SchemaInv(s)
    ensures SystemInv(Run(s, events)) && SchemaInv(Run(s, events))
    decreases |events|
  {
    if events != [] {
      var e := events[0];
      NextKeepsSchema(s, e);
      NextKeepsInv(s, e);
      RunKeepsSchema(Next(s, e), events[1..]);
    }
  }

  /** In no document a run could ever leave does a decision carry a second attempt next to a delivered first one. */
  lemma NeverRetriedAfterDelivery(doc: Document, events: seq<Event>, decisionId: string, d: Document)
    requires StartsFrom(doc)
    requires d in Run(Start(doc), events).store.disk.possible
    requires |Attempts(d.deliveries, decisionId)| == 2
    ensures !IsDelivered(Attempts(d.deliveries, decisionId)[0].body)
  {
    StartInv(doc);
    RunKeepsSchema(Start(doc), events);
    NoRetryOverDelivered(d, decisionId);
  }
}
