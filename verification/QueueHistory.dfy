/** What every accepted mutation keeps, and how any later document relates to an earlier one. */
module QueueHistory {
  import opened Options
  import opened SerialStore
  import opened QueueRecords
  import opened QueueMutations

  // ---------------------------------------------------------------- growth

  /** A stored attempt only ever turns a null outcome into a fixed one. */
  predicate Evolves(a: Delivery, b: Delivery) {
    b == a || (a.body.outcome.None? && b.body.outcome.Some? && b == WithOutcome(a, b.body.outcome.value))
  }

  ghost predicate Extends(a: Document, b: Document) {
    && a.revision <= b.revision
    && (a.revision == b.revision ==> a == b)
    && a.decisions <= b.decisions
    && a.resolutions <= b.resolutions
    && |a.deliveries| <= |b.deliveries|
    && forall i | 0 <= i < |a.deliveries| :: Evolves(a.deliveries[i], b.deliveries[i])
  }

  lemma UncheckedExtends(m: Mutation, d: Document)
    requires PlanUnchecked(m, d).Write?
    ensures Extends(d, PlanUnchecked(m, d).next)
    ensures PlanUnchecked(m, d).next.revision == d.revision + 1
  {
  }

  lemma WriteExtends(m: Mutation, d: Document, n: Document)
    requires PlanMutation(m, d) == Write(n)
    ensures PlanUnchecked(m, d) == Write(n)
    ensures Extends(d, n) && n.revision == d.revision + 1
  {
    assert PlanUnchecked(m, d) == Write(n);
    UncheckedExtends(m, d);
  }

  lemma OneWriteExtends(d: Document, n: Document)
    requires OneWrite(PlanMutation, d, n)
    ensures Extends(d, n) && n.revision == d.revision + 1
  {
    var m :| PlanMutation(m, d) == Write(n);
    WriteExtends(m, d, n);
  }

  lemma ExtendsTransitive(a: Document, b: Document, c: Document)
    requires Extends(a, b) && Extends(b, c)
    ensures Extends(a, c)
  {
    forall i | 0 <= i < |a.deliveries| ensures Evolves(a.deliveries[i], c.deliveries[i]) {
      assert Evolves(a.deliveries[i], b.deliveries[i]) && Evolves(b.deliveries[i], c.deliveries[i]);
    }
  }

  lemma HistoryLast<D(!new), Op(!new)>(plan: (Op, D) -> Plan<D>, path: seq<D>, a: D, b: D)
    requires IsHistory(plan, path, a, b)
    ensures var n := |path| - 1;
            if n == 0 then a == b
            else 0 < n && OneWrite(plan, path[n - 1], b) && IsHistory(plan, path[..n], a, path[n - 1])
  {
  }

  lemma ExtendsRefl(a: Document)
    ensures Extends(a, a)
  {
  }

  /** Later documents only append records or fix a pending outcome, one revision per mutation. */
  lemma {:induction false} DescendantExtends(path: seq<Document>, a: Document, b: Document)
    requires IsHistory(PlanMutation, path, a, b)
    ensures Extends(a, b) && b.revision == a.revision + |path| - 1
    decreases |path|
  {
    var n := |path| - 1;
    HistoryLast(PlanMutation, path, a, b);
    if n == 0 {
      ExtendsRefl(a);
    } else {
      DescendantExtends(path[..n], a, path[n - 1]);
      OneWriteExtends(path[n - 1], b);
      ExtendsTransitive(a, path[n - 1], b);
    }
  }

  // ---------------------------------------------------------------- document invariant

  /** A confirmation binds the hash of an attempt that had no delivered outcome when it was hashed. */
  predicate BindsUndelivered(r: ResolutionBody) {
    r.action == ConfirmedNotDelivered && r.delivery.Some? ==>
      var h := r.delivery.value.deliveryHash;
      h.OfDelivery? && h.delivery.deliveryId == r.delivery.value.deliveryId && !IsDelivered(h.delivery)
  }

  ghost predicate Confirmed(d: Document, attempt: Delivery) {
    exists r | r in d.resolutions ::
      && r.body.decisionId == attempt.body.decisionId
      && r.body.action == ConfirmedNotDelivered
      && r.body.delivery.Some? && r.body.delivery.value.deliveryId == attempt.body.deliveryId
  }

  /** At most two attempts, the second only after the first was confirmed as not delivered. */
  ghost predicate AttemptsBounded(d: Document, decisionId: string) {
    var attempts := Attempts(d.deliveries, decisionId);
    |attempts| <= 2 && (|attempts| == 2 ==> Confirmed(d, attempts[0]))
  }

  predicate DistinctKeys(decisions: seq<Decision>) {
    forall i, j | 0 <= i < j < |decisions| :: KeyOf(decisions[i].body.source) != KeyOf(decisions[j].body.source)
  }

  predicate AllValid(deliveries: seq<Delivery>) {
    forall x | x in deliveries :: ValidDelivery(x)
  }

  predicate AllBind(resolutions: seq<Resolution>) {
    forall r | r in resolutions :: BindsUndelivered(r.body)
  }

  ghost predicate AllBounded(d: Document) {
    forall decisionId :: AttemptsBounded(d, decisionId)
  }

  ghost predicate DocumentInv(d: Document) {
    DistinctKeys(d.decisions) && AllValid(d.deliveries) && AllBind(d.resolutions) && AllBounded(d)
  }

  /** What the services put into a mutation before they submit it. */
  predicate WellSubmitted(m: Mutation) {
    match m
    case Append(_) => true
    case Begin(delivery) => delivery.body.outcome == None
    case Finish(_, _) => true
    case Resolve(r) => BindsUndelivered(r.body)
  }

  /** y is x, perhaps with an outcome that x had not; only the attempt named may differ. */
  predicate KeptBut(x: Delivery, y: Delivery, deliveryId: string) {
    && y.body == x.body.(outcome := y.body.outcome)
    && (x.body.deliveryId != deliveryId ==> y == x)
  }

  predicate AllKeptBut(before: seq<Delivery>, after: seq<Delivery>, deliveryId: string) {
    |after| == |before| && forall j | 0 <= j < |before| :: KeptBut(before[j], after[j], deliveryId)
  }

  lemma AttemptsLast(deliveries: seq<Delivery>, decisionId: string)
    requires deliveries != []
    ensures var n := |deliveries| - 1;
            Attempts(deliveries, decisionId)
            == Attempts(deliveries[..n], decisionId)
               + if deliveries[n].body.decisionId == decisionId then [deliveries[n]] else []
  {
  }

  lemma AppendKeptBut(a: seq<Delivery>, b: seq<Delivery>, x: Delivery, y: Delivery, deliveryId: string)
    requires AllKeptBut(a, b, deliveryId) && KeptBut(x, y, deliveryId)
    ensures AllKeptBut(a + [x], b + [y], deliveryId)
  {
  }

  /** Storing an outcome changes exactly the finished attempt among those of a decision. */
  lemma {:induction false} AttemptsKept(
      before: seq<Delivery>, after: seq<Delivery>, deliveryId: string, decisionId: string)
    requires AllKeptBut(before, after, deliveryId)
    ensures AllKeptBut(Attempts(before, decisionId), Attempts(after, decisionId), deliveryId)
    decreases |before|
  {
    if before != [] {
      var n := |before| - 1;
      assert KeptBut(before[n], after[n], deliveryId);
      AttemptsKept(before[..n], after[..n], deliveryId, decisionId);
      AttemptsLast(before, decisionId);
      AttemptsLast(after, decisionId);
      if before[n].body.decisionId == decisionId {
        AppendKeptBut(Attempts(before[..n], decisionId), Attempts(after[..n], decisionId), before[n], after[n], deliveryId);
      } else {
        assert Attempts(before[..n], decisionId) + [] == Attempts(before, decisionId);
        assert Attempts(after[..n], decisionId) + [] == Attempts(after, decisionId);
      }
    }
  }

  lemma FinishKeepsOthers(deliveries: seq<Delivery>, i: nat, outcome: Outcome)
    requires i < |deliveries|
    ensures AllKeptBut(deliveries, deliveries[i := WithOutcome(deliveries[i], outcome)], deliveries[i].body.deliveryId)
  {
  }

  /**
  A stored confirmation that matches the first attempt's current hash shows that attempt undelivered, so
  the store never begins a second attempt over a delivered first one.
  */
  lemma RetryOnlyOverUndelivered(d: Document, delivery: Delivery)
    requires DocumentInv(d) && PlanUnchecked(Begin(delivery), d).Write?
    ensures var attempts := Attempts(d.deliveries, delivery.body.decisionId);
            attempts == [] || (|attempts| == 1 && !IsDelivered(attempts[0].body) && Confirmed(d, attempts[0]))
  {
    var attempts := Attempts(d.deliveries, delivery.body.decisionId);
    if |attempts| == 1 {
      var r :| r in d.resolutions && Unlocks(r, attempts[0]);
      assert attempts[0] in d.deliveries;
    }
  }

  lemma ConfirmedSurvives(a: Document, b: Document, x: Delivery, y: Delivery)
    requires Confirmed(a, x) && a.resolutions <= b.resolutions
    requires y.body.decisionId == x.body.decisionId && y.body.deliveryId == x.body.deliveryId
    ensures Confirmed(b, y)
  {
    var r :| r in a.resolutions && r.body.decisionId == x.body.decisionId
             && r.body.action == ConfirmedNotDelivered
             && r.body.delivery.Some? && r.body.delivery.value.deliveryId == x.body.deliveryId;
    assert r in b.resolutions;
  }

  lemma AppendKeepsInv(d: Document, decision: Decision)
    requires DocumentInv(d) && PlanAppend(d, decision).Write?
    ensures DocumentInv(PlanAppend(d, decision).next)
  {
    var n := PlanAppend(d, decision).next;
    assert DistinctKeys(n.decisions);
    SameAttemptsBounded(d, n);
  }

  lemma SameAttemptsBounded(d: Document, n: Document)
    requires AllBounded(d) && n.deliveries == d.deliveries && d.resolutions <= n.resolutions
    ensures AllBounded(n)
  {
    forall decisionId ensures AttemptsBounded(n, decisionId) {
      assert AttemptsBounded(d, decisionId);
      var attempts := Attempts(d.deliveries, decisionId);
      if |attempts| == 2 {
        ConfirmedSurvives(d, n, attempts[0], attempts[0]);
      }
    }
  }

  lemma ResolveKeepsInv(d: Document, r: Resolution)
    requires DocumentInv(d) && BindsUndelivered(r.body) && PlanResolve(d, r).Write?
    ensures DocumentInv(PlanResolve(d, r).next)
  {
    var n := PlanResolve(d, r).next;
    assert AllBind(n.resolutions);
    SameAttemptsBounded(d, n);
  }

  /** The new attempt is the first of its decision, or the second over a confirmed one. */
  lemma AppendedKeepsBounded(d: Document, delivery: Delivery, n: Document, decisionId: string)
    requires AttemptsBounded(d, decisionId)
    requires n.deliveries == d.deliveries + [delivery] && n.resolutions == d.resolutions
    requires var attempts := Attempts(d.deliveries, delivery.body.decisionId);
             attempts == [] || (|attempts| == 1 && Confirmed(d, attempts[0]))
    ensures AttemptsBounded(n, decisionId)
  {
    AttemptsAppend(d.deliveries, delivery, decisionId);
    var before := Attempts(d.deliveries, decisionId);
    if before != [] {
      assert Attempts(n.deliveries, decisionId)[0] == before[0];
    }
    if |before| == 2 || (|before| == 1 && delivery.body.decisionId == decisionId) {
      ConfirmedSurvives(d, n, before[0], before[0]);
    }
  }

  lemma BeginKeepsInv(d: Document, delivery: Delivery)
    requires DocumentInv(d) && PlanBegin(d, delivery).Write?
    ensures DocumentInv(PlanBegin(d, delivery).next)
  {
    var n := PlanBegin(d, delivery).next;
    assert AllValid(n.deliveries);
    RetryOnlyOverUndelivered(d, delivery);
    forall decisionId ensures AttemptsBounded(n, decisionId) {
      assert AttemptsBounded(d, decisionId);
      AppendedKeepsBounded(d, delivery, n, decisionId);
    }
  }

  lemma FinishKeepsBounded(d: Document, n: Document, deliveryId: string, decisionId: string)
    requires AttemptsBounded(d, decisionId)
    requires AllKeptBut(d.deliveries, n.deliveries, deliveryId) && n.resolutions == d.resolutions
    ensures AttemptsBounded(n, decisionId)
  {
    AttemptsKept(d.deliveries, n.deliveries, deliveryId, decisionId);
    var before, after := Attempts(d.deliveries, decisionId), Attempts(n.deliveries, decisionId);
    if |before| == 2 {
      assert KeptBut(before[0], after[0], deliveryId);
      ConfirmedSurvives(d, n, before[0], after[0]);
    }
  }

  lemma FinishKeepsInv(d: Document, deliveryId: string, outcome: Outcome)
    requires DocumentInv(d) && PlanFinish(d, deliveryId, outcome).Write?
    ensures DocumentInv(PlanFinish(d, deliveryId, outcome).next)
  {
    var n, i := PlanFinish(d, deliveryId, outcome).next, FirstDelivery(d.deliveries, deliveryId);
    FinishKeepsOthers(d.deliveries, i, outcome);
    assert AllValid(n.deliveries);
    forall decisionId ensures AttemptsBounded(n, decisionId) {
      assert AttemptsBounded(d, decisionId);
      FinishKeepsBounded(d, n, deliveryId, decisionId);
    }
  }

  /** The invariant is kept without the help of the document schema. */
  lemma WriteKeepsInv(m: Mutation, d: Document)
    requires DocumentInv(d) && WellSubmitted(m) && PlanUnchecked(m, d).Write?
    ensures DocumentInv(PlanUnchecked(m, d).next)
  {
    match m {
      case Append(decision) => AppendKeepsInv(d, decision);
      case Begin(delivery) => BeginKeepsInv(d, delivery);
      case Finish(deliveryId, outcome) => FinishKeepsInv(d, deliveryId, outcome);
      case Resolve(r) => ResolveKeepsInv(d, r);
    }
  }

  lemma UnlockedIsUndelivered(d: Document, first: Delivery)
    requires AllBind(d.resolutions) && ValidDelivery(first) && Unlocked(d, first)
    ensures !IsDelivered(first.body)
  {
    var r :| r in d.resolutions && Unlocks(r, first);
    assert BindsUndelivered(r.body);
  }

  lemma SecondIsUnlocked(d: Document, decisionId: string)
    requires SchemaDeliveries(d) && |Attempts(d.deliveries, decisionId)| == 2
    ensures Unlocked(d, Attempts(d.deliveries, decisionId)[0])
  {
    var first := Attempts(d.deliveries, decisionId)[0];
    assert first in Attempts(d.deliveries, decisionId);
    assert first in d.deliveries && first.body.decisionId == decisionId;
    assert SchemaAttempts(d, decisionId);
  }

  /** In a document the schema accepts, the first of two attempts is never a delivered one. */
  lemma NoRetryOverDelivered(d: Document, decisionId: string)
    requires DocumentInv(d) && SchemaOk(d)
    requires |Attempts(d.deliveries, decisionId)| == 2
    ensures !IsDelivered(Attempts(d.deliveries, decisionId)[0].body)
  {
    var first := Attempts(d.deliveries, decisionId)[0];
    assert first in Attempts(d.deliveries, decisionId);
    SecondIsUnlocked(d, decisionId);
    UnlockedIsUndelivered(d, first);
  }

  // ---------------------------------------------------------------- which outcomes can still be stored

  predicate Referenced(d: Document, deliveryId: string) {
    exists r | r in d.resolutions :: r.body.delivery.Some? && r.body.delivery.value.deliveryId == deliveryId
  }

  lemma {:induction false} FirstDeliveryUnchanged(deliveries: seq<Delivery>, i: nat, d: Delivery, deliveryId: string)
    requires i < |deliveries| && d.body.deliveryId == deliveries[i].body.deliveryId
    ensures FirstDelivery(deliveries[i := d], deliveryId) == FirstDelivery(deliveries, deliveryId)
    decreases i
  {
    if i > 0 {
      FirstDeliveryUnchanged(deliveries[1..], i - 1, d, deliveryId);
      assert deliveries[i := d][1..] == deliveries[1..][i - 1 := d];
    } else {
      assert deliveries[i := d][1..] == deliveries[1..];
    }
  }

  lemma ReferenceBlocksFinish(d: Document, n: Document, i: nat, outcome: Outcome, r: Resolution)
    requires SchemaOk(d) && i < |d.deliveries| && ValidDelivery(d.deliveries[i])
    requires d.deliveries[i].body.outcome.None? && i == FirstDelivery(d.deliveries, d.deliveries[i].body.deliveryId)
    requires n.deliveries == d.deliveries[i := WithOutcome(d.deliveries[i], outcome)] && n.resolutions == d.resolutions
    requires r in d.resolutions && r.body.delivery.Some?
    requires r.body.delivery.value.deliveryId == d.deliveries[i].body.deliveryId
    ensures !SchemaOk(n)
  {
    FirstDeliveryUnchanged(d.deliveries, i, n.deliveries[i], d.deliveries[i].body.deliveryId);
    assert SchemaReference(d, r.body) && !SchemaReference(n, r.body);
  }

  lemma FinishKeepsAttempts(d: Document, n: Document, i: nat, outcome: Outcome, decisionId: string)
    requires i < |d.deliveries| && n.resolutions == d.resolutions
    requires n.deliveries == d.deliveries[i := WithOutcome(d.deliveries[i], outcome)]
    requires !Referenced(d, d.deliveries[i].body.deliveryId)
    requires SchemaAttempts(d, decisionId)
    ensures SchemaAttempts(n, decisionId)
  {
    var deliveryId := d.deliveries[i].body.deliveryId;
    FinishKeepsOthers(d.deliveries, i, outcome);
    AttemptsKept(d.deliveries, n.deliveries, deliveryId, decisionId);
    var before, after := Attempts(d.deliveries, decisionId), Attempts(n.deliveries, decisionId);
    if |before| == 2 {
      assert KeptBut(before[0], after[0], deliveryId) && KeptBut(before[1], after[1], deliveryId);
      var r :| r in d.resolutions && Unlocks(r, before[0]);
      assert before[0].body.deliveryId != deliveryId;
      assert r in n.resolutions && Unlocks(r, after[0]);
    }
  }

  lemma FinishKeepsResolutions(d: Document, n: Document, i: nat, outcome: Outcome)
    requires SchemaOk(d) && (forall x | x in d.deliveries :: ValidDelivery(x))
    requires i < |d.deliveries| && d.deliveries[i].body.outcome.None?
    requires i == FirstDelivery(d.deliveries, d.deliveries[i].body.deliveryId)
    requires n == d.(revision := n.revision, deliveries := d.deliveries[i := WithOutcome(d.deliveries[i], outcome)])
    requires !Referenced(d, d.deliveries[i].body.deliveryId)
    ensures SchemaResolutions(n)
  {
    forall r | r in n.resolutions
      ensures References(n, r.body.decisionId, r.body.decisionHash)
      ensures SchemaReference(n, r.body) && SchemaRelated(n, r.body)
    {
      assert r in d.resolutions;
      assert SchemaReference(d, r.body) && SchemaRelated(d, r.body);
      if r.body.delivery.Some? {
        FirstDeliveryUnchanged(d.deliveries, i, n.deliveries[i], r.body.delivery.value.deliveryId);
      }
    }
  }

  lemma UnreferencedFinishPasses(d: Document, n: Document, i: nat, outcome: Outcome)
    requires SchemaOk(d) && (forall x | x in d.deliveries :: ValidDelivery(x))
    requires i < |d.deliveries| && d.deliveries[i].body.outcome.None?
    requires i == FirstDelivery(d.deliveries, d.deliveries[i].body.deliveryId)
    requires n == d.(revision := n.revision, deliveries := d.deliveries[i := WithOutcome(d.deliveries[i], outcome)])
    requires !Referenced(d, d.deliveries[i].body.deliveryId)
    requires 0 < n.revision <= MAX_SAFE_INTEGER
    ensures SchemaOk(n)
  {
    FinishKeepsResolutions(d, n, i, outcome);
    forall j, k | 0 <= j < k < |n.deliveries|
      ensures n.deliveries[j].body.deliveryId != n.deliveries[k].body.deliveryId
      ensures n.deliveries[j].hash != n.deliveries[k].hash
    {
      assert d.deliveries[j].body.deliveryId != d.deliveries[k].body.deliveryId;
      assert ValidDelivery(d.deliveries[j]) && ValidDelivery(d.deliveries[k]);
    }
    forall y | y in n.deliveries
      ensures References(n, y.body.decisionId, y.body.decisionHash) && SchemaAttempts(n, y.body.decisionId)
    {
      var k :| 0 <= k < |n.deliveries| && n.deliveries[k] == y;
      assert d.deliveries[k] in d.deliveries && d.deliveries[k].body.decisionId == y.body.decisionId;
      assert SchemaAttempts(d, d.deliveries[k].body.decisionId);
      FinishKeepsAttempts(d, n, i, outcome, y.body.decisionId);
    }
  }

  lemma FinishSchemaIff(d: Document, n: Document, i: nat, outcome: Outcome)
    requires SchemaOk(d) && (forall x | x in d.deliveries :: ValidDelivery(x))
    requires i < |d.deliveries| && d.deliveries[i].body.outcome.None?
    requires i == FirstDelivery(d.deliveries, d.deliveries[i].body.deliveryId)
    requires n == d.(revision := n.revision, deliveries := d.deliveries[i := WithOutcome(d.deliveries[i], outcome)])
    requires 0 < n.revision <= MAX_SAFE_INTEGER
    ensures SchemaOk(n) <==> !Referenced(d, d.deliveries[i].body.deliveryId)
  {
    var deliveryId := d.deliveries[i].body.deliveryId;
    if Referenced(d, deliveryId) {
      var r :| r in d.resolutions && r.body.delivery.Some? && r.body.delivery.value.deliveryId == deliveryId;
      assert d.deliveries[i] in d.deliveries;
      ReferenceBlocksFinish(d, n, i, outcome, r);
    } else {
      UnreferencedFinishPasses(d, n, i, outcome);
    }
  }

  /**
  The outcome of a pending attempt can still be stored exactly when no lifecycle resolution names the
  attempt: a resolution binds the pending hash, which storing the outcome would change.
  */
  lemma FinishAcceptedIff(d: Document, deliveryId: string, outcome: Outcome)
    requires SchemaOk(d) && (forall x | x in d.deliveries :: ValidDelivery(x))
    requires NextRevision(d).Some?
    requires var i := FirstDelivery(d.deliveries, deliveryId);
             i < |d.deliveries| && d.deliveries[i].body.outcome.None?
    ensures PlanMutation(Finish(deliveryId, outcome), d).Write? <==> !Referenced(d, deliveryId)
  {
    var i := FirstDelivery(d.deliveries, deliveryId);
    var n := d.(revision := d.revision + 1, deliveries := d.deliveries[i := WithOutcome(d.deliveries[i], outcome)]);
    FinishPlansWrite(d, deliveryId, outcome, n);
    CheckedWhen(Finish(deliveryId, outcome), d, n, !Referenced(d, deliveryId)) by {
      FinishSchemaIff(d, n, i, outcome);
    }
  }

  lemma FinishPlansWrite(d: Document, deliveryId: string, outcome: Outcome, n: Document)
    requires NextRevision(d).Some?
    requires var i := FirstDelivery(d.deliveries, deliveryId);
             && i < |d.deliveries| && d.deliveries[i].body.outcome.None?
             && n == d.(revision := d.revision + 1, deliveries := d.deliveries[i := WithOutcome(d.deliveries[i], outcome)])
    ensures PlanUnchecked(Finish(deliveryId, outcome), d) == Write(n) && 0 < n.revision <= MAX_SAFE_INTEGER
  {
  }

  lemma CheckedWhen(m: Mutation, d: Document, n: Document, accepted: bool)
    requires PlanUnchecked(m, d) == Write(n) && (SchemaOk(n) <==> accepted)
    ensures PlanMutation(m, d).Write? <==> accepted
  {
  }

  // ---------------------------------------------------------------- what "recorded" means

  /** The document shows the effect of the mutation. */
  ghost predicate Holds(m: Mutation, d: Document) {
    match m
    case Append(decision) => decision in d.decisions
    case Begin(delivery) => exists x | x in d.deliveries :: Evolves(delivery, x)
    case Finish(deliveryId, outcome) =>
      exists x | x in d.deliveries :: x.body.deliveryId == deliveryId && x.body.outcome == Some(outcome)
    case Resolve(r) => r in d.resolutions
  }

  lemma WriteHolds(m: Mutation, d: Document, n: Document)
    requires PlanUnchecked(m, d) == Write(n)
    ensures Holds(m, n)
  {
    match m {
      case Append(decision) =>
        assert n.decisions[|d.decisions|] == decision;
      case Begin(delivery) =>
        assert n.deliveries[|d.deliveries|] == delivery && Evolves(delivery, delivery);
      case Finish(deliveryId, outcome) =>
        assert n.deliveries[FirstDelivery(d.deliveries, deliveryId)] in n.deliveries;
      case Resolve(r) =>
        assert n.resolutions[|d.resolutions|] == r;
    }
  }

  lemma HoldsOn(m: Mutation, a: Document, b: Document)
    requires Holds(m, a) && Extends(a, b)
    ensures Holds(m, b)
  {
    match m {
      case Begin(delivery) =>
        var i :| 0 <= i < |a.deliveries| && Evolves(delivery, a.deliveries[i]);
        assert Evolves(a.deliveries[i], b.deliveries[i]) && Evolves(delivery, b.deliveries[i]);
      case Finish(deliveryId, outcome) =>
        var i :| 0 <= i < |a.deliveries| && a.deliveries[i].body.deliveryId == deliveryId
                 && a.deliveries[i].body.outcome == Some(outcome);
        assert Evolves(a.deliveries[i], b.deliveries[i]) && b.deliveries[i] in b.deliveries;
      case _ =>
    }
  }

  lemma DescendsExtends(a: Document, b: Document)
    requires Descends(PlanMutation, a, b)
    ensures Extends(a, b)
  {
    var path :| IsHistory(PlanMutation, path, a, b);
    DescendantExtends(path, a, b);
  }

  // ---------------------------------------------------------------- the store along a run

  type Store = State<Document, Mutation>

  ghost predicate StoreInv(s: Store) {
    && Inv(PlanMutation, s)
    && (forall d | d in s.disk.possible :: DocumentInv(d))
    && (forall m | m in s.queue :: WellSubmitted(m))
    && (forall m, next | Installed(s, m, next) :: Holds(m, next))
    && (forall t | t in s.answers && s.answers[t].Recorded? :: Holds(s.answers[t].op, s.answers[t].doc))
  }

  lemma StepKeepsDocuments(s: Store, step: Step<Document, Mutation>, d: Document)
    requires StoreInv(s) && d in Do(PlanMutation, s, step).disk.possible
    ensures DocumentInv(d)
  {
    DoPossible(PlanMutation, s, step, d);
    if d !in s.disk.possible {
      HeadWrites(s, d);
    }
  }

  lemma HeadWrites(s: Store, next: Document)
    requires StoreInv(s) && s.queue != [] && PlanMutation(s.queue[0], s.disk.visible) == Write(next)
    ensures DocumentInv(next) && Holds(s.queue[0], next)
  {
    assert s.disk.visible in s.disk.possible && s.queue[0] in s.queue;
    WriteExtends(s.queue[0], s.disk.visible, next);
    WriteKeepsInv(s.queue[0], s.disk.visible);
    WriteHolds(s.queue[0], s.disk.visible, next);
  }

  lemma InstalledHolds(s: Store, step: Step<Document, Mutation>, m: Mutation, next: Document)
    requires StoreInv(s) && Installed(Do(PlanMutation, s, step), m, next)
    ensures Holds(m, next)
  {
    DoInstalls(PlanMutation, s, step, m, next);
    if !Installed(s, m, next) {
      InstallsHead(PlanMutation, s, step, m, next);
      HeadWrites(s, next);
    }
  }

  lemma InstallsHead<D(!new), Op(!new)>(
      plan: (Op, D) -> Plan<D>, s: State<D, Op>, step: Step<D, Op>, op: Op, next: D)
    requires Inv(plan, s) && Installed(Do(plan, s, step), op, next) && !Installed(s, op, next)
    ensures s.queue != [] && s.queue[0] == op
  {
  }

  lemma StepKeepsAnswers(s: Store, step: Step<Document, Mutation>, t: nat)
    requires StoreInv(s)
    requires t in Do(PlanMutation, s, step).answers && Do(PlanMutation, s, step).answers[t].Recorded?
    ensures var answer := Do(PlanMutation, s, step).answers[t]; Holds(answer.op, answer.doc)
  {
    DoRecords(PlanMutation, s, step, t);
  }

  lemma StoreStepKeepsInv(s: Store, step: Step<Document, Mutation>)
    requires StoreInv(s)
    requires step.Submit? ==> WellSubmitted(step.op)
    ensures StoreInv(Do(PlanMutation, s, step))
  {
    var s' := Do(PlanMutation, s, step);
    StoreInvParts(s') by {
      DoKeepsInv(PlanMutation, s, step);
      forall d | d in s'.disk.possible ensures DocumentInv(d) { StepKeepsDocuments(s, step, d); }
      forall m | m in s'.queue ensures WellSubmitted(m) { DoQueue(PlanMutation, s, step, m); }
      forall m, next | Installed(s', m, next) ensures Holds(m, next) { InstalledHolds(s, step, m, next); }
      forall t | t in s'.answers && s'.answers[t].Recorded? ensures Holds(s'.answers[t].op, s'.answers[t].doc) {
        StepKeepsAnswers(s, step, t);
      }
    }
  }

  lemma StoreInvParts(s: Store)
    requires Inv(PlanMutation, s)
    requires forall d | d in s.disk.possible :: DocumentInv(d)
    requires forall m | m in s.queue :: WellSubmitted(m)
    requires forall m, next | Installed(s, m, next) :: Holds(m, next)
    requires forall t | t in s.answers && s.answers[t].Recorded? :: Holds(s.answers[t].op, s.answers[t].doc)
    ensures StoreInv(s)
  {
  }

  /** Whatever was answered "recorded" is shown by the visible document and by every one a crash could leave. */
  lemma RecordedIsDurable(s: Store, t: nat, d: Document)
    requires StoreInv(s) && t in s.answers && s.answers[t].Recorded?
    requires d in s.disk.possible
    ensures Holds(s.answers[t].op, d)
  {
    DescendsExtends(s.answers[t].doc, d);
    HoldsOn(s.answers[t].op, s.answers[t].doc, d);
  }

  /** A crash can only go back to an ancestor: it undoes mutations, and only ones never answered "recorded". */
  lemma CrashOnlyUndoes(s: Store, kept: Document)
    requires StoreInv(s) && kept in s.disk.possible
    ensures Extends(kept, s.disk.visible)
    ensures forall t | t in s.answers && s.answers[t].Recorded? :: Holds(s.answers[t].op, kept)
  {
    DescendsExtends(kept, s.disk.visible);
    forall t | t in s.answers && s.answers[t].Recorded? ensures Holds(s.answers[t].op, kept) {
      RecordedIsDurable(s, t, kept);
    }
  }
}
