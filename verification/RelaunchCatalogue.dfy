/**
The relaunch catalogue keeps, of every session ever recorded, the newest ones. It stores only the bounded list
and never looks at what it dropped.
*/
module RelaunchCatalogue {
  import opened Options
  import opened SerialStore
  import opened Sorting

  const MAX_MANIFESTS: nat := 100

  datatype Manifest = Manifest(id: nat, sessionId: nat, createdAt: nat, content: string)

  /** Newest first; of two created together, the greater id first. */
  function NewestFirst(): (Manifest, Manifest) -> bool {
    (a: Manifest, b: Manifest) => a.createdAt > b.createdAt || (a.createdAt == b.createdAt && a.id >= b.id)
  }

  lemma NewestFirstIsOrder()
    ensures IsOrder(NewestFirst())
  {
  }

  predicate Others(m: Manifest, other: Manifest) {
    other.id != m.id && other.sessionId != m.sessionId
  }

  /** The manifests that share neither id nor session with m. */
  function Retained(list: seq<Manifest>, m: Manifest): seq<Manifest> {
    if list == [] then []
    else (if Others(m, list[0]) then [list[0]] else []) + Retained(list[1..], m)
  }

  function Take(list: seq<Manifest>, max: nat): seq<Manifest> {
    if max < |list| then list[..max] else list
  }

  function Upsert(list: seq<Manifest>, m: Manifest, max: nat): seq<Manifest> {
    Take(Sort(NewestFirst(), [m] + Retained(list, m)), max)
  }

  /** The stored list after a series of successful upserts. */
  function Stored(history: seq<Manifest>, max: nat): seq<Manifest> {
    if history == [] then [] else Upsert(Stored(history[..|history| - 1], max), history[|history| - 1], max)
  }

  // ---------------------------------------------------------------- the catalogue without a bound

  /** The latest manifest of every session, in no particular order. */
  function Latest(history: seq<Manifest>): seq<Manifest> {
    if history == [] then []
    else
      var n := |history| - 1;
      [history[n]] + Retained(Latest(history[..n]), history[n])
  }

  /** Ids and sessions determine each other. */
  predicate SteadyIds(list: seq<Manifest>, m: Manifest) {
    forall x <- list :: x.id == m.id <==> x.sessionId == m.sessionId
  }

  predicate AllSteadyIds(history: seq<Manifest>) {
    forall m <- history :: SteadyIds(history, m)
  }

  /** No upsert gives a session an earlier creation time than it had. */
  predicate NeverBack(history: seq<Manifest>) {
    forall i, j | 0 <= i < j < |history| ::
      history[i].sessionId == history[j].sessionId ==> history[i].createdAt <= history[j].createdAt
  }

  predicate NoRepeats(list: seq<Manifest>) {
    forall i, j | 0 <= i < j < |list| :: list[i].id != list[j].id && list[i].sessionId != list[j].sessionId
  }

  lemma {:induction false} RetainedMembers(list: seq<Manifest>, m: Manifest)
    ensures forall x :: x in Retained(list, m) <==> x in list && Others(m, x)
  {
    if list != [] {
      RetainedMembers(list[1..], m);
      assert list == [list[0]] + list[1..];
    }
  }

  predicate Apart(x: Manifest, list: seq<Manifest>) {
    forall y <- list :: Others(x, y)
  }

  lemma NoRepeatsCons(x: Manifest, list: seq<Manifest>)
    requires NoRepeats(list) && Apart(x, list)
    ensures NoRepeats([x] + list)
  {
    var all := [x] + list;
    forall i, j | 0 <= i < j < |all| ensures all[i].id != all[j].id && all[i].sessionId != all[j].sessionId {
      assert all[j] == list[j - 1] && list[j - 1] in list;
    }
  }

  lemma NoRepeatsFirst(list: seq<Manifest>)
    requires NoRepeats(list) && list != []
    ensures NoRepeats(list[1..]) && Apart(list[0], list[1..]) && list == [list[0]] + list[1..]
  {
    forall y | y in list[1..] ensures Others(list[0], y) {
      var j :| 0 <= j < |list| - 1 && list[1..][j] == y;
      assert list[j + 1] == y;
    }
  }

  lemma {:induction false} RetainedNoRepeats(list: seq<Manifest>, m: Manifest)
    requires NoRepeats(list)
    ensures NoRepeats(Retained(list, m))
  {
    if list != [] {
      NoRepeatsFirst(list);
      RetainedNoRepeats(list[1..], m);
      RetainedMembers(list[1..], m);
      if Others(m, list[0]) {
        NoRepeatsCons(list[0], Retained(list[1..], m));
      } else {
        assert Retained(list, m) == Retained(list[1..], m);
      }
    }
  }

  lemma ReplacedNoRepeats(list: seq<Manifest>, m: Manifest)
    requires NoRepeats(list)
    ensures NoRepeats([m] + Retained(list, m))
  {
    RetainedNoRepeats(list, m);
    RetainedMembers(list, m);
    NoRepeatsCons(m, Retained(list, m));
  }

  lemma NoRepeatsOfPermutation(a: seq<Manifest>, b: seq<Manifest>)
    requires NoRepeats(a) && multiset(a) == multiset(b)
    ensures NoRepeats(b)
  {
    forall i, j | 0 <= i < j < |b| ensures b[i].id != b[j].id && b[i].sessionId != b[j].sessionId {
      SameElements(a, b);
      var x, y := b[i], b[j];
      assert x in a && y in a;
      var k :| 0 <= k < |a| && a[k] == x;
      var l :| 0 <= l < |a| && a[l] == y;
      if k == l {
        OccursTwice(b, i, j);
        OccursOnce(a, k);
      }
    }
  }

  lemma OccursTwice(s: seq<Manifest>, i: nat, j: nat)
    requires i < j < |s| && s[i] == s[j]
    ensures 2 <= multiset(s)[s[i]]
  {
    assert s == s[..j] + [s[j]] + s[j + 1..];
    assert s[i] == s[..j][i] && s[i] in s[..j];
    assert 1 <= multiset(s[..j])[s[i]];
  }

  lemma OccursOnce(s: seq<Manifest>, k: nat)
    requires NoRepeats(s) && k < |s|
    ensures multiset(s)[s[k]] == 1
  {
    assert s == s[..k] + [s[k]] + s[k + 1..];
    assert s[k] !in s[..k] && s[k] !in s[k + 1..];
  }

  lemma TakeKeeps(list: seq<Manifest>, max: nat)
    requires NoRepeats(list) && IsSorted(NewestFirst(), list)
    ensures NoRepeats(Take(list, max)) && IsSorted(NewestFirst(), Take(list, max)) && |Take(list, max)| <= max
    ensures forall x <- Take(list, max) :: x in list
  {
  }

  lemma SortKeeps(list: seq<Manifest>)
    requires NoRepeats(list)
    ensures NoRepeats(Sort(NewestFirst(), list)) && IsSorted(NewestFirst(), Sort(NewestFirst(), list))
  {
    NewestFirstIsOrder();
    SortSorts(NewestFirst(), list);
    NoRepeatsOfPermutation(list, Sort(NewestFirst(), list));
  }

  /** Whatever is upserted, the stored list is bounded, sorted, and has each id and each session once. */
  lemma {:induction false} StoredIsUnique(history: seq<Manifest>, max: nat)
    ensures |Stored(history, max)| <= max
    ensures NoRepeats(Stored(history, max)) && IsSorted(NewestFirst(), Stored(history, max))
  {
    if history != [] {
      var n := |history| - 1;
      var before, m := Stored(history[..n], max), history[n];
      StoredIsUnique(history[..n], max);
      ReplacedNoRepeats(before, m);
      SortKeeps([m] + Retained(before, m));
      TakeKeeps(Sort(NewestFirst(), [m] + Retained(before, m)), max);
    }
  }

  // ---------------------------------------------------------------- sorted insertion

  lemma {:induction false} RetainedAll(list: seq<Manifest>, m: Manifest)
    requires Apart(m, list)
    ensures Retained(list, m) == list
  {
    if list != [] {
      assert list[0] in list && forall x <- list[1..] :: x in list;
      RetainedAll(list[1..], m);
      assert list == [list[0]] + list[1..];
    }
  }

  lemma NoRepeatsDistinguished(list: seq<Manifest>)
    requires NoRepeats(list)
    ensures Distinguished(NewestFirst(), list)
  {
    forall x, y | x in list && y in list && NewestFirst()(x, y) && NewestFirst()(y, x) ensures x == y {
      var i :| 0 <= i < |list| && list[i] == x;
      var j :| 0 <= j < |list| && list[j] == y;
      assert !(i < j) && !(j < i);
    }
  }

  lemma SortSorted(list: seq<Manifest>)
    requires IsSorted(NewestFirst(), list) && NoRepeats(list)
    ensures Sort(NewestFirst(), list) == list
  {
    NewestFirstIsOrder();
    SortSorts(NewestFirst(), list);
    NoRepeatsDistinguished(list);
    SortedIsUnique(NewestFirst(), list, Sort(NewestFirst(), list));
  }

  lemma {:induction false} RetainedSorted(list: seq<Manifest>, m: Manifest)
    requires IsSorted(NewestFirst(), list)
    ensures IsSorted(NewestFirst(), Retained(list, m))
  {
    if list != [] {
      SortedFirst(NewestFirst(), list);
      RetainedSorted(list[1..], m);
      RetainedMembers(list[1..], m);
      if Others(m, list[0]) {
        SortedCons(NewestFirst(), list[0], Retained(list[1..], m));
      } else {
        assert Retained(list, m) == Retained(list[1..], m);
      }
    }
  }

  /** Filtering a sorted list and sorting again is inserting in what the filter leaves. */
  lemma UpsertIsInsert(list: seq<Manifest>, m: Manifest)
    requires IsSorted(NewestFirst(), list) && NoRepeats(list)
    ensures Sort(NewestFirst(), [m] + Retained(list, m)) == Insert(NewestFirst(), m, Retained(list, m))
  {
    RetainedSorted(list, m);
    RetainedNoRepeats(list, m);
    SortSorted(Retained(list, m));
    assert ([m] + Retained(list, m))[1..] == Retained(list, m);
  }

  lemma {:induction false} RetainedConcat(a: seq<Manifest>, b: seq<Manifest>, m: Manifest)
    ensures Retained(a + b, m) == Retained(a, m) + Retained(b, m)
  {
    if a == [] {
      assert a + b == b;
    } else {
      assert (a + b)[1..] == a[1..] + b;
      RetainedConcat(a[1..], b, m);
    }
  }

  lemma InsertCons(m: Manifest, x: Manifest, list: seq<Manifest>)
    ensures Insert(NewestFirst(), m, [x] + list)
         == if NewestFirst()(m, x) then [m] + ([x] + list) else [x] + Insert(NewestFirst(), m, list)
  {
    assert ([x] + list)[1..] == list;
  }

  lemma TakeCons(x: Manifest, list: seq<Manifest>, max: nat)
    requires 0 < max
    ensures Take([x] + list, max) == [x] + Take(list, max - 1)
  {
  }

  /** What follows the first max elements does not matter for the first max of an insertion. */
  lemma {:induction false} TakeInsert(m: Manifest, a: seq<Manifest>, b: seq<Manifest>, max: nat)
    requires max <= |a|
    ensures Take(Insert(NewestFirst(), m, a + b), max) == Take(Insert(NewestFirst(), m, a), max)
    decreases max
  {
    if max != 0 {
      var x, rest := a[0], a[1..];
      assert a == [x] + rest && a + b == [x] + (rest + b);
      InsertCons(m, x, rest);
      InsertCons(m, x, rest + b);
      if NewestFirst()(m, x) {
        assert Take([m] + a, max) == Take([m] + (a + b), max);
      } else {
        TakeInsert(m, rest, b, max - 1);
        TakeCons(x, Insert(NewestFirst(), m, rest + b), max);
        TakeCons(x, Insert(NewestFirst(), m, rest), max);
      }
    }
  }

  lemma ConcatAssociates(x: Manifest, a: seq<Manifest>, b: seq<Manifest>)
    ensures [x] + (a + b) == ([x] + a) + b
  {
  }

  lemma {:induction false} InsertBefore(m: Manifest, a: seq<Manifest>, b: seq<Manifest>)
    requires b != [] && NewestFirst()(m, b[0])
    ensures Insert(NewestFirst(), m, a + b) == Insert(NewestFirst(), m, a) + b
  {
    if a == [] {
      assert a + b == b;
    } else {
      var x, rest := a[0], a[1..];
      assert a == [x] + rest && a + b == [x] + (rest + b);
      InsertCons(m, x, rest);
      InsertCons(m, x, rest + b);
      if NewestFirst()(m, x) {
        ConcatAssociates(m, a, b);
      } else {
        InsertBefore(m, rest, b);
        ConcatAssociates(x, Insert(NewestFirst(), m, rest), b);
      }
    }
  }

  lemma {:induction false} InsertAfter(m: Manifest, a: seq<Manifest>, b: seq<Manifest>)
    requires forall x <- a :: !NewestFirst()(m, x)
    ensures Insert(NewestFirst(), m, a + b) == a + Insert(NewestFirst(), m, b)
  {
    if a == [] {
      assert a + b == b;
    } else {
      var x, rest := a[0], a[1..];
      assert x in a && forall y <- rest :: y in a;
      assert a == [x] + rest && a + b == [x] + (rest + b);
      InsertCons(m, x, rest + b);
      InsertAfter(m, rest, b);
      ConcatAssociates(x, rest, Insert(NewestFirst(), m, b));
    }
  }

  // ---------------------------------------------------------------- one upsert of the bounded list

  predicate Listed(list: seq<Manifest>, m: Manifest) {
    exists x <- list :: x.sessionId == m.sessionId
  }

  lemma UnlistedIsApart(list: seq<Manifest>, m: Manifest)
    requires SteadyIds(list, m) && !Listed(list, m)
    ensures Apart(m, list)
  {
  }

  lemma {:induction false} RetainedAllButOne(list: seq<Manifest>, m: Manifest)
    requires NoRepeats(list) && SteadyIds(list, m) && Listed(list, m)
    ensures |Retained(list, m)| == |list| - 1
  {
    var first, rest := list[0], list[1..];
    NoRepeatsFirst(list);
    assert first in list && forall x <- rest :: x in list;
    if first.sessionId == m.sessionId {
      assert Apart(m, rest);
      RetainedAll(rest, m);
    } else {
      assert Listed(rest, m);
      RetainedAllButOne(rest, m);
    }
  }

  /** After the first max of a sorted list come only later ones, of other sessions. */
  lemma SplitAt(all: seq<Manifest>, max: nat)
    requires IsSorted(NewestFirst(), all) && NoRepeats(all) && max < |all|
    ensures all == all[..max] + all[max..] && NoRepeats(all[..max]) && IsSorted(NewestFirst(), all[..max])
    ensures forall x <- all[..max], y <- all[max..] :: Others(x, y)
    ensures forall x <- all[..max] :: NewestFirst()(x, all[max])
  {
    forall x, y | x in all[..max] && y in all[max..] ensures Others(x, y) {
      var i :| 0 <= i < max && all[i] == x;
      var j :| 0 <= j < |all| - max && all[max..][j] == y;
      assert all[max + j] == y;
    }
  }

  lemma UnlistedKeepsTop(all: seq<Manifest>, m: Manifest, max: nat)
    requires IsSorted(NewestFirst(), all) && NoRepeats(all) && max < |all|
    requires SteadyIds(all[..max], m) && !Listed(all[..max], m)
    ensures Take(Insert(NewestFirst(), m, Retained(all[..max], m)), max)
         == Take(Insert(NewestFirst(), m, Retained(all, m)), max)
  {
    SplitAt(all, max);
    UnlistedIsApart(all[..max], m);
    RetainedAll(all[..max], m);
    RetainedConcat(all[..max], all[max..], m);
    TakeInsert(m, all[..max], Retained(all[max..], m), max);
  }

  lemma ListedSplits(all: seq<Manifest>, m: Manifest, max: nat)
    requires IsSorted(NewestFirst(), all) && NoRepeats(all) && SteadyIds(all, m)
    requires max < |all| && Listed(all[..max], m)
    ensures Retained(all, m) == Retained(all[..max], m) + all[max..] && |Retained(all[..max], m)| == max - 1
    ensures forall x <- Retained(all[..max], m) :: NewestFirst()(x, all[max])
  {
    SplitAt(all, max);
    RetainedAllButOne(all[..max], m);
    RetainedConcat(all[..max], all[max..], m);
    RetainedMembers(all[..max], m);
    var own :| own in all[..max] && own.sessionId == m.sessionId;
    forall y | y in all[max..] ensures Others(m, y) {
      assert Others(own, y) && own in all;
    }
    RetainedAll(all[max..], m);
  }

  lemma EarlierInserts(m: Manifest, a: seq<Manifest>, b: seq<Manifest>, max: nat)
    requires b != [] && max == |a| + 1 && NewestFirst()(m, b[0])
    ensures Take(Insert(NewestFirst(), m, a), max) == Take(Insert(NewestFirst(), m, a + b), max)
  {
    InsertLength(m, a);
    InsertBefore(m, a, b);
  }

  lemma LaterIsCutOff(m: Manifest, a: seq<Manifest>, b: seq<Manifest>, max: nat)
    requires b != [] && max == |a| + 1 && !NewestFirst()(m, b[0])
    requires forall x <- a :: NewestFirst()(x, b[0])
    ensures Take(Insert(NewestFirst(), m, a), max) == a + [m]
    ensures Take(Insert(NewestFirst(), m, a + b), max) == a + [b[0]]
    ensures a + [m] != a + [b[0]]
  {
    forall x | x in a ensures !NewestFirst()(m, x) {
      assert NewestFirst()(x, b[0]);
    }
    InsertAfter(m, a, b);
    InsertAfter(m, a, []);
    assert a + [] == a && b == [b[0]] + b[1..];
    InsertCons(m, b[0], b[1..]);
    TakeOneMore(a, m, []);
    TakeOneMore(a, b[0], Insert(NewestFirst(), m, b[1..]));
    LastDiffers(a, m, b[0]);
  }

  lemma TakeOneMore(a: seq<Manifest>, x: Manifest, rest: seq<Manifest>)
    ensures Take(a + ([x] + rest), |a| + 1) == a + [x]
    ensures [x] + [] == [x]
  {
  }

  lemma LastDiffers(a: seq<Manifest>, x: Manifest, y: Manifest)
    requires x != y
    ensures a + [x] != a + [y]
  {
    assert (a + [x])[|a|] == x && (a + [y])[|a|] == y;
  }

  lemma ListedKeepsTop(all: seq<Manifest>, m: Manifest, max: nat)
    requires IsSorted(NewestFirst(), all) && NoRepeats(all) && SteadyIds(all, m)
    requires max < |all| && Listed(all[..max], m)
    ensures Take(Insert(NewestFirst(), m, Retained(all[..max], m)), max)
         == Take(Insert(NewestFirst(), m, Retained(all, m)), max)
       <==> NewestFirst()(m, all[max])
  {
    ListedSplits(all, m, max);
    var a, b := Retained(all[..max], m), all[max..];
    if NewestFirst()(m, b[0]) {
      EarlierInserts(m, a, b, max);
    } else {
      LaterIsCutOff(m, a, b, max);
    }
  }

  lemma InsertLength(m: Manifest, list: seq<Manifest>)
    ensures |Insert(NewestFirst(), m, list)| == |list| + 1
  {
    assert |multiset(Insert(NewestFirst(), m, list))| == |multiset(list) + multiset{m}|;
  }

  /** An upsert does not drop what belongs to the first max. */
  predicate KeepsTop(all: seq<Manifest>, m: Manifest, max: nat) {
    !Listed(Take(all, max), m) || |all| <= max || NewestFirst()(m, all[max])
  }

  /**
  One upsert of the cut list is the cut of the upsert of the whole list if and only if the session is not
  listed, or nothing was cut off, or the manifest still sorts before the first one cut off.
  */
  lemma UpsertOfTakeIff(all: seq<Manifest>, m: Manifest, max: nat)
    requires IsSorted(NewestFirst(), all) && NoRepeats(all) && SteadyIds(all, m)
    ensures Upsert(Take(all, max), m, max) == Take(Sort(NewestFirst(), [m] + Retained(all, m)), max)
       <==> KeepsTop(all, m, max)
  {
    UpsertIsInsert(all, m);
    if max < |all| {
      SplitAt(all, max);
      UpsertIsInsert(all[..max], m);
      assert forall x <- all[..max] :: x in all;
      if Listed(all[..max], m) {
        ListedKeepsTop(all, m, max);
      } else {
        UnlistedKeepsTop(all, m, max);
      }
    }
  }

  lemma {:induction false} RetainedCount(list: seq<Manifest>, m: Manifest, x: Manifest)
    ensures multiset(Retained(list, m))[x] == if Others(m, x) then multiset(list)[x] else 0
  {
    if list != [] {
      assert list == [list[0]] + list[1..];
      RetainedCount(list[1..], m, x);
    }
  }

  lemma RetainedOfPermutation(a: seq<Manifest>, b: seq<Manifest>, m: Manifest)
    requires multiset(a) == multiset(b)
    ensures multiset([m] + Retained(a, m)) == multiset([m] + Retained(b, m))
  {
    forall x ensures multiset(Retained(a, m))[x] == multiset(Retained(b, m))[x] {
      RetainedCount(a, m, x);
      RetainedCount(b, m, x);
    }
    assert multiset(Retained(a, m)) == multiset(Retained(b, m));
  }

  lemma {:induction false} LatestNoRepeats(history: seq<Manifest>)
    ensures NoRepeats(Latest(history))
  {
    if history != [] {
      LatestNoRepeats(history[..|history| - 1]);
      ReplacedNoRepeats(Latest(history[..|history| - 1]), history[|history| - 1]);
    }
  }

  /** x was upserted at k, and nothing after that has its id or its session. */
  predicate SurvivesAt(history: seq<Manifest>, x: Manifest, k: nat)
    requires k < |history|
  {
    history[k] == x && forall j | k < j < |history| :: Others(history[j], x)
  }

  lemma SurvivesBefore(history: seq<Manifest>, x: Manifest, k: nat)
    requires k + 1 < |history|
    ensures var n := |history| - 1;
            SurvivesAt(history, x, k) <==> SurvivesAt(history[..n], x, k) && Others(history[n], x)
  {
    var n := |history| - 1;
    assert forall j | 0 <= j < n :: history[..n][j] == history[j];
  }

  ghost predicate Survives(history: seq<Manifest>, x: Manifest) {
    exists k | 0 <= k < |history| :: SurvivesAt(history, x, k)
  }

  lemma SurvivesStep(history: seq<Manifest>, x: Manifest)
    requires history != []
    ensures var n := |history| - 1;
            Survives(history, x) <==> history[n] == x || (Survives(history[..n], x) && Others(history[n], x))
  {
    var n := |history| - 1;
    if Survives(history, x) {
      var k :| 0 <= k < |history| && SurvivesAt(history, x, k);
      if k < n {
        SurvivesBefore(history, x, k);
      }
    }
    if history[n] == x {
      assert SurvivesAt(history, x, n);
    } else if Survives(history[..n], x) && Others(history[n], x) {
      var k :| 0 <= k < n && SurvivesAt(history[..n], x, k);
      SurvivesBefore(history, x, k);
    }
  }

  /** A manifest is a latest one exactly when no later one has its id or its session. */
  lemma {:induction false} LatestIff(history: seq<Manifest>, x: Manifest)
    ensures x in Latest(history) <==> Survives(history, x)
  {
    if history != [] {
      var n := |history| - 1;
      LatestIff(history[..n], x);
      RetainedMembers(Latest(history[..n]), history[n]);
      SurvivesStep(history, x);
    }
  }

  lemma {:induction false} LatestWereStored(history: seq<Manifest>)
    ensures forall x <- Latest(history) :: x in history
  {
    if history != [] {
      var n := |history| - 1;
      LatestWereStored(history[..n]);
      RetainedMembers(Latest(history[..n]), history[n]);
      assert forall x <- history[..n] :: x in history;
    }
  }

  lemma SortOfPermutation(a: seq<Manifest>, b: seq<Manifest>)
    requires multiset(a) == multiset(b) && NoRepeats(b)
    ensures Sort(NewestFirst(), a) == Sort(NewestFirst(), b)
  {
    NewestFirstIsOrder();
    SortSorts(NewestFirst(), a);
    SortKeeps(b);
    NoRepeatsDistinguished(Sort(NewestFirst(), b));
    SortedIsUnique(NewestFirst(), Sort(NewestFirst(), b), Sort(NewestFirst(), a));
  }

  /** The list of the newest of all sessions ever stored. */
  function Top(history: seq<Manifest>, max: nat): seq<Manifest> {
    Take(Sort(NewestFirst(), Latest(history)), max)
  }

  lemma SortedLatest(history: seq<Manifest>)
    ensures var all := Sort(NewestFirst(), Latest(history));
            && NoRepeats(all) && IsSorted(NewestFirst(), all) && forall x <- all :: x in history
  {
    var latest := Latest(history);
    LatestNoRepeats(history);
    SortKeeps(latest);
    LatestWereStored(history);
    SameElements(latest, Sort(NewestFirst(), latest));
  }

  lemma TopStep(history: seq<Manifest>, m: Manifest, max: nat)
    ensures Top(history + [m], max)
         == Take(Sort(NewestFirst(), [m] + Retained(Sort(NewestFirst(), Latest(history)), m)), max)
  {
    var latest, all := Latest(history), Sort(NewestFirst(), Latest(history));
    StoredStep(history, m, max);
    RetainedOfPermutation(all, latest, m);
    LatestNoRepeats(history + [m]);
    SortOfPermutation([m] + Retained(all, m), Latest(history + [m]));
  }

  /**
  When the stored list is the top of all sessions, it is so again after an upsert if and only if the session
  was not listed, or nothing had been cut off, or the manifest still sorts before the first one cut off.
  */
  lemma UpsertKeepsTopIff(history: seq<Manifest>, m: Manifest, max: nat)
    requires Stored(history, max) == Top(history, max) && SteadyIds(history, m)
    ensures Stored(history + [m], max) == Top(history + [m], max)
       <==> KeepsTop(Sort(NewestFirst(), Latest(history)), m, max)
  {
    var all := Sort(NewestFirst(), Latest(history));
    SortedLatest(history);
    StoredStep(history, m, max);
    TopStep(history, m, max);
    UpsertOfTakeIff(all, m, max);
  }

  /** A listed session that does not go back in time stays before everything cut off. */
  lemma ForwardKeepsTop(history: seq<Manifest>, m: Manifest, max: nat)
    requires SteadyIds(history, m)
    requires forall x <- history :: x.sessionId == m.sessionId ==> x.createdAt <= m.createdAt
    ensures KeepsTop(Sort(NewestFirst(), Latest(history)), m, max)
  {
    var all := Sort(NewestFirst(), Latest(history));
    SortedLatest(history);
    if Listed(Take(all, max), m) && max < |all| {
      SplitAt(all, max);
      var own :| own in all[..max] && own.sessionId == m.sessionId;
      assert own in all && NewestFirst()(own, all[max]) && NewestFirst()(m, own);
    }
  }

  /**
  As long as sessions keep their id and never move to an earlier creation time, the bounded list after any
  series of upserts is the sorted list of the latest manifest of every session ever stored, cut at the bound:
  what was dropped would have been cut off anyway, whatever came later.
  */
  lemma {:induction false} BoundedIsTopOfAll(history: seq<Manifest>, max: nat)
    requires AllSteadyIds(history) && NeverBack(history)
    ensures Stored(history, max) == Top(history, max)
  {
    if history != [] {
      var n := |history| - 1;
      var before, m := history[..n], history[n];
      assert history == before + [m];
      PrefixSteady(before, m);
      BoundedIsTopOfAll(before, max);
      ForwardKeepsTop(before, m, max);
      UpsertKeepsTopIff(before, m, max);
    }
  }

  lemma PrefixSteady(before: seq<Manifest>, m: Manifest)
    requires AllSteadyIds(before + [m]) && NeverBack(before + [m])
    ensures AllSteadyIds(before) && NeverBack(before) && SteadyIds(before, m)
    ensures forall x <- before :: x.sessionId == m.sessionId ==> x.createdAt <= m.createdAt
  {
    var history := before + [m];
    assert forall x <- before :: x in history;
    forall y | y in before ensures SteadyIds(before, y) {
      assert SteadyIds(history, y);
    }
    assert history[|before|] == m && m in history && SteadyIds(history, m);
    forall i, j | 0 <= i < j < |before| && before[i].sessionId == before[j].sessionId
      ensures before[i].createdAt <= before[j].createdAt
    {
      assert history[i] == before[i] && history[j] == before[j];
    }
    forall x | x in before && x.sessionId == m.sessionId ensures x.createdAt <= m.createdAt {
      var i :| 0 <= i < |before| && before[i] == x;
      assert history[i] == x;
    }
  }

  lemma StoredStep(history: seq<Manifest>, m: Manifest, max: nat)
    ensures Stored(history + [m], max) == Upsert(Stored(history, max), m, max)
    ensures Latest(history + [m]) == [m] + Retained(Latest(history), m)
  {
    assert (history + [m])[..|history|] == history;
  }

  lemma RetainedOne(x: Manifest, m: Manifest)
    ensures Retained([x], m) == if Others(m, x) then [x] else []
  {
    assert [x][1..] == [];
  }

  lemma SortTwo(x: Manifest, y: Manifest)
    ensures Sort(NewestFirst(), [x, y]) == if NewestFirst()(x, y) then [x, y] else [y, x]
    ensures Sort(NewestFirst(), [x]) == [x]
  {
    assert [x][1..] == [] && [y][1..] == [] && [x, y][1..] == [y];
    assert Sort(NewestFirst(), [y]) == [y];
  }

  lemma StoredOfOne(a: Manifest)
    ensures Stored([a], 1) == [a] && Latest([a]) == [a]
  {
    StoredStep([], a, 1);
    assert [] + [a] == [a] && Retained([], a) == [];
    SortTwo(a, a);
  }

  lemma StoredOfTwo(a: Manifest, b: Manifest)
    requires Others(b, a) && !NewestFirst()(a, b)
    ensures Stored([a, b], 1) == [b] && Latest([a, b]) == [b, a]
  {
    StoredOfOne(a);
    StoredStep([a], b, 1);
    assert [a] + [b] == [a, b];
    RetainedOne(a, b);
    SortTwo(b, a);
  }

  /** Without that it fails: a session that moves to an older date does not bring back the one it pushed out. */
  lemma DatesMustStay()
    ensures var a, b, c := Manifest(1, 1, 1, "a"), Manifest(2, 2, 2, "b"), Manifest(2, 2, 0, "c");
            && Stored([a, b, c], 1) == [c]
            && Take(Sort(NewestFirst(), Latest([a, b, c])), 1) == [a]
  {
    var a, b, c := Manifest(1, 1, 1, "a"), Manifest(2, 2, 2, "b"), Manifest(2, 2, 0, "c");
    StoredOfTwo(a, b);
    StoredStep([a, b], c, 1);
    assert [a, b] + [c] == [a, b, c];
    RetainedOne(b, c);
    RetainedOne(a, c);
    assert [b, a][1..] == [a];
    SortTwo(c, c);
    SortTwo(c, a);
  }

  // ---------------------------------------------------------------- the object

  class RelaunchManifestStore {
    var manifests: seq<Manifest>
    const file: StateFile<seq<Manifest>>
    ghost var history: seq<Manifest>

    /** A list on disk is the one in memory, or that with one more upsert whose durability is unknown. */
    ghost predicate AtMostOneAhead(list: seq<Manifest>)
      reads this
    {
      list == manifests || exists m :: list == Upsert(manifests, m, MAX_MANIFESTS)
    }

    ghost predicate Valid()
      reads this, file
    {
      && manifests == Stored(history, MAX_MANIFESTS)
      && !file.handleOpen && file.visible in file.possible
      && forall list | list in file.possible :: AtMostOneAhead(list)
    }

    constructor ()
      ensures Valid() && fresh(file) && history == []
    {
      file := new StateFile<seq<Manifest>>([]);
      manifests, history := [], [];
    }

    /**
    One upsert at the head of the write tail. Memory moves only with success, and then file and memory agree
    for good; when durability is unknown the file already shows the upsert that memory does not have.
    */
    method UpsertOnce(m: Manifest, io: Io) returns (error: Option<WriteError>)
      requires Valid()
      modifies this`manifests, this`history, file
      ensures Valid()
      ensures error == (if !io.Staged() then Some(WriteFailed)
                        else if !io.directorySynced then Some(DurabilityUnknown) else None)
      ensures history == if error == None then old(history) + [m] else old(history)
      ensures error == None ==> file.OnDisk() == Disk.Disk(manifests, {manifests})
      ensures error != None ==> manifests == old(manifests)
      ensures error == Some(WriteFailed) ==> file.OnDisk() == old(file.OnDisk())
      ensures error == Some(DurabilityUnknown) ==> file.visible == Upsert(manifests, m, MAX_MANIFESTS)
    {
      var next := Take(Sort(NewestFirst(), [m] + Retained(manifests, m)), MAX_MANIFESTS);
      assert next == Upsert(manifests, m, MAX_MANIFESTS);
      error := file.AtomicWrite(next, io);
      if error == None {
        StoredStep(history, m, MAX_MANIFESTS);
        manifests := next;
        history := history + [m];
      }
    }

    /** The process starts again and reads what is on disk: the same history, or the one upsert in doubt as well. */
    method Restart(kept: seq<Manifest>)
      requires Valid() && kept in file.possible
      modifies this`manifests, this`history, file
      ensures Valid() && manifests == kept && file.OnDisk() == Disk.Disk(kept, {kept})
      ensures history == old(history) || exists m :: history == old(history) + [m]
    {
      if kept != manifests {
        ghost var m :| kept == Upsert(manifests, m, MAX_MANIFESTS);
        StoredStep(history, m, MAX_MANIFESTS);
        history := history + [m];
      }
      manifests := kept;
      file.visible, file.possible := kept, {kept};
    }
  }
}
