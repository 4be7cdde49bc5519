/**
The delivery hash is taken of a canonical form in which the keys of every object are sorted, so it depends on
the value of a record and not on the order in which its fields were written.
*/
module CanonicalHash {
  import Sorting

  /** Objects list their entries in the order of insertion. */
  datatype Json =
    | Null
    | Bool(b: bool)
    | Number(n: int)
    | Text(s: string)
    | Array(items: seq<Json>)
    | Object(entries: seq<Entry>)

  datatype Entry = Entry(key: string, value: Json)

  /** How keys compare. Distinct keys may tie: a comparison by locale is not an equality test. */
  ghost predicate IsKeyOrder(leq: (string, string) -> bool) {
    Sorting.IsOrder(leq)
  }

  function ByKey(leq: (string, string) -> bool): (Entry, Entry) -> bool {
    (a: Entry, b: Entry) => leq(a.key, b.key)
  }

  /** Sorting compares keys only, so it does not matter that the values are made canonical first. */
  function Canonicalize(leq: (string, string) -> bool, v: Json): Json
    decreases v
  {
    match v
    case Array(items) => Array(seq(|items|, i requires 0 <= i < |items| => Canonicalize(leq, items[i])))
    case Object(entries) => Object(Sorting.Sort(ByKey(leq), CanonicalEntries(leq, entries)))
    case _ => v
  }

  function CanonicalEntries(leq: (string, string) -> bool, entries: seq<Entry>): seq<Entry>
    decreases entries
  {
    seq(|entries|, i requires 0 <= i < |entries| => Entry(entries[i].key, Canonicalize(leq, entries[i].value)))
  }

  predicate DistinctKeys(entries: seq<Entry>) {
    forall i, j | 0 <= i < j < |entries| :: entries[i].key != entries[j].key
  }

  predicate Ties(leq: (string, string) -> bool, a: string, b: string) {
    leq(a, b) && leq(b, a)
  }

  /** No two entries have keys that the order cannot tell apart. */
  predicate NoTies(leq: (string, string) -> bool, entries: seq<Entry>) {
    forall i, j | 0 <= i < j < |entries| :: !Ties(leq, entries[i].key, entries[j].key)
  }

  /** No object has a key twice, or two keys that tie. */
  predicate WellFormed(leq: (string, string) -> bool, v: Json)
    decreases v
  {
    match v
    case Array(items) => forall i | 0 <= i < |items| :: WellFormed(leq, items[i])
    case Object(entries) =>
      && DistinctKeys(entries) && NoTies(leq, entries)
      && forall i | 0 <= i < |entries| :: WellFormed(leq, entries[i].value)
    case _ => true
  }

  /** Every entry of a has one of b with the same key and the same value. */
  predicate Covered(a: seq<Entry>, b: seq<Entry>)
    decreases a, b, 0
  {
    forall i | 0 <= i < |a| :: exists j | 0 <= j < |b| :: SameEntry(a[i], b[j])
  }

  predicate SameEntry(a: Entry, b: Entry)
    decreases a, b, 1
  {
    a.key == b.key && Same(a.value, b.value)
  }

  /** The same JSON value: arrays in order, objects whatever the order of their keys. */
  predicate Same(a: Json, b: Json)
    decreases a, b, 1
  {
    if a.Array? && b.Array? then
      |a.items| == |b.items| && forall i | 0 <= i < |a.items| :: Same(a.items[i], b.items[i])
    else if a.Object? && b.Object? then
      |a.entries| == |b.entries| && Covered(a.entries, b.entries)
    else a == b
  }

  // ---------------------------------------------------------------- lists with distinct keys

  lemma DistinctTail(a: seq<Entry>)
    requires DistinctKeys(a) && a != []
    ensures a == [a[0]] + a[1..] && DistinctKeys(a[1..]) && a[0] !in a[1..]
  {
    assert forall j | 0 <= j < |a| - 1 :: a[1..][j] == a[j + 1] && a[j + 1].key != a[0].key;
  }

  lemma {:induction false} DistinctIsCounted(a: seq<Entry>, x: Entry)
    requires DistinctKeys(a)
    ensures multiset(a)[x] == if x in a then 1 else 0
  {
    if a != [] {
      DistinctTail(a);
      DistinctIsCounted(a[1..], x);
    }
  }

  lemma SameMembersSameBag(a: seq<Entry>, b: seq<Entry>)
    requires DistinctKeys(a) && DistinctKeys(b) && forall x :: x in a <==> x in b
    ensures multiset(a) == multiset(b)
  {
    forall x ensures multiset(a)[x] == multiset(b)[x] {
      DistinctIsCounted(a, x);
      DistinctIsCounted(b, x);
    }
  }

  lemma NoTiesIsDistinguished(leq: (string, string) -> bool, a: seq<Entry>)
    requires NoTies(leq, a)
    ensures Sorting.Distinguished(ByKey(leq), a)
  {
    forall x, y | x in a && y in a && ByKey(leq)(x, y) && ByKey(leq)(y, x) ensures x == y {
      var i :| 0 <= i < |a| && a[i] == x;
      var j :| 0 <= j < |a| && a[j] == y;
      assert Ties(leq, a[i].key, a[j].key) && Ties(leq, a[j].key, a[i].key);
      assert !(i < j) && !(j < i);
    }
  }

  lemma ByKeyIsOrder(leq: (string, string) -> bool)
    requires IsKeyOrder(leq)
    ensures Sorting.IsOrder(ByKey(leq))
  {
    forall x, y ensures ByKey(leq)(x, y) || ByKey(leq)(y, x) {
      assert leq(x.key, y.key) || leq(y.key, x.key);
    }
    forall x, y, z | ByKey(leq)(x, y) && ByKey(leq)(y, z) ensures ByKey(leq)(x, z) {
      assert leq(x.key, y.key) && leq(y.key, z.key);
    }
  }

  lemma SortedSame(leq: (string, string) -> bool, a: seq<Entry>, b: seq<Entry>)
    requires IsKeyOrder(leq) && DistinctKeys(a) && DistinctKeys(b) && NoTies(leq, a)
    requires forall x :: x in a <==> x in b
    ensures Sorting.Sort(ByKey(leq), a) == Sorting.Sort(ByKey(leq), b)
  {
    var x, y := Sorting.Sort(ByKey(leq), a), Sorting.Sort(ByKey(leq), b);
    SameMembersSameBag(a, b);
    ByKeyIsOrder(leq);
    Sorting.SortSorts(ByKey(leq), a);
    Sorting.SortSorts(ByKey(leq), b);
    NoTiesIsDistinguished(leq, a);
    Sorting.SameElements(a, x);
    assert Sorting.Distinguished(ByKey(leq), x);
    Sorting.SortedIsUnique(ByKey(leq), x, y);
  }

  // ---------------------------------------------------------------- theorem

  lemma EntryAt(leq: (string, string) -> bool, entries: seq<Entry>, x: Entry) returns (i: nat)
    requires x in CanonicalEntries(leq, entries)
    ensures i < |entries| && x == Entry(entries[i].key, Canonicalize(leq, entries[i].value))
  {
    var c := CanonicalEntries(leq, entries);
    i :| 0 <= i < |c| && c[i] == x;
  }

  /** Two records have the same canonical form, and so the same hash, exactly when they are the same value. */
  lemma {:induction false} CanonicalIff(leq: (string, string) -> bool, a: Json, b: Json)
    requires IsKeyOrder(leq) && WellFormed(leq, a) && WellFormed(leq, b)
    ensures Canonicalize(leq, a) == Canonicalize(leq, b) <==> Same(a, b)
    decreases a
  {
    if a.Array? && b.Array? {
      ArrayIff(leq, a, b);
    } else if a.Object? && b.Object? {
      forall i, j | 0 <= i < |a.entries| && 0 <= j < |b.entries|
        ensures Canonicalize(leq, a.entries[i].value) == Canonicalize(leq, b.entries[j].value)
           <==> Same(a.entries[i].value, b.entries[j].value)
      {
        CanonicalIff(leq, a.entries[i].value, b.entries[j].value);
      }
      if Canonicalize(leq, a) == Canonicalize(leq, b) {
        CanonicalMeansSame(leq, a.entries, b.entries);
      }
      if Same(a, b) {
        SameMeansCanonical(leq, a.entries, b.entries);
      }
    }
  }

  lemma {:induction false} ArrayIff(leq: (string, string) -> bool, a: Json, b: Json)
    requires IsKeyOrder(leq) && WellFormed(leq, a) && WellFormed(leq, b) && a.Array? && b.Array?
    ensures Canonicalize(leq, a) == Canonicalize(leq, b) <==> Same(a, b)
    decreases a, 0
  {
    var x, y := Canonicalize(leq, a).items, Canonicalize(leq, b).items;
    if |a.items| == |b.items| {
      forall i | 0 <= i < |a.items| ensures x[i] == y[i] <==> Same(a.items[i], b.items[i]) {
        CanonicalIff(leq, a.items[i], b.items[i]);
      }
    }
  }

  /** The two forms agree on every pair of entries. */
  ghost predicate Agree(leq: (string, string) -> bool, a: seq<Entry>, b: seq<Entry>) {
    forall i, j | 0 <= i < |a| && 0 <= j < |b| ::
      Canonicalize(leq, a[i].value) == Canonicalize(leq, b[j].value) <==> Same(a[i].value, b[j].value)
  }

  lemma CanonicalMeansSame(leq: (string, string) -> bool, a: seq<Entry>, b: seq<Entry>)
    requires Agree(leq, a, b)
    requires Sorting.Sort(ByKey(leq), CanonicalEntries(leq, a)) == Sorting.Sort(ByKey(leq), CanonicalEntries(leq, b))
    ensures |a| == |b| && Covered(a, b)
  {
    var x, y := CanonicalEntries(leq, a), CanonicalEntries(leq, b);
    assert multiset(x) == multiset(y);
    assert |x| == |multiset(x)| == |multiset(y)| == |y|;
    Sorting.SameElements(x, y);
    forall i | 0 <= i < |a| ensures exists j | 0 <= j < |b| :: SameEntry(a[i], b[j]) {
      assert x[i] in y;
      var j := EntryAt(leq, b, x[i]);
      assert SameEntry(a[i], b[j]);
    }
  }

  lemma CoveredMembers(leq: (string, string) -> bool, a: seq<Entry>, b: seq<Entry>)
    requires Agree(leq, a, b) && Covered(a, b)
    ensures forall x <- CanonicalEntries(leq, a) :: x in CanonicalEntries(leq, b)
  {
    forall x | x in CanonicalEntries(leq, a) ensures x in CanonicalEntries(leq, b) {
      var i := EntryAt(leq, a, x);
      var j :| 0 <= j < |b| && SameEntry(a[i], b[j]);
      assert CanonicalEntries(leq, b)[j] == x;
    }
  }

  function Keys(entries: seq<Entry>): set<string> {
    set i | 0 <= i < |entries| :: entries[i].key
  }

  lemma {:induction false} KeyCount(entries: seq<Entry>)
    requires DistinctKeys(entries)
    ensures |Keys(entries)| == |entries|
  {
    if entries != [] {
      var n := |entries| - 1;
      KeyCount(entries[..n]);
      assert Keys(entries) == Keys(entries[..n]) + {entries[n].key};
      assert entries[n].key !in Keys(entries[..n]);
    }
  }

  lemma SubsetOfSameSize(a: set<string>, b: set<string>)
    requires a <= b && |a| == |b|
    ensures a == b
  {
    assert b == a + (b - a);
  }

  /** With as many keys on both sides, covering one way is covering both ways. */
  lemma CoveredBack(leq: (string, string) -> bool, a: seq<Entry>, b: seq<Entry>)
    requires Agree(leq, a, b) && Covered(a, b) && |a| == |b| && DistinctKeys(a) && DistinctKeys(b)
    ensures forall y <- CanonicalEntries(leq, b) :: y in CanonicalEntries(leq, a)
  {
    forall k | k in Keys(a) ensures k in Keys(b) {
      var i :| 0 <= i < |a| && a[i].key == k;
      var j :| 0 <= j < |b| && SameEntry(a[i], b[j]);
    }
    KeyCount(a);
    KeyCount(b);
    SubsetOfSameSize(Keys(a), Keys(b));
    forall y | y in CanonicalEntries(leq, b) ensures y in CanonicalEntries(leq, a) {
      var j := EntryAt(leq, b, y);
      assert b[j].key in Keys(b);
      var i :| 0 <= i < |a| && a[i].key == b[j].key;
      var k :| 0 <= k < |b| && SameEntry(a[i], b[k]);
      assert k == j;
      assert CanonicalEntries(leq, a)[i] == y;
    }
  }

  lemma SameMeansCanonical(leq: (string, string) -> bool, a: seq<Entry>, b: seq<Entry>)
    requires IsKeyOrder(leq) && Agree(leq, a, b) && Covered(a, b) && |a| == |b|
    requires DistinctKeys(a) && DistinctKeys(b) && NoTies(leq, a)
    ensures Sorting.Sort(ByKey(leq), CanonicalEntries(leq, a)) == Sorting.Sort(ByKey(leq), CanonicalEntries(leq, b))
  {
    CoveredMembers(leq, a, b);
    CoveredBack(leq, a, b);
    SortedSame(leq, CanonicalEntries(leq, a), CanonicalEntries(leq, b));
  }
}
