/** Sorted lists for any order; with distinct keys there is only one, so any sort gives it. */
module Sorting {
  ghost predicate IsOrder<T(!new)>(leq: (T, T) -> bool) {
    && (forall x, y :: leq(x, y) || leq(y, x))
    && (forall x, y, z :: leq(x, y) && leq(y, z) ==> leq(x, z))
  }

  predicate IsSorted<T>(leq: (T, T) -> bool, s: seq<T>) {
    forall i, j | 0 <= i < j < |s| :: leq(s[i], s[j])
  }

  predicate PrecedesAll<T(==)>(leq: (T, T) -> bool, x: T, s: seq<T>) {
    forall y <- s :: leq(x, y)
  }

  /** Elements that the order cannot tell apart are equal. */
  predicate Distinguished<T(==)>(leq: (T, T) -> bool, s: seq<T>) {
    forall x <- s, y <- s :: leq(x, y) && leq(y, x) ==> x == y
  }

  function Insert<T>(leq: (T, T) -> bool, x: T, s: seq<T>): (r: seq<T>)
    ensures multiset(r) == multiset(s) + multiset{x}
  {
    if s == [] then [x]
    else if leq(x, s[0]) then [x] + s
    else
      assert s == [s[0]] + s[1..];
      [s[0]] + Insert(leq, x, s[1..])
  }

  function Sort<T>(leq: (T, T) -> bool, s: seq<T>): (r: seq<T>)
    ensures multiset(r) == multiset(s)
  {
    if s == [] then []
    else
      assert s == [s[0]] + s[1..];
      Insert(leq, s[0], Sort(leq, s[1..]))
  }

  lemma SortLength<T>(leq: (T, T) -> bool, s: seq<T>)
    ensures |Sort(leq, s)| == |s|
  {
    assert |multiset(Sort(leq, s))| == |multiset(s)|;
  }

  lemma SortedCons<T>(leq: (T, T) -> bool, x: T, s: seq<T>)
    requires IsSorted(leq, s) && PrecedesAll(leq, x, s)
    ensures IsSorted(leq, [x] + s)
  {
  }

  lemma SortedFirst<T>(leq: (T, T) -> bool, s: seq<T>)
    requires IsSorted(leq, s) && s != []
    ensures IsSorted(leq, s[1..]) && PrecedesAll(leq, s[0], s[1..])
  {
    forall y | y in s[1..] ensures leq(s[0], y) {
      var j :| 0 <= j < |s| - 1 && s[1..][j] == y;
      assert s[j + 1] == y;
    }
  }

  lemma InsertMembers<T>(leq: (T, T) -> bool, x: T, s: seq<T>)
    ensures forall y :: y in Insert(leq, x, s) <==> y == x || y in s
  {
    forall y ensures y in Insert(leq, x, s) <==> y == x || y in s {
      assert y in Insert(leq, x, s) <==> y in multiset(Insert(leq, x, s));
    }
  }

  lemma {:induction false} InsertSorts<T(!new)>(leq: (T, T) -> bool, x: T, s: seq<T>)
    requires IsOrder(leq) && IsSorted(leq, s)
    ensures IsSorted(leq, Insert(leq, x, s))
  {
    if s != [] {
      var first, rest := s[0], s[1..];
      SortedFirst(leq, s);
      if leq(x, first) {
        SortedCons(leq, x, s);
      } else {
        InsertSorts(leq, x, rest);
        InsertMembers(leq, x, rest);
        SortedCons(leq, first, Insert(leq, x, rest));
      }
    }
  }

  lemma {:induction false} SortSorts<T(!new)>(leq: (T, T) -> bool, s: seq<T>)
    requires IsOrder(leq)
    ensures IsSorted(leq, Sort(leq, s))
  {
    if s != [] {
      SortSorts(leq, s[1..]);
      InsertSorts(leq, s[0], Sort(leq, s[1..]));
    }
  }

  lemma HeadsAgree<T(!new)>(leq: (T, T) -> bool, a: seq<T>, b: seq<T>)
    requires IsOrder(leq) && IsSorted(leq, a) && IsSorted(leq, b) && Distinguished(leq, a)
    requires a != [] && b != [] && multiset(a) == multiset(b)
    ensures a[0] == b[0]
  {
    assert a[0] in multiset(a) && b[0] in multiset(b);
    assert a[0] in b && b[0] in a;
  }

  lemma TailKeeps<T>(leq: (T, T) -> bool, a: seq<T>)
    requires IsSorted(leq, a) && Distinguished(leq, a) && a != []
    ensures IsSorted(leq, a[1..]) && Distinguished(leq, a[1..])
    ensures multiset(a[1..]) == multiset(a) - multiset{a[0]} && a == [a[0]] + a[1..]
  {
    assert a == [a[0]] + a[1..];
  }

  lemma {:induction false} SortedIsUnique<T(!new)>(leq: (T, T) -> bool, a: seq<T>, b: seq<T>)
    requires IsOrder(leq) && IsSorted(leq, a) && IsSorted(leq, b) && Distinguished(leq, a)
    requires multiset(a) == multiset(b)
    ensures a == b
    decreases |a|
  {
    assert |a| == |multiset(a)| == |multiset(b)| == |b|;
    if a != [] {
      HeadsAgree(leq, a, b);
      SameElements(a, b);
      TailKeeps(leq, a);
      assert Distinguished(leq, b);
      TailKeeps(leq, b);
      SortedIsUnique(leq, a[1..], b[1..]);
    }
  }

  lemma SameElements<T>(a: seq<T>, b: seq<T>)
    requires multiset(a) == multiset(b)
    ensures forall x :: x in a <==> x in b
  {
    forall x ensures x in a <==> x in b {
      assert x in a <==> x in multiset(a);
      assert x in b <==> x in multiset(b);
    }
  }
}
