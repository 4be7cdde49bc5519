/** Combining the status of a repository with its line counts and file sizes into a bounded, ordered list. */
module GitChanges {
  import opened Options
  import opened GitStatus
  import Sorting

  const MAX_CHANGED_FILES: nat := 500
  const LARGE_FILE_BYTES: nat := 1048576

  datatype Numstat = Numstat(path: Text, additions: Option<nat>, deletions: Option<nat>, binary: bool)

  datatype ChangedFile = ChangedFile(
    status: StatusFile, additions: Option<nat>, deletions: Option<nat>, binary: bool, large: bool,
    sizeBytes: Option<nat>)

  datatype Totals = Totals(
    fileCount: nat, additions: nat, deletions: nat, unavailableLineCount: nat, conflictCount: nat)

  datatype Aggregation = Aggregation(files: seq<ChangedFile>, totals: Totals, truncated: bool)

  // ---------------------------------------------------------------- order

  function Rank(f: ChangedFile): int {
    var s := f.status;
    if s.conflicted then 0 else if s.staged && s.unstaged then 1 else if s.staged then 2 else if s.unstaged then 3 else 4
  }

  predicate TextLess(a: Text, b: Text) {
    b != [] && (a == [] || a[0] < b[0] || (a[0] == b[0] && TextLess(a[1..], b[1..])))
  }

  function Compare(left: ChangedFile, right: ChangedFile): int {
    if Rank(left) != Rank(right) then Rank(left) - Rank(right)
    else if TextLess(left.status.path, right.status.path) then -1
    else if TextLess(right.status.path, left.status.path) then 1
    else 0
  }

  lemma {:induction false} TextOrder(a: Text, b: Text)
    ensures TextLess(a, b) || TextLess(b, a) || a == b
    ensures !(TextLess(a, b) && TextLess(b, a))
  {
    if a != [] && b != [] && a[0] == b[0] {
      TextOrder(a[1..], b[1..]);
      assert a == [a[0]] + a[1..] && b == [b[0]] + b[1..];
    }
  }

  lemma {:induction false} TextLessTransitive(a: Text, b: Text, c: Text)
    requires TextLess(a, b) && TextLess(b, c)
    ensures TextLess(a, c)
  {
    if a != [] && a[0] == b[0] == c[0] {
      TextLessTransitive(a[1..], b[1..], c[1..]);
    }
  }

  lemma CompareIsOrder(x: ChangedFile, y: ChangedFile, z: ChangedFile)
    ensures Compare(x, y) <= 0 || Compare(y, x) <= 0
    ensures Compare(x, y) <= 0 && Compare(y, x) <= 0 ==> x.status.path == y.status.path
    ensures Compare(x, y) <= 0 && Compare(y, z) <= 0 ==> Compare(x, z) <= 0
  {
    var a, b, c := x.status.path, y.status.path, z.status.path;
    TextOrder(a, b);
    TextOrder(b, c);
    TextOrder(a, c);
    if TextLess(a, b) && TextLess(b, c) {
      TextLessTransitive(a, b, c);
    }
  }

  function Order(): (ChangedFile, ChangedFile) -> bool {
    (left: ChangedFile, right: ChangedFile) => Compare(left, right) <= 0
  }

  lemma OrderIsOrder()
    ensures Sorting.IsOrder(Order())
  {
    forall x, y ensures Order()(x, y) || Order()(y, x) {
      CompareIsOrder(x, y, y);
    }
    forall x, y, z | Order()(x, y) && Order()(y, z) ensures Order()(x, z) {
      CompareIsOrder(x, y, z);
    }
  }

  predicate DistinctFiles(files: seq<ChangedFile>) {
    forall f <- files, g <- files :: f.status.path == g.status.path ==> f == g
  }

  /** With distinct paths the listing does not depend on which sort the engine uses. */
  lemma AnySortAgrees(files: seq<ChangedFile>, sorted: seq<ChangedFile>)
    requires DistinctFiles(files) && multiset(sorted) == multiset(files) && Sorting.IsSorted(Order(), sorted)
    ensures sorted == Sorting.Sort(Order(), files)
  {
    OrderIsOrder();
    Sorting.SortSorts(Order(), files);
    Sorting.SameElements(files, sorted);
    forall f, g | f in sorted && g in sorted && Order()(f, g) && Order()(g, f) ensures f == g {
      CompareIsOrder(f, g, f);
    }
    Sorting.SortedIsUnique(Order(), sorted, Sorting.Sort(Order(), files));
  }

  // ---------------------------------------------------------------- aggregation

  /** The line counts of a path; a later entry replaces an earlier one. */
  function StatOf(numstats: seq<Numstat>, path: Text): seq<Numstat> {
    if numstats == [] then []
    else
      var n := |numstats| - 1;
      if numstats[n].path == path then [numstats[n]] else StatOf(numstats[..n], path)
  }

  function RelatedStats(s: StatusFile, numstats: seq<Numstat>): seq<Numstat> {
    StatOf(numstats, s.path) + (if s.previousPath.Some? then StatOf(numstats, s.previousPath.value) else [])
  }

  function Value(count: Option<nat>): nat {
    if count.Some? then count.value else 0
  }

  function SumOf(stats: seq<Numstat>, additions: bool): nat {
    if stats == [] then 0
    else Value(if additions then stats[0].additions else stats[0].deletions) + SumOf(stats[1..], additions)
  }

  function Changed(s: StatusFile, numstats: seq<Numstat>, sizes: map<Text, nat>): ChangedFile {
    var stats := RelatedStats(s, numstats);
    var binary := exists e <- stats :: e.binary;
    var numeric := stats != [] && forall e <- stats :: e.additions.Some? && e.deletions.Some?;
    var size := if s.path in sizes then Some(sizes[s.path]) else None;
    ChangedFile(
      s,
      if binary || !numeric then None else Some(SumOf(stats, true)),
      if binary || !numeric then None else Some(SumOf(stats, false)),
      binary,
      size.Some? && LARGE_FILE_BYTES < size.value,
      size)
  }

  function AllChanged(statuses: seq<StatusFile>, numstats: seq<Numstat>, sizes: map<Text, nat>): seq<ChangedFile> {
    seq(|statuses|, i requires 0 <= i < |statuses| => Changed(statuses[i], numstats, sizes))
  }

  function TotalsOf(files: seq<ChangedFile>): Totals {
    if files == [] then Totals(0, 0, 0, 0, 0)
    else
      var t, f := TotalsOf(files[..|files| - 1]), files[|files| - 1];
      Totals(t.fileCount + 1, t.additions + Value(f.additions), t.deletions + Value(f.deletions),
             t.unavailableLineCount + (if f.additions.None? then 1 else 0),
             t.conflictCount + (if f.status.conflicted then 1 else 0))
  }

  function Aggregate(statuses: seq<StatusFile>, numstats: seq<Numstat>, sizes: map<Text, nat>): Aggregation {
    var sorted := Sorting.Sort(Order(), AllChanged(statuses, numstats, sizes));
    var files := Cut(sorted);
    Aggregation(files, TotalsOf(files), MAX_CHANGED_FILES < |sorted|)
  }

  // ---------------------------------------------------------------- what is listed about a file

  /** The line counts that hold for a path: those of its last entry, if it has one. */
  predicate IsStat(numstats: seq<Numstat>, path: Text, stat: Option<Numstat>) {
    match stat
    case None => forall e <- numstats :: e.path != path
    case Some(e) =>
      exists i | 0 <= i < |numstats| ::
        numstats[i] == e && e.path == path && forall j | i < j < |numstats| :: numstats[j].path != path
  }

  lemma {:induction false} StatIs(numstats: seq<Numstat>, path: Text, stat: Option<Numstat>)
    requires IsStat(numstats, path, stat)
    ensures StatOf(numstats, path) == if stat.Some? then [stat.value] else []
  {
    if numstats != [] {
      var n := |numstats| - 1;
      if numstats[n].path == path {
        assert numstats[n] in numstats;
      } else {
        assert forall i | 0 <= i < n :: numstats[..n][i] == numstats[i];
        StatIs(numstats[..n], path, stat);
      }
    }
  }

  /** The entry, if there is one, has both counts. */
  predicate Counted(stat: Option<Numstat>) {
    stat.Some? ==> !stat.value.binary && stat.value.additions.Some? && stat.value.deletions.Some?
  }

  function AdditionsIn(stat: Option<Numstat>): nat {
    if stat.Some? && stat.value.additions.Some? then stat.value.additions.value else 0
  }

  function DeletionsIn(stat: Option<Numstat>): nat {
    if stat.Some? && stat.value.deletions.Some? then stat.value.deletions.value else 0
  }

  lemma SumOfOne(a: Numstat, additions: bool)
    ensures SumOf([a], additions) == Value(if additions then a.additions else a.deletions)
  {
    assert SumOf([a][1..], additions) == 0;
  }

  lemma SumOfTwo(a: Numstat, b: Numstat, additions: bool)
    ensures SumOf([a] + [b], additions)
         == Value(if additions then a.additions else a.deletions) + Value(if additions then b.additions else b.deletions)
  {
    SumOfOne(b, additions);
    assert ([a] + [b])[1..] == [b];
  }

  lemma StatsAre(s: StatusFile, numstats: seq<Numstat>, own: Option<Numstat>, previous: Option<Numstat>)
    requires IsStat(numstats, s.path, own)
    requires if s.previousPath.Some? then IsStat(numstats, s.previousPath.value, previous) else previous == None
    ensures var stats := RelatedStats(s, numstats);
            && (forall e :: e in stats <==> own == Some(e) || previous == Some(e))
            && SumOf(stats, true) == AdditionsIn(own) + AdditionsIn(previous)
            && SumOf(stats, false) == DeletionsIn(own) + DeletionsIn(previous)
  {
    StatIs(numstats, s.path, own);
    if s.previousPath.Some? {
      StatIs(numstats, s.previousPath.value, previous);
    }
    if own.Some? && previous.Some? {
      SumOfTwo(own.value, previous.value, true);
      SumOfTwo(own.value, previous.value, false);
    } else if own.Some? {
      assert RelatedStats(s, numstats) == [own.value];
      SumOfOne(own.value, true);
      SumOfOne(own.value, false);
    } else if previous.Some? {
      assert RelatedStats(s, numstats) == [previous.value];
      SumOfOne(previous.value, true);
      SumOfOne(previous.value, false);
    }
  }

  /**
  The counts listed for a file are the sums over its path and its previous path; they are absent when neither has
  an entry, or one is binary or lacks a count.
  */
  lemma CountsOfAFile(
      s: StatusFile, numstats: seq<Numstat>, sizes: map<Text, nat>, own: Option<Numstat>, previous: Option<Numstat>)
    requires IsStat(numstats, s.path, own)
    requires if s.previousPath.Some? then IsStat(numstats, s.previousPath.value, previous) else previous == None
    ensures var f := Changed(s, numstats, sizes);
            var counted := (own.Some? || previous.Some?) && Counted(own) && Counted(previous);
            && f.status == s
            && (f.binary <==> (own.Some? && own.value.binary) || (previous.Some? && previous.value.binary))
            && f.additions == (if counted then Some(AdditionsIn(own) + AdditionsIn(previous)) else None)
            && f.deletions == (if counted then Some(DeletionsIn(own) + DeletionsIn(previous)) else None)
  {
    var stats := RelatedStats(s, numstats);
    StatsAre(s, numstats, own, previous);
    assert own.Some? ==> own.value in stats;
    assert previous.Some? ==> previous.value in stats;
    assert stats != [] ==> stats[0] in stats;
  }

  function Sum(counts: seq<nat>): nat {
    if counts == [] then 0 else Sum(counts[..|counts| - 1]) + counts[|counts| - 1]
  }

  lemma SumAppend(counts: seq<nat>, n: nat)
    ensures Sum(counts + [n]) == Sum(counts) + n
  {
    assert (counts + [n])[..|counts|] == counts;
  }

  function AllAdditions(files: seq<ChangedFile>): seq<nat> {
    seq(|files|, i requires 0 <= i < |files| => if files[i].additions.Some? then files[i].additions.value else 0)
  }

  function AllDeletions(files: seq<ChangedFile>): seq<nat> {
    seq(|files|, i requires 0 <= i < |files| => if files[i].deletions.Some? then files[i].deletions.value else 0)
  }

  lemma CountsLast(files: seq<ChangedFile>)
    requires files != []
    ensures var n := |files| - 1;
            && AllAdditions(files) == AllAdditions(files[..n]) + [Value(files[n].additions)]
            && AllDeletions(files) == AllDeletions(files[..n]) + [Value(files[n].deletions)]
  {
  }

  function WithoutCounts(files: seq<ChangedFile>): set<int> {
    set i | 0 <= i < |files| && files[i].additions.None?
  }

  function InConflict(files: seq<ChangedFile>): set<int> {
    set i | 0 <= i < |files| && files[i].status.conflicted
  }

  lemma WithoutCountsLast(files: seq<ChangedFile>)
    requires files != []
    ensures var n := |files| - 1;
            |WithoutCounts(files)| == |WithoutCounts(files[..n])| + if files[n].additions.None? then 1 else 0
  {
    var n := |files| - 1;
    assert WithoutCounts(files) == WithoutCounts(files[..n]) + if files[n].additions.None? then {n} else {};
  }

  lemma InConflictLast(files: seq<ChangedFile>)
    requires files != []
    ensures var n := |files| - 1;
            |InConflict(files)| == |InConflict(files[..n])| + if files[n].status.conflicted then 1 else 0
  {
    var n := |files| - 1;
    assert InConflict(files) == InConflict(files[..n]) + if files[n].status.conflicted then {n} else {};
  }

  /** The totals are those of the listed files. */
  lemma {:induction false} TotalsAreSums(files: seq<ChangedFile>)
    ensures var t := TotalsOf(files);
            && t.fileCount == |files|
            && t.additions == Sum(AllAdditions(files)) && t.deletions == Sum(AllDeletions(files))
            && t.unavailableLineCount == |WithoutCounts(files)| && t.conflictCount == |InConflict(files)|
  {
    if files != [] {
      var n := |files| - 1;
      TotalsAreSums(files[..n]);
      CountsLast(files);
      SumAppend(AllAdditions(files[..n]), Value(files[n].additions));
      SumAppend(AllDeletions(files[..n]), Value(files[n].deletions));
      WithoutCountsLast(files);
      InConflictLast(files);
    }
  }

  /** Conflicts come first, then what is staged and unstaged, staged, unstaged, and the rest; then by path. */
  predicate ListedBefore(a: StatusFile, b: StatusFile) {
    && (b.conflicted ==> a.conflicted)
    && (b.staged && b.unstaged ==> a.conflicted || (a.staged && a.unstaged))
    && (b.staged ==> a.conflicted || a.staged)
    && (b.unstaged ==> a.conflicted || a.staged || a.unstaged)
    && ((a.conflicted && b.conflicted)
        || (!a.conflicted && !b.conflicted && a.staged == b.staged && a.unstaged == b.unstaged)
        ==> a.path == b.path || TextLess(a.path, b.path))
  }

  lemma ListingOrder(statuses: seq<StatusFile>, numstats: seq<Numstat>, sizes: map<Text, nat>, i: nat, j: nat)
    requires i < j < |Aggregate(statuses, numstats, sizes).files|
    ensures var files := Aggregate(statuses, numstats, sizes).files; ListedBefore(files[i].status, files[j].status)
  {
    var files := Aggregate(statuses, numstats, sizes).files;
    OrderIsOrder();
    Sorting.SortSorts(Order(), AllChanged(statuses, numstats, sizes));
    assert Order()(files[i], files[j]);
    TextOrder(files[i].status.path, files[j].status.path);
  }

  // ---------------------------------------------------------------- the second pass

  /** A file without what its size tells. */
  function Sizeless(f: ChangedFile): ChangedFile {
    f.(large := false, sizeBytes := None)
  }

  function AllSizeless(files: seq<ChangedFile>): seq<ChangedFile> {
    seq(|files|, i requires 0 <= i < |files| => Sizeless(files[i]))
  }

  lemma SizelessFirst(files: seq<ChangedFile>)
    requires files != []
    ensures AllSizeless(files) == [Sizeless(files[0])] + AllSizeless(files[1..])
    ensures AllSizeless(files)[1..] == AllSizeless(files[1..])
  {
  }

  lemma SizelessPrefix(files: seq<ChangedFile>, n: nat)
    requires n <= |files|
    ensures AllSizeless(files[..n]) == AllSizeless(files)[..n]
  {
  }

  lemma CompareIgnoresSizes(f: ChangedFile, g: ChangedFile)
    ensures Order()(Sizeless(f), Sizeless(g)) == Order()(f, g)
  {
  }

  lemma SizelessCons(f: ChangedFile, files: seq<ChangedFile>)
    ensures AllSizeless([f] + files) == [Sizeless(f)] + AllSizeless(files)
  {
    assert ([f] + files)[1..] == files;
    SizelessFirst([f] + files);
  }

  lemma InsertCons(f: ChangedFile, first: ChangedFile, rest: seq<ChangedFile>)
    ensures Sorting.Insert(Order(), f, [first] + rest)
         == if Order()(f, first) then [f] + ([first] + rest) else [first] + Sorting.Insert(Order(), f, rest)
  {
    assert ([first] + rest)[1..] == rest;
  }

  lemma {:induction false} InsertIgnoresSizes(f: ChangedFile, files: seq<ChangedFile>)
    ensures AllSizeless(Sorting.Insert(Order(), f, files))
         == Sorting.Insert(Order(), Sizeless(f), AllSizeless(files))
  {
    if files != [] {
      var first, rest := files[0], files[1..];
      assert files == [first] + rest;
      SizelessCons(first, rest);
      CompareIgnoresSizes(f, first);
      InsertCons(f, first, rest);
      InsertCons(Sizeless(f), Sizeless(first), AllSizeless(rest));
      if Order()(f, first) {
        SizelessCons(f, files);
      } else {
        InsertIgnoresSizes(f, rest);
        SizelessCons(first, Sorting.Insert(Order(), f, rest));
      }
    }
  }

  lemma SortCons(f: ChangedFile, files: seq<ChangedFile>)
    ensures Sorting.Sort(Order(), [f] + files) == Sorting.Insert(Order(), f, Sorting.Sort(Order(), files))
  {
    assert ([f] + files)[1..] == files;
  }

  lemma {:induction false} SortIgnoresSizes(files: seq<ChangedFile>)
    ensures AllSizeless(Sorting.Sort(Order(), files)) == Sorting.Sort(Order(), AllSizeless(files))
  {
    if files != [] {
      var first, rest := files[0], files[1..];
      assert files == [first] + rest;
      SizelessCons(first, rest);
      SortCons(first, rest);
      SortCons(Sizeless(first), AllSizeless(rest));
      SortIgnoresSizes(rest);
      InsertIgnoresSizes(first, Sorting.Sort(Order(), rest));
    }
  }

  lemma {:induction false} TotalsIgnoreSizes(files: seq<ChangedFile>)
    ensures TotalsOf(AllSizeless(files)) == TotalsOf(files)
  {
    if files != [] {
      var n := |files| - 1;
      assert AllSizeless(files)[..n] == AllSizeless(files[..n]);
      TotalsIgnoreSizes(files[..n]);
    }
  }

  function SizesOf(files: seq<ChangedFile>, read: Text -> Option<nat>): map<Text, nat> {
    map f <- files | read(f.status.path).Some? :: f.status.path := read(f.status.path).value
  }

  lemma SameButSizes(statuses: seq<StatusFile>, numstats: seq<Numstat>, a: map<Text, nat>, b: map<Text, nat>)
    ensures AllSizeless(AllChanged(statuses, numstats, a)) == AllSizeless(AllChanged(statuses, numstats, b))
  {
    forall i | 0 <= i < |statuses|
      ensures Sizeless(Changed(statuses[i], numstats, a)) == Sizeless(Changed(statuses[i], numstats, b))
    {
    }
  }

  lemma SizesChangeNothingElse(
      statuses: seq<StatusFile>, numstats: seq<Numstat>, a: map<Text, nat>, b: map<Text, nat>)
    ensures var first, second := Aggregate(statuses, numstats, a), Aggregate(statuses, numstats, b);
            && AllSizeless(first.files) == AllSizeless(second.files)
            && first.totals == second.totals && first.truncated == second.truncated
  {
    var x, y := AllChanged(statuses, numstats, a), AllChanged(statuses, numstats, b);
    SameButSizes(statuses, numstats, a, b);
    SortIgnoresSizes(x);
    SortIgnoresSizes(y);
    CutIgnoresSizes(Sorting.Sort(Order(), x), Sorting.Sort(Order(), y));
  }

  function Cut(sorted: seq<ChangedFile>): seq<ChangedFile> {
    if MAX_CHANGED_FILES < |sorted| then sorted[..MAX_CHANGED_FILES] else sorted
  }

  lemma CutIgnoresSizes(a: seq<ChangedFile>, b: seq<ChangedFile>)
    requires AllSizeless(a) == AllSizeless(b)
    ensures |a| == |b| && AllSizeless(Cut(a)) == AllSizeless(Cut(b)) && TotalsOf(Cut(a)) == TotalsOf(Cut(b))
  {
    assert |a| == |AllSizeless(a)| == |b|;
    if MAX_CHANGED_FILES < |a| {
      SizelessPrefix(a, MAX_CHANGED_FILES);
      SizelessPrefix(b, MAX_CHANGED_FILES);
    }
    TotalsIgnoreSizes(Cut(a));
    TotalsIgnoreSizes(Cut(b));
  }

  lemma {:induction false} ListedFile(statuses: seq<StatusFile>, numstats: seq<Numstat>, sizes: map<Text, nat>, f: ChangedFile)
    requires f in Aggregate(statuses, numstats, sizes).files
    ensures exists i | 0 <= i < |statuses| :: f == Changed(statuses[i], numstats, sizes)
  {
    var all := AllChanged(statuses, numstats, sizes);
    assert f in multiset(Sorting.Sort(Order(), all));
    assert f in all;
  }

  lemma ListedSize(statuses: seq<StatusFile>, numstats: seq<Numstat>, sizes: map<Text, nat>, f: ChangedFile)
    requires f in Aggregate(statuses, numstats, sizes).files
    ensures f.sizeBytes == if f.status.path in sizes then Some(sizes[f.status.path]) else None
    ensures f.large <==> f.sizeBytes.Some? && LARGE_FILE_BYTES < f.sizeBytes.value
  {
    ListedFile(statuses, numstats, sizes, f);
  }

  lemma SizelessAlready(files: seq<ChangedFile>)
    requires forall f <- files :: f.sizeBytes.None? && !f.large
    ensures AllSizeless(files) == files
  {
    assert forall i | 0 <= i < |files| :: files[i] in files && Sizeless(files[i]) == files[i];
  }

  lemma SizelessIndex(a: seq<ChangedFile>, b: seq<ChangedFile>, f: ChangedFile)
    requires AllSizeless(a) == b && f in a
    ensures Sizeless(f) in b
  {
    var i :| 0 <= i < |a| && a[i] == f;
    assert b[i] == Sizeless(f);
  }

  /**
  Sizes are read for the files the first pass lists only, and that is enough: the second pass lists exactly
  the same files in the same order with the same totals, each with the size that was read for it.
  */
  lemma SecondPassAgrees(statuses: seq<StatusFile>, numstats: seq<Numstat>, read: Text -> Option<nat>)
    ensures var first := Aggregate(statuses, numstats, map[]);
            var second := Aggregate(statuses, numstats, SizesOf(first.files, read));
            && AllSizeless(second.files) == first.files
            && second.totals == first.totals && second.truncated == first.truncated
            && forall f <- second.files ::
                 && f.sizeBytes == read(f.status.path)
                 && (f.large <==> f.sizeBytes.Some? && LARGE_FILE_BYTES < f.sizeBytes.value)
  {
    var first := Aggregate(statuses, numstats, map[]);
    var sizes := SizesOf(first.files, read);
    var second := Aggregate(statuses, numstats, sizes);
    SizesChangeNothingElse(statuses, numstats, map[], sizes);
    forall f <- first.files ensures f.sizeBytes.None? && !f.large {
      ListedSize(statuses, numstats, map[], f);
    }
    SizelessAlready(first.files);
    forall f <- second.files
      ensures f.sizeBytes == read(f.status.path)
      ensures f.large <==> f.sizeBytes.Some? && LARGE_FILE_BYTES < f.sizeBytes.value
    {
      ListedSize(statuses, numstats, sizes, f);
      SizelessIndex(second.files, first.files, f);
    }
  }

  /** The list is sorted, and whatever the bound cuts off comes after everything listed. */
  lemma ListsTheFirst(statuses: seq<StatusFile>, numstats: seq<Numstat>, sizes: map<Text, nat>)
    ensures var a := Aggregate(statuses, numstats, sizes);
            var all := AllChanged(statuses, numstats, sizes);
            var sorted := Sorting.Sort(Order(), all);
            && multiset(sorted) == multiset(all) && a.files <= sorted
            && |a.files| == (if a.truncated then MAX_CHANGED_FILES else |statuses|)
            && (a.truncated <==> MAX_CHANGED_FILES < |statuses|)
            && forall i, j | 0 <= i < j < |sorted| && i < |a.files| :: Compare(a.files[i], sorted[j]) <= 0
  {
    var all := AllChanged(statuses, numstats, sizes);
    OrderIsOrder();
    Sorting.SortSorts(Order(), all);
    Sorting.SortLength(Order(), all);
    var sorted := Sorting.Sort(Order(), all);
    forall i, j | 0 <= i < j < |sorted| ensures Compare(sorted[i], sorted[j]) <= 0 {
      assert Order()(sorted[i], sorted[j]);
    }
  }

  /** What the parser returns has distinct paths, so the order of its files is determined. */
  lemma ParsedFilesAreDistinct(statuses: seq<StatusFile>, numstats: seq<Numstat>, sizes: map<Text, nat>)
    requires DistinctPaths(statuses)
    ensures DistinctFiles(AllChanged(statuses, numstats, sizes))
  {
    var all := AllChanged(statuses, numstats, sizes);
    assert forall i | 0 <= i < |all| :: all[i].status == statuses[i];
    DistinctStatuses(all);
  }

  lemma DistinctStatuses(all: seq<ChangedFile>)
    requires forall i, j | 0 <= i < j < |all| :: all[i].status.path != all[j].status.path
    ensures DistinctFiles(all)
  {
    forall f, g | f in all && g in all && f.status.path == g.status.path ensures f == g {
      var i :| 0 <= i < |all| && all[i] == f;
      var j :| 0 <= j < |all| && all[j] == g;
      assert !(i < j) && !(j < i);
    }
  }

  // ---------------------------------------------------------------- merging two sets of line counts

  function Plus(a: Option<nat>, b: Option<nat>): Option<nat> {
    if a.None? || b.None? then None else Some(a.value + b.value)
  }

  function Combine(current: Numstat, entry: Numstat): Numstat {
    var binary := current.binary || entry.binary;
    Numstat(entry.path,
            if binary then None else Plus(current.additions, entry.additions),
            if binary then None else Plus(current.deletions, entry.deletions),
            binary)
  }

  /** The entry of a path after all entries are merged, if it has one. */
  function Merged(entries: seq<Numstat>, path: Text): Option<Numstat> {
    if entries == [] then None
    else
      var n := |entries| - 1;
      var current := Merged(entries[..n], path);
      if entries[n].path != path then current
      else if current.None? then Some(entries[n])
      else Some(Combine(current.value, entries[n]))
  }

  /** The paths of the entries, each where it first appears. */
  function FirstAppearances(entries: seq<Numstat>): seq<Text> {
    if entries == [] then []
    else
      var n := |entries| - 1;
      var before := FirstAppearances(entries[..n]);
      if entries[n].path in before then before else before + [entries[n].path]
  }

  function FirstIndex(entries: seq<Numstat>, path: Text): (i: nat)
    ensures i <= |entries|
    ensures i < |entries| ==> entries[i].path == path
    ensures forall k | 0 <= k < i :: entries[k].path != path
  {
    if entries == [] || entries[0].path == path then 0 else 1 + FirstIndex(entries[1..], path)
  }

  lemma FirstIndexIs(entries: seq<Numstat>, path: Text, i: nat)
    requires i < |entries| && entries[i].path == path && forall k | 0 <= k < i :: entries[k].path != path
    ensures FirstIndex(entries, path) == i
  {
    var j := FirstIndex(entries, path);
    assert !(i < j) && !(j < i);
  }

  lemma FirstIndexGrows(entries: seq<Numstat>, path: Text)
    requires entries != []
    ensures var n := |entries| - 1;
            var i := FirstIndex(entries[..n], path);
            FirstIndex(entries, path) == if i < n then i else if entries[n].path == path then n else n + 1
  {
    var n := |entries| - 1;
    var i := FirstIndex(entries[..n], path);
    assert forall k | 0 <= k < n :: entries[..n][k] == entries[k];
    if i < n {
      FirstIndexIs(entries, path, i);
    } else if entries[n].path == path {
      FirstIndexIs(entries, path, n);
    }
  }

  function FirstIndices(entries: seq<Numstat>, order: seq<Text>): seq<nat> {
    seq(|order|, i requires 0 <= i < |order| => FirstIndex(entries, order[i]))
  }

  predicate AllOccur(entries: seq<Numstat>, order: seq<Text>) {
    forall p <- order :: FirstIndex(entries, p) < |entries|
  }

  lemma IndexKept(entries: seq<Numstat>, order: seq<Text>, p: Text)
    requires entries != [] && AllOccur(entries[..|entries| - 1], order) && p in order
    ensures FirstIndex(entries, p) == FirstIndex(entries[..|entries| - 1], p) < |entries| - 1
  {
    FirstIndexGrows(entries, p);
  }

  lemma IndicesKept(entries: seq<Numstat>, order: seq<Text>)
    requires entries != [] && AllOccur(entries[..|entries| - 1], order)
    ensures AllOccur(entries, order)
    ensures FirstIndices(entries, order) == FirstIndices(entries[..|entries| - 1], order)
  {
    forall p | p in order ensures FirstIndex(entries, p) < |entries| {
      IndexKept(entries, order, p);
    }
    forall i | 0 <= i < |order|
      ensures FirstIndex(entries, order[i]) == FirstIndex(entries[..|entries| - 1], order[i])
    {
      IndexKept(entries, order, order[i]);
    }
  }

  predicate Increasing(indices: seq<nat>) {
    forall i, j | 0 <= i < j < |indices| :: indices[i] < indices[j]
  }

  lemma IncreasingAppend(indices: seq<nat>, last: nat)
    requires Increasing(indices) && forall i | 0 <= i < |indices| :: indices[i] < last
    ensures Increasing(indices + [last])
  {
  }

  lemma IndicesAppend(entries: seq<Numstat>, order: seq<Text>, p: Text)
    ensures FirstIndices(entries, order + [p]) == FirstIndices(entries, order) + [FirstIndex(entries, p)]
  {
  }

  /** Exactly the paths of the entries appear, each once, in the order of their first entries. */
  lemma {:induction false} AppearancesInOrder(entries: seq<Numstat>)
    ensures var order := FirstAppearances(entries);
            && Increasing(FirstIndices(entries, order)) && AllOccur(entries, order)
            && forall p :: FirstIndex(entries, p) < |entries| ==> p in order
  {
    if entries != [] {
      var n := |entries| - 1;
      var before, last := FirstAppearances(entries[..n]), entries[n].path;
      AppearancesInOrder(entries[..n]);
      IndicesKept(entries, before);
      FirstIndexGrows(entries, last);
      if last !in before {
        forall i | 0 <= i < |before| ensures FirstIndices(entries, before)[i] < n {
          IndexKept(entries, before, before[i]);
        }
        IndicesAppend(entries, before, last);
        IncreasingAppend(FirstIndices(entries, before), n);
      }
      forall p | FirstIndex(entries, p) < |entries| ensures p in FirstAppearances(entries) {
        FirstIndexGrows(entries, p);
      }
    }
  }

  method MergeNumstats(entries: seq<Numstat>) returns (order: seq<Text>, merged: map<Text, Numstat>)
    ensures forall p :: p in merged <==> Merged(entries, p).Some?
    ensures forall p <- merged :: merged[p] == Merged(entries, p).value
    ensures forall p :: p in order <==> p in merged
    ensures order == FirstAppearances(entries)
  {
    order, merged := [], map[];
    var i := 0;
    while i < |entries|
      invariant 0 <= i <= |entries|
      invariant forall p :: p in merged <==> Merged(entries[..i], p).Some?
      invariant forall p <- merged :: merged[p] == Merged(entries[..i], p).value
      invariant forall p :: p in order <==> p in merged
      invariant order == FirstAppearances(entries[..i])
    {
      var entry := entries[i];
      assert entries[..i + 1][..i] == entries[..i];
      if entry.path in merged {
        merged := merged[entry.path := Combine(merged[entry.path], entry)];
      } else {
        merged, order := merged[entry.path := entry], order + [entry.path];
      }
      i := i + 1;
    }
    assert entries[..i] == entries;
  }

  function EntriesOf(entries: seq<Numstat>, path: Text): seq<Numstat> {
    if entries == [] then []
    else
      var n := |entries| - 1;
      EntriesOf(entries[..n], path) + if entries[n].path == path then [entries[n]] else []
  }

  /** Binary entries carry no counts, as the parser produces them. */
  predicate Plain(entries: seq<Numstat>) {
    forall e <- entries :: e.binary ==> e.additions.None? && e.deletions.None?
  }

  function Total(entries: seq<Numstat>, additions: bool): Option<nat> {
    if entries == [] then Some(0)
    else
      var n := |entries| - 1;
      Plus(Total(entries[..n], additions), if additions then entries[n].additions else entries[n].deletions)
  }

  predicate AnyBinary(entries: seq<Numstat>) {
    exists e <- entries :: e.binary
  }

  /** m is what a list of entries of one path amounts to. */
  predicate SumsUp(m: Numstat, mine: seq<Numstat>, path: Text) {
    && m.path == path && (m.binary <==> AnyBinary(mine))
    && m.additions == Total(mine, true) && m.deletions == Total(mine, false)
    && (m.binary ==> m.additions.None? && m.deletions.None?)
  }

  lemma TotalAppend(mine: seq<Numstat>, e: Numstat)
    ensures Total(mine + [e], true) == Plus(Total(mine, true), e.additions)
    ensures Total(mine + [e], false) == Plus(Total(mine, false), e.deletions)
    ensures AnyBinary(mine + [e]) <==> AnyBinary(mine) || e.binary
  {
    assert (mine + [e])[..|mine|] == mine;
  }

  lemma CombineSumsUp(m: Numstat, mine: seq<Numstat>, e: Numstat)
    requires SumsUp(m, mine, e.path) && (e.binary ==> e.additions.None? && e.deletions.None?)
    ensures SumsUp(Combine(m, e), mine + [e], e.path)
  {
    TotalAppend(mine, e);
  }

  lemma OneSumsUp(e: Numstat)
    requires e.binary ==> e.additions.None? && e.deletions.None?
    ensures SumsUp(e, [e], e.path)
  {
    TotalAppend([], e);
    assert [] + [e] == [e];
  }

  /** The merged counts of a path are the sums over all its entries, unless one is binary or has no count. */
  lemma {:induction false} MergedIsTotal(entries: seq<Numstat>, path: Text)
    requires Plain(entries)
    ensures Merged(entries, path).None? <==> EntriesOf(entries, path) == []
    ensures Merged(entries, path).Some? ==> SumsUp(Merged(entries, path).value, EntriesOf(entries, path), path)
  {
    if entries != [] {
      var n := |entries| - 1;
      var e, before := entries[n], EntriesOf(entries[..n], path);
      MergedIsTotal(entries[..n], path);
      assert e in entries;
      if e.path == path {
        if before == [] {
          OneSumsUp(e);
          assert before + [e] == [e];
        } else {
          CombineSumsUp(Merged(entries[..n], path).value, before, e);
        }
      } else {
        assert before + [] == before;
      }
    }
  }
}
