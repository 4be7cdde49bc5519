/**
Reading `git status --porcelain=v2 -z`: the records are separated by NUL, a rename is followed by its previous
path as a token of its own (git-status documentation, Porcelain Format Version 2). Text is UTF-16 code units.
*/
module GitStatus {
  import opened Options

  type Unit = u: int | 0 <= u < 0x10000
  type Text = seq<Unit>

  const MAX_STATUS_RECORDS: nat := 5000
  const MAX_PATH_LENGTH: nat := 4096
  const SPACE: Unit := 32
  const DOT: Unit := 46

  datatype Problem = TooMany | NoPrevious | Malformed | BadPath | Duplicate | Unsupported

  datatype Parsed<+T> = Ok(value: T) | Err(problem: Problem)

  datatype Kind = UntrackedFile | Conflicted | Deleted | TypeChanged | Added | Modified | Renamed | Copied

  datatype StatusFile = StatusFile(
    path: Text, previousPath: Option<Text>, kind: Kind, staged: bool, unstaged: bool, untracked: bool,
    conflicted: bool)

  /** What Git prints; fields are the columns between the status letters and the path. */
  datatype Record =
    | Header(text: Text)
    | Ignored(path: Text)
    | Untracked(path: Text)
    | Ordinary(xy: Text, fields: seq<Text>, path: Text)
    | Moved(xy: Text, fields: seq<Text>, score: Text, path: Text, previous: Text)
    | Unmerged(xy: Text, fields: seq<Text>, path: Text)

  // ---------------------------------------------------------------- characters and paths

  /** The white space of a regular expression's \s class. */
  predicate IsSpace(u: Unit) {
    || 9 <= u <= 13 || u == 0x20 || u == 0xa0 || u == 0x1680 || 0x2000 <= u <= 0x200a
    || u == 0x2028 || u == 0x2029 || u == 0x202f || u == 0x205f || u == 0x3000 || u == 0xfeff
  }

  predicate IsField(t: Text) {
    t != [] && forall u <- t :: !IsSpace(u)
  }

  predicate IsSlash(u: Unit) {
    u == 47 || u == 92
  }

  predicate IsLetter(u: Unit) {
    65 <= u <= 90 || 97 <= u <= 122
  }

  predicate IsDigit(u: Unit) {
    48 <= u <= 57
  }

  /** A segment of the path, between slashes of either kind, is the parent directory. */
  predicate HasParentSegment(path: Text) {
    exists i | 0 <= i <= |path| :: ParentHere(path, i)
  }

  predicate ParentHere(path: Text, i: int)
    requires 0 <= i <= |path|
  {
    && i + 2 <= |path| && path[i] == DOT && path[i + 1] == DOT
    && (i == 0 || IsSlash(path[i - 1])) && (i + 2 == |path| || IsSlash(path[i + 2]))
  }

  predicate SafePath(path: Text) {
    && 0 < |path| <= MAX_PATH_LENGTH
    && 0 !in path
    && path[0] != 47
    && !(3 <= |path| && IsLetter(path[0]) && path[1] == 58 && IsSlash(path[2]))
    && !HasParentSegment(path)
  }

  /** The parts of a path between slashes of either kind. */
  function Segments(path: Text): (segments: seq<Text>)
    ensures segments != []
  {
    if path == [] then [[]]
    else
      var rest := Segments(path[1..]);
      if IsSlash(path[0]) then [[]] + rest else [[path[0]] + rest[0]] + rest[1..]
  }

  predicate StartsWithParent(path: Text) {
    2 <= |path| && path[0] == DOT && path[1] == DOT && (|path| == 2 || IsSlash(path[2]))
  }

  predicate LaterParent(path: Text) {
    exists i | 1 <= i <= |path| :: IsSlash(path[i - 1]) && StartsWithParent(path[i..])
  }

  lemma FirstSegmentEmpty(path: Text)
    ensures Segments(path)[0] == [] <==> path == [] || IsSlash(path[0])
  {
  }

  lemma FirstSegmentCons(path: Text, u: Unit, more: Text)
    requires !IsSlash(u)
    ensures Segments(path)[0] == [u] + more
       <==> path != [] && path[0] == u && Segments(path[1..])[0] == more
  {
    if path != [] && !IsSlash(path[0]) {
      var first := Segments(path[1..])[0];
      assert Segments(path)[0] == [path[0]] + first;
      assert ([path[0]] + first)[1..] == first && ([u] + more)[1..] == more;
    }
  }

  lemma FirstSegmentIff(path: Text)
    ensures Segments(path)[0] == [DOT, DOT] <==> StartsWithParent(path)
  {
    assert [DOT] + [DOT] == [DOT, DOT] && [DOT] + [] == [DOT];
    FirstSegmentCons(path, DOT, [DOT]);
    if path != [] {
      FirstSegmentCons(path[1..], DOT, []);
      if 2 <= |path| {
        assert path[1..][1..] == path[2..];
        FirstSegmentEmpty(path[2..]);
      }
    }
  }

  lemma LaterParentUnfold(path: Text)
    requires path != []
    ensures LaterParent(path) <==> (IsSlash(path[0]) && StartsWithParent(path[1..])) || LaterParent(path[1..])
  {
    if i :| 1 <= i <= |path| && IsSlash(path[i - 1]) && StartsWithParent(path[i..]) {
      assert 1 < i ==> path[1..][i - 2] == path[i - 1] && path[1..][i - 1..] == path[i..];
    }
    if i :| 1 <= i <= |path[1..]| && IsSlash(path[1..][i - 1]) && StartsWithParent(path[1..][i..]) {
      assert path[i] == path[1..][i - 1] && path[i + 1..] == path[1..][i..];
    }
  }

  lemma {:induction false} LaterSegmentIff(path: Text)
    ensures [DOT, DOT] in Segments(path)[1..] <==> LaterParent(path)
  {
    if path != [] {
      var rest := Segments(path[1..]);
      LaterSegmentIff(path[1..]);
      LaterParentUnfold(path);
      FirstSegmentIff(path[1..]);
      if IsSlash(path[0]) {
        assert Segments(path)[1..] == rest == [rest[0]] + rest[1..];
      } else {
        assert Segments(path)[1..] == rest[1..];
      }
    }
  }

  lemma HereIff(path: Text, i: nat)
    requires i <= |path|
    ensures ParentHere(path, i) <==> (i == 0 || IsSlash(path[i - 1])) && StartsWithParent(path[i..])
  {
  }

  lemma ParentAt(path: Text)
    ensures HasParentSegment(path) <==> StartsWithParent(path) || LaterParent(path)
  {
    assert path[0..] == path;
    HereIff(path, 0);
    forall i | 1 <= i <= |path| ensures ParentHere(path, i) <==> IsSlash(path[i - 1]) && StartsWithParent(path[i..]) {
      HereIff(path, i);
    }
  }

  /** The test at one position finds exactly the paths that have ".." among their segments. */
  lemma ParentSegmentIff(path: Text)
    ensures HasParentSegment(path) <==> [DOT, DOT] in Segments(path)
  {
    FirstSegmentIff(path);
    LaterSegmentIff(path);
    ParentAt(path);
    assert Segments(path) == [Segments(path)[0]] + Segments(path)[1..];
  }

  /** The one white space class and the one path rule, written out once more from the regular expressions. */
  lemma SpacesAre(u: Unit)
    ensures IsSpace(u)
       <==> u in {9, 10, 11, 12, 13, 32, 160, 5760, 8192, 8193, 8194, 8195, 8196, 8197, 8198, 8199, 8200, 8201, 8202,
                  8232, 8233, 8239, 8287, 12288, 65279}
  {
  }

  predicate StartsWithDrive(path: Text) {
    && 2 < |path|
    && (('A' as int <= path[0] <= 'Z' as int) || ('a' as int <= path[0] <= 'z' as int))
    && path[1] == ':' as int && (path[2] == '/' as int || path[2] == '\\' as int)
  }

  /**
  A path is taken exactly if it is neither empty nor over the bound, has no NUL, is not absolute in either style, and
  no part of it is "..".
  */
  lemma SafePathIff(path: Text)
    ensures SafePath(path)
       <==> (&& 1 <= |path| <= 4096 && (forall u <- path :: u != 0) && path[0] != '/' as int
             && !StartsWithDrive(path) && ['.' as int, '.' as int] !in Segments(path))
    ensures forall u: Unit :: IsSlash(u) <==> u == '/' as int || u == '\\' as int
  {
    ParentSegmentIff(path);
  }

  // ---------------------------------------------------------------- printing

  predicate IsScore(score: Text) {
    && 2 <= |score| && (score[0] == 82 || score[0] == 67)
    && forall i | 1 <= i < |score| :: IsDigit(score[i])
  }

  lemma ScoreIs(score: Text)
    ensures IsScore(score)
       <==> (&& 1 < |score| && (score[0] == 'R' as int || score[0] == 'C' as int)
             && forall digit <- score[1..] :: '0' as int <= digit <= '9' as int)
  {
    assert forall i | 1 <= i < |score| :: score[i] == score[1..][i - 1] && score[i] in score[1..];
  }

  predicate IsStatus(xy: Text) {
    |xy| == 2 && IsField(xy)
  }

  predicate AreFields(fields: seq<Text>, n: nat) {
    |fields| == n && forall f <- fields :: IsField(f) && 0 !in f
  }

  predicate WellFormed(r: Record) {
    match r
    case Header(text) => 0 !in text
    case Ignored(path) => 0 !in path
    case Untracked(path) => SafePath(path)
    case Ordinary(xy, fields, path) => IsStatus(xy) && 0 !in xy && AreFields(fields, 6) && SafePath(path)
    case Moved(xy, fields, score, path, previous) =>
      IsStatus(xy) && 0 !in xy && AreFields(fields, 6) && IsScore(score) && SafePath(path) && SafePath(previous)
    case Unmerged(xy, fields, path) => IsStatus(xy) && 0 !in xy && AreFields(fields, 8) && SafePath(path)
  }

  function PrintFields(fields: seq<Text>, rest: Text): Text {
    if fields == [] then rest else fields[0] + [SPACE] + PrintFields(fields[1..], rest)
  }

  function PrintRecord(r: Record): seq<Text> {
    match r
    case Header(text) => [[35, SPACE] + text]
    case Ignored(path) => [[33, SPACE] + path]
    case Untracked(path) => [[63, SPACE] + path]
    case Ordinary(xy, fields, path) => [[49, SPACE] + PrintFields([xy] + fields, path)]
    case Moved(xy, fields, score, path, previous) =>
      [[50, SPACE] + PrintFields([xy] + fields + [score], path), previous]
    case Unmerged(xy, fields, path) => [[117, SPACE] + PrintFields([xy] + fields, path)]
  }

  function PrintTokens(records: seq<Record>): seq<Text> {
    if records == [] then [] else PrintRecord(records[0]) + PrintTokens(records[1..])
  }

  function JoinTokens(tokens: seq<Text>): Text {
    if tokens == [] then [] else tokens[0] + [0] + JoinTokens(tokens[1..])
  }

  // ---------------------------------------------------------------- parsing

  function FieldLength(s: Text): (n: nat)
    ensures n <= |s| && (forall i | 0 <= i < n :: !IsSpace(s[i])) && (n < |s| ==> IsSpace(s[n]))
  {
    if s == [] || IsSpace(s[0]) then 0 else 1 + FieldLength(s[1..])
  }

  /** One \S+ followed by a space, and what comes after it. */
  function TakeField(s: Text): Option<(Text, Text)> {
    var n := FieldLength(s);
    if n == 0 || n == |s| || s[n] != SPACE then None else Some((s[..n], s[n + 1..]))
  }

  function TakeFields(s: Text, n: nat): (r: Option<(seq<Text>, Text)>)
    ensures r.Some? ==> |r.value.0| == n
  {
    if n == 0 then Some(([], s))
    else
      var first := TakeField(s);
      if first.None? then None
      else
        var more := TakeFields(first.value.1, n - 1);
        if more.None? then None else Some(([first.value.0] + more.value.0, more.value.1))
  }

  /** The columns of a record whose status has two letters, and its path, which may not be empty. */
  function Columns(record: Text, n: nat): (r: Option<(seq<Text>, Text)>)
    requires 2 <= |record| && 0 < n
    ensures r.Some? ==> |r.value.0| == n && |r.value.0[0]| == 2
  {
    var columns := TakeFields(record[2..], n);
    if columns.None? || |columns.value.0[0]| != 2 || columns.value.1 == [] then None else columns
  }

  predicate IsConflict(xy: Text) {
    xy in {[68, 68], [65, 85], [85, 68], [85, 65], [68, 85], [65, 65], [85, 85]}
  }

  function KindFromStatus(xy: Text): Kind {
    if 68 in xy then Deleted else if 84 in xy then TypeChanged else if 65 in xy then Added else Modified
  }

  function TrackedStatus(path: Text, previous: Option<Text>, xy: Text, kind: Kind): StatusFile
    requires |xy| == 2
  {
    StatusFile(path, previous, if IsConflict(xy) then Conflicted else kind, xy[0] != DOT, xy[1] != DOT, false,
               IsConflict(xy))
  }

  function UnmergedStatus(path: Text, xy: Text): StatusFile
    requires |xy| == 2
  {
    StatusFile(path, None, Conflicted, xy[0] != DOT, xy[1] != DOT, false, true)
  }

  function UntrackedStatus(path: Text): StatusFile {
    StatusFile(path, None, UntrackedFile, false, false, true, false)
  }

  function MovedKind(score: Text): Kind
    requires score != []
  {
    if score[0] == 82 then Renamed else Copied
  }

  function ParseOrdinary(record: Text): Parsed<StatusFile>
    requires 2 <= |record|
  {
    var columns := Columns(record, 7);
    if columns.None? then Err(Malformed)
    else
      var xy, path := columns.value.0[0], columns.value.1;
      if !SafePath(path) then Err(BadPath) else Ok(TrackedStatus(path, None, xy, KindFromStatus(xy)))
  }

  function ParseMoved(record: Text, previous: Text): Parsed<StatusFile>
    requires 2 <= |record|
  {
    var columns := Columns(record, 8);
    if columns.None? || !IsScore(columns.value.0[7]) then Err(Malformed)
    else
      var xy, path := columns.value.0[0], columns.value.1;
      if !SafePath(path) then Err(BadPath) else Ok(TrackedStatus(path, Some(previous), xy, MovedKind(columns.value.0[7])))
  }

  function ParseUnmerged(record: Text): Parsed<StatusFile>
    requires 2 <= |record|
  {
    var columns := Columns(record, 9);
    if columns.None? then Err(Malformed)
    else
      var xy, path := columns.value.0[0], columns.value.1;
      if !SafePath(path) then Err(BadPath) else Ok(UnmergedStatus(path, xy))
  }

  predicate Starts(record: Text, mark: Unit) {
    2 <= |record| && record[0] == mark && record[1] == SPACE
  }

  /** One record: what it contributes, if anything, and how many tokens it takes. */
  function ParseOne(tokens: seq<Text>): (r: Parsed<(Option<StatusFile>, nat)>)
    requires tokens != []
    ensures r.Ok? ==> 1 <= r.value.1 <= |tokens|
  {
    var record := tokens[0];
    if Starts(record, 35) || Starts(record, 33) then Ok((None, 1))
    else if Starts(record, 63) then
      (if SafePath(record[2..]) then Ok((Some(UntrackedStatus(record[2..])), 1)) else Err(BadPath))
    else if Starts(record, 49) then
      (var f := ParseOrdinary(record); if f.Ok? then Ok((Some(f.value), 1)) else Err(f.problem))
    else if Starts(record, 50) then
      if |tokens| < 2 then Err(NoPrevious)
      else if !SafePath(tokens[1]) then Err(BadPath)
      else (var f := ParseMoved(record, tokens[1]); if f.Ok? then Ok((Some(f.value), 2)) else Err(f.problem))
    else if Starts(record, 117) then
      (var f := ParseUnmerged(record); if f.Ok? then Ok((Some(f.value), 1)) else Err(f.problem))
    else Err(Unsupported)
  }

  predicate Known(record: Text) {
    || Starts(record, 35) || Starts(record, 33) || Starts(record, 63) || Starts(record, 49) || Starts(record, 50)
    || Starts(record, 117)
  }

  /** The columns of a tracked record are not there, or its rename score is none. */
  predicate LacksColumns(record: Text) {
    || (Starts(record, 49) && Columns(record, 7).None?)
    || (Starts(record, 117) && Columns(record, 9).None?)
    || (Starts(record, 50) && (Columns(record, 8).None? || !IsScore(Columns(record, 8).value.0[7])))
  }

  /** Why a record is refused: an unknown mark, a rename without its previous path, missing columns, or a path. */
  lemma RefusalTells(tokens: seq<Text>)
    requires tokens != [] && ParseOne(tokens).Err?
    ensures var why, record := ParseOne(tokens).problem, tokens[0];
            var lonely := Starts(record, 50) && |tokens| == 1;
            var badPrevious := Starts(record, 50) && 1 < |tokens| && !SafePath(tokens[1]);
            && (why == Unsupported <==> !Known(record))
            && (why == NoPrevious <==> lonely)
            && (why == Malformed <==> LacksColumns(record) && !lonely && !badPrevious)
            && (why == BadPath <==> Known(record) && !lonely && (badPrevious || !LacksColumns(record)))
  {
  }

  function ParseFrom(tokens: seq<Text>, files: seq<StatusFile>): Parsed<seq<StatusFile>>
    decreases |tokens|
  {
    if tokens == [] then Ok(files)
    else if !Starts(tokens[0], 35) && MAX_STATUS_RECORDS <= |files| then Err(TooMany)
    else
      var one := ParseOne(tokens);
      if one.Err? then Err(one.problem)
      else ParseFrom(tokens[one.value.1..], if one.value.0.Some? then files + [one.value.0.value] else files)
  }

  function Split(text: Text): (tokens: seq<Text>)
    ensures tokens != []
  {
    if text == [] then [[]]
    else
      var rest := Split(text[1..]);
      if text[0] == 0 then [[]] + rest else [[text[0]] + rest[0]] + rest[1..]
  }

  /** The tokens of the output; the empty one after the last NUL is dropped. */
  function Tokens(text: Text): seq<Text> {
    var tokens := Split(text);
    if tokens[|tokens| - 1] == [] then tokens[..|tokens| - 1] else tokens
  }

  predicate DistinctPaths(files: seq<StatusFile>) {
    forall i, j | 0 <= i < j < |files| :: files[i].path != files[j].path
  }

  function Parse(text: Text): Parsed<seq<StatusFile>> {
    var r := ParseFrom(Tokens(text), []);
    if r.Ok? && !DistinctPaths(r.value) then Err(Duplicate) else r
  }

  // ---------------------------------------------------------------- what a record means

  function Projection(r: Record): seq<StatusFile>
    requires WellFormed(r)
  {
    match r
    case Header(_) => []
    case Ignored(_) => []
    case Untracked(path) => [UntrackedStatus(path)]
    case Ordinary(xy, _, path) => [TrackedStatus(path, None, xy, KindFromStatus(xy))]
    case Moved(xy, _, score, path, previous) => [TrackedStatus(path, Some(previous), xy, MovedKind(score))]
    case Unmerged(xy, _, path) => [UnmergedStatus(path, xy)]
  }

  /** One of the two sides deleted, added or changed what the other did, so that Git could not merge. */
  predicate Collides(xy: Text)
    requires |xy| == 2
  {
    && xy[0] in {65, 68, 85} && xy[1] in {65, 68, 85}
    && (xy[0] == 85 || xy[1] == 85 || xy[0] == xy[1])
  }

  /** The file tells what the letters of the record say. */
  predicate Tells(f: StatusFile, r: Record)
    requires WellFormed(r) && (r.Ordinary? || r.Moved? || r.Unmerged?)
  {
    && f.path == r.path && f.previousPath == (if r.Moved? then Some(r.previous) else None)
    && (f.staged <==> r.xy[0] != 46) && (f.unstaged <==> r.xy[1] != 46) && !f.untracked
    && (f.conflicted <==> r.Unmerged? || Collides(r.xy))
    && (f.kind == Conflicted <==> f.conflicted)
    && (f.kind == Renamed <==> !f.conflicted && r.Moved? && r.score[0] == 82)
    && (f.kind == Copied <==> !f.conflicted && r.Moved? && r.score[0] == 67)
    && (!f.conflicted && r.Ordinary? ==>
          && (f.kind == Deleted <==> r.xy[0] == 68 || r.xy[1] == 68)
          && (f.kind == TypeChanged <==> f.kind != Deleted && (r.xy[0] == 84 || r.xy[1] == 84))
          && (f.kind == Added <==> f.kind != Deleted && f.kind != TypeChanged && (r.xy[0] == 65 || r.xy[1] == 65))
          && (f.kind == Modified <==> forall u <- r.xy :: u != 68 && u != 84 && u != 65))
  }

  lemma ConflictIff(xy: Text)
    requires |xy| == 2
    ensures IsConflict(xy) <==> Collides(xy)
  {
    assert xy == [xy[0], xy[1]];
  }

  /** Headers and ignored files contribute nothing, an untracked file itself, every other record what its letters say. */
  lemma ProjectionTells(r: Record)
    requires WellFormed(r)
    ensures match r
            case Header(_) => Projection(r) == []
            case Ignored(_) => Projection(r) == []
            case Untracked(path) => Projection(r) == [StatusFile(path, None, UntrackedFile, false, false, true, false)]
            case _ => |Projection(r)| == 1 && Tells(Projection(r)[0], r)
  {
    if r.Ordinary? || r.Moved? {
      ConflictIff(r.xy);
    }
  }

  predicate AllWellFormed(records: seq<Record>) {
    forall r <- records :: WellFormed(r)
  }

  function Projections(records: seq<Record>): seq<StatusFile>
    requires AllWellFormed(records)
  {
    if records == [] then [] else
      assert records[0] in records && forall r <- records[1..] :: r in records;
      Projection(records[0]) + Projections(records[1..])
  }

  /** No record but a header comes after the bound on files is reached. */
  predicate Fits(records: seq<Record>, files: nat)
    requires AllWellFormed(records)
  {
    records == [] || (
      assert records[0] in records && forall r <- records[1..] :: r in records;
      (records[0].Header? || files < MAX_STATUS_RECORDS) && Fits(records[1..], files + |Projection(records[0])|))
  }

  // ---------------------------------------------------------------- fields

  lemma FieldLengthOf(f: Text, rest: Text)
    requires forall u <- f :: !IsSpace(u)
    ensures FieldLength(f + [SPACE] + rest) == |f|
  {
    var s := f + [SPACE] + rest;
    assert forall i | 0 <= i < |f| :: s[i] == f[i] && s[i] in f;
    assert IsSpace(s[|f|]);
  }

  lemma TakeFieldOf(f: Text, rest: Text)
    requires IsField(f)
    ensures TakeField(f + [SPACE] + rest) == Some((f, rest))
  {
    FieldLengthOf(f, rest);
    var s := f + [SPACE] + rest;
    assert s[..|f|] == f && s[|f| + 1..] == rest && s[|f|] == SPACE;
  }

  lemma TakeFieldsCons(s: Text, f: Text, after: Text, fields: seq<Text>, rest: Text)
    requires TakeField(s) == Some((f, after)) && TakeFields(after, |fields|) == Some((fields, rest))
    ensures TakeFields(s, |fields| + 1) == Some(([f] + fields, rest))
  {
  }

  lemma {:induction false} TakeFieldsOf(fields: seq<Text>, rest: Text)
    requires forall f <- fields :: IsField(f)
    ensures TakeFields(PrintFields(fields, rest), |fields|) == Some((fields, rest))
    decreases |fields|
  {
    if fields != [] {
      var f, more := fields[0], fields[1..];
      assert f in fields && fields == [f] + more && forall g <- more :: g in fields;
      TakeFieldsOf(more, rest);
      TakeFieldOf(f, PrintFields(more, rest));
      TakeFieldsCons(PrintFields(fields, rest), f, PrintFields(more, rest), more, rest);
    }
  }

  /** Conversely, whatever columns are read off are what was printed. */
  lemma {:induction false} TakenWasPrinted(s: Text, n: nat)
    requires TakeFields(s, n).Some?
    ensures var (fields, rest) := TakeFields(s, n).value;
            s == PrintFields(fields, rest) && forall f <- fields :: IsField(f)
  {
    if n != 0 {
      var (f, after) := TakeField(s).value;
      TakenWasPrinted(after, n - 1);
      assert s == f + [SPACE] + after;
    }
  }

  lemma ColumnsOf(mark: Unit, fields: seq<Text>, path: Text)
    requires fields != [] && |fields[0]| == 2 && (forall f <- fields :: IsField(f)) && path != []
    ensures Columns([mark, SPACE] + PrintFields(fields, path), |fields|) == Some((fields, path))
  {
    var record := [mark, SPACE] + PrintFields(fields, path);
    assert record[2..] == PrintFields(fields, path);
    TakeFieldsOf(fields, path);
  }

  lemma ColumnsWerePrinted(record: Text, n: nat)
    requires 2 <= |record| && record[1] == SPACE && 0 < n && Columns(record, n).Some?
    ensures var (fields, path) := Columns(record, n).value;
            && record == [record[0], SPACE] + PrintFields(fields, path)
            && (forall f <- fields :: IsField(f)) && path != []
  {
    TakenWasPrinted(record[2..], n);
    assert record == [record[0], SPACE] + record[2..];
  }

  // ---------------------------------------------------------------- one record

  lemma ScoreIsField(score: Text)
    requires IsScore(score)
    ensures IsField(score) && 0 !in score
  {
    assert forall i | 0 <= i < |score| :: !IsSpace(score[i]) && score[i] != 0;
  }

  lemma ParseColumnsOf(r: Record)
    requires WellFormed(r) && (r.Ordinary? || r.Moved? || r.Unmerged?)
    ensures r.Ordinary? ==> Columns(PrintRecord(r)[0], 7) == Some(([r.xy] + r.fields, r.path))
    ensures r.Moved? ==> Columns(PrintRecord(r)[0], 8) == Some(([r.xy] + r.fields + [r.score], r.path))
    ensures r.Unmerged? ==> Columns(PrintRecord(r)[0], 9) == Some(([r.xy] + r.fields, r.path))
  {
    match r {
      case Ordinary(xy, fields, path) => ColumnsOf(49, [xy] + fields, path);
      case Moved(xy, fields, score, path, _) =>
        ScoreIsField(score);
        ColumnsOf(50, [xy] + fields + [score], path);
      case Unmerged(xy, fields, path) => ColumnsOf(117, [xy] + fields, path);
      case _ =>
    }
  }

  function Sole(files: seq<StatusFile>): Option<StatusFile> {
    if files == [] then None else Some(files[0])
  }

  /** A printed record parses to what it means, whatever follows it, and consumes exactly its tokens. */
  lemma ParseOneOf(r: Record, more: seq<Text>)
    requires WellFormed(r)
    ensures ParseOne(PrintRecord(r) + more) == Ok((Sole(Projection(r)), |PrintRecord(r)|))
  {
    var tokens := PrintRecord(r) + more;
    assert tokens[0] == PrintRecord(r)[0];
    if r.Ordinary? || r.Moved? || r.Unmerged? {
      ParseColumnsOf(r);
    } else if r.Untracked? {
      assert tokens[0][2..] == r.path;
    }
  }

  /** Every record that parses is a printed one. */
  lemma RecordOf(tokens: seq<Text>) returns (r: Record)
    requires tokens != [] && ParseOne(tokens).Ok?
    requires forall t <- tokens :: 0 !in t
    ensures WellFormed(r) && PrintRecord(r) == tokens[..ParseOne(tokens).value.1]
    ensures ParseOne(tokens).value == (Sole(Projection(r)), |PrintRecord(r)|)
    ensures r.Header? <==> Starts(tokens[0], 35)
  {
    var record := tokens[0];
    assert record in tokens;
    assert record == [record[0], record[1]] + record[2..];
    if Starts(record, 35) {
      r := Header(record[2..]);
    } else if Starts(record, 33) {
      r := Ignored(record[2..]);
    } else if Starts(record, 63) {
      r := Untracked(record[2..]);
    } else {
      r := TrackedRecordOf(tokens);
    }
  }

  lemma FieldsHaveNoNul(fields: seq<Text>, path: Text)
    requires 0 !in PrintFields(fields, path)
    ensures forall f <- fields :: 0 !in f
  {
    if fields != [] {
      FieldsHaveNoNul(fields[1..], path);
      assert forall u <- fields[0] :: u in PrintFields(fields, path);
      assert forall u <- PrintFields(fields[1..], path) :: u in PrintFields(fields, path);
      assert fields == [fields[0]] + fields[1..];
    }
  }

  /** The columns of a tracked record that parses, and that it is what they print. */
  lemma ColumnsOfToken(record: Text, n: nat)
    requires 2 <= |record| && record[1] == SPACE && 0 < n && Columns(record, n).Some? && 0 !in record
    ensures var (fields, path) := Columns(record, n).value;
            && record == [record[0], SPACE] + PrintFields([fields[0]] + fields[1..], path)
            && IsStatus(fields[0]) && 0 !in fields[0] && AreFields(fields[1..], n - 1)
            && fields == [fields[0]] + fields[1..]
  {
    var (fields, path) := Columns(record, n).value;
    ColumnsWerePrinted(record, n);
    assert forall u <- PrintFields(fields, path) :: u in record;
    FieldsHaveNoNul(fields, path);
    assert fields == [fields[0]] + fields[1..] && fields[0] in fields;
    assert forall f <- fields[1..] :: f in fields;
  }

  lemma OrdinaryOf(record: Text) returns (r: Record)
    requires Starts(record, 49) && ParseOrdinary(record).Ok? && 0 !in record
    ensures WellFormed(r) && r.Ordinary? && PrintRecord(r) == [record] && Projection(r) == [ParseOrdinary(record).value]
  {
    ColumnsOfToken(record, 7);
    var (fields, path) := Columns(record, 7).value;
    r := Ordinary(fields[0], fields[1..], path);
  }

  lemma UnmergedOf(record: Text) returns (r: Record)
    requires Starts(record, 117) && ParseUnmerged(record).Ok? && 0 !in record
    ensures WellFormed(r) && r.Unmerged? && PrintRecord(r) == [record] && Projection(r) == [ParseUnmerged(record).value]
  {
    ColumnsOfToken(record, 9);
    var (fields, path) := Columns(record, 9).value;
    r := Unmerged(fields[0], fields[1..], path);
  }

  lemma SplitScore(fields: seq<Text>)
    requires |fields| == 8 && AreFields(fields[1..], 7)
    ensures AreFields(fields[1..7], 6) && [fields[0]] + fields[1..] == [fields[0]] + fields[1..7] + [fields[7]]
  {
    assert forall f <- fields[1..7] :: f in fields[1..];
  }

  lemma MovedOf(record: Text, previous: Text) returns (r: Record)
    requires Starts(record, 50) && ParseMoved(record, previous).Ok? && 0 !in record && SafePath(previous)
    ensures WellFormed(r) && r.Moved? && PrintRecord(r) == [record, previous]
    ensures Projection(r) == [ParseMoved(record, previous).value]
  {
    ColumnsOfToken(record, 8);
    var (fields, path) := Columns(record, 8).value;
    SplitScore(fields);
    r := Moved(fields[0], fields[1..7], fields[7], path, previous);
  }

  lemma TrackedRecordOf(tokens: seq<Text>) returns (r: Record)
    requires tokens != [] && ParseOne(tokens).Ok? && 0 !in tokens[0]
    requires !Starts(tokens[0], 35) && !Starts(tokens[0], 33) && !Starts(tokens[0], 63)
    ensures WellFormed(r) && PrintRecord(r) == tokens[..ParseOne(tokens).value.1] && !r.Header?
    ensures ParseOne(tokens).value == (Sole(Projection(r)), |PrintRecord(r)|)
  {
    if Starts(tokens[0], 49) {
      r := OrdinaryOf(tokens[0]);
    } else if Starts(tokens[0], 50) {
      r := MovedOf(tokens[0], tokens[1]);
    } else {
      r := UnmergedOf(tokens[0]);
    }
  }

  // ---------------------------------------------------------------- whole outputs

  lemma AllWellFormedTail(records: seq<Record>)
    requires records != [] && AllWellFormed(records)
    ensures WellFormed(records[0]) && AllWellFormed(records[1..])
  {
    assert records[0] in records && forall r <- records[1..] :: r in records;
  }

  lemma ParseStep(tokens: seq<Text>, files: seq<StatusFile>, added: seq<StatusFile>, n: nat)
    requires tokens != [] && |added| <= 1 && ParseOne(tokens) == Ok((Sole(added), n))
    requires Starts(tokens[0], 35) || |files| < MAX_STATUS_RECORDS
    ensures ParseFrom(tokens, files) == ParseFrom(tokens[n..], files + added)
  {
    assert added == [] ==> files + added == files;
    assert added != [] ==> added == [added[0]];
  }

  lemma ProjectsOne(r: Record)
    requires WellFormed(r)
    ensures |Projection(r)| <= 1 && PrintRecord(r) != [] && (r.Header? <==> Starts(PrintRecord(r)[0], 35))
  {
  }

  lemma ParseRecordStep(r: Record, more: seq<Text>, files: seq<StatusFile>)
    requires WellFormed(r)
    ensures ParseFrom(PrintRecord(r) + more, files)
         == if r.Header? || |files| < MAX_STATUS_RECORDS then ParseFrom(more, files + Projection(r)) else Err(TooMany)
  {
    var tokens := PrintRecord(r) + more;
    ProjectsOne(r);
    assert tokens[0] == PrintRecord(r)[0] && tokens[|PrintRecord(r)|..] == more;
    if r.Header? || |files| < MAX_STATUS_RECORDS {
      ParseOneOf(r, more);
      ParseStep(tokens, files, Projection(r), |PrintRecord(r)|);
    }
  }

  lemma PrependWellFormed(r: Record, rest: seq<Record>)
    requires WellFormed(r) && AllWellFormed(rest)
    ensures AllWellFormed([r] + rest)
    ensures Projections([r] + rest) == Projection(r) + Projections(rest)
  {
    assert ([r] + rest)[1..] == rest;
  }

  lemma FitsUnfold(r: Record, rest: seq<Record>, n: nat)
    requires WellFormed(r) && AllWellFormed(rest) && AllWellFormed([r] + rest)
    ensures Fits([r] + rest, n) <==> (r.Header? || n < MAX_STATUS_RECORDS) && Fits(rest, n + |Projection(r)|)
  {
    assert ([r] + rest)[1..] == rest;
  }

  lemma RecordsUnfold(r: Record, rest: seq<Record>, files: seq<StatusFile>)
    requires WellFormed(r) && AllWellFormed(rest)
    ensures AllWellFormed([r] + rest)
    ensures PrintTokens([r] + rest) == PrintRecord(r) + PrintTokens(rest)
    ensures files + Projections([r] + rest) == files + Projection(r) + Projections(rest)
    ensures Fits([r] + rest, |files|)
       <==> (r.Header? || |files| < MAX_STATUS_RECORDS) && Fits(rest, |files + Projection(r)|)
  {
    PrependWellFormed(r, rest);
    FitsUnfold(r, rest, |files|);
    assert ([r] + rest)[1..] == rest;
    assert files + (Projection(r) + Projections(rest)) == files + Projection(r) + Projections(rest);
  }

  /** Parsing the print of records gives their projections, in order, unless they exceed the bound. */
  lemma {:induction false} ParseFromOf(records: seq<Record>, files: seq<StatusFile>)
    requires AllWellFormed(records)
    ensures ParseFrom(PrintTokens(records), files)
         == if Fits(records, |files|) then Ok(files + Projections(records)) else Err(TooMany)
    decreases |records|
  {
    if records == [] {
      assert files + Projections(records) == files;
    } else {
      AllWellFormedTail(records);
      var r, rest := records[0], records[1..];
      assert records == [r] + rest;
      RecordsUnfold(r, rest, files);
      ParseRecordStep(r, PrintTokens(rest), files);
      ParseFromOf(rest, files + Projection(r));
    }
  }

  /** Conversely, tokens that parse are the print of records that project to the result. */
  lemma {:induction false} RecordsOf(tokens: seq<Text>, files: seq<StatusFile>) returns (records: seq<Record>)
    requires ParseFrom(tokens, files).Ok? && forall t <- tokens :: 0 !in t
    ensures AllWellFormed(records) && PrintTokens(records) == tokens && Fits(records, |files|)
    ensures ParseFrom(tokens, files) == Ok(files + Projections(records))
    decreases |tokens|
  {
    if tokens == [] {
      records := [];
      assert files + Projections(records) == files;
    } else {
      var r := RecordOf(tokens);
      var more := tokens[|PrintRecord(r)|..];
      ProjectsOne(r);
      assert tokens == PrintRecord(r) + more && tokens[0] in tokens && forall t <- more :: t in tokens;
      ParseRecordStep(r, more, files);
      var rest := RecordsOf(more, files + Projection(r));
      RecordsUnfold(r, rest, files);
      records := [r] + rest;
    }
  }

  predicate NoNul(tokens: seq<Text>) {
    forall t <- tokens :: 0 !in t
  }

  lemma SplitStep(u: Unit, text: Text)
    ensures Split([u] + text)
         == if u == 0 then [[]] + Split(text) else [[u] + Split(text)[0]] + Split(text)[1..]
  {
    assert ([u] + text)[1..] == text;
  }

  lemma {:induction false} SplitToken(token: Text, text: Text)
    requires 0 !in token
    ensures Split(token + [0] + text) == [token] + Split(text)
  {
    if token == [] {
      assert token + [0] + text == [0] + text;
      SplitStep(0, text);
    } else {
      var rest := token[1..];
      assert token[0] in token && forall u <- rest :: u in token;
      SplitToken(rest, text);
      assert token + [0] + text == [token[0]] + (rest + [0] + text);
      SplitStep(token[0], rest + [0] + text);
      assert [token[0]] + rest == token;
    }
  }

  lemma {:induction false} SplitJoined(tokens: seq<Text>)
    requires NoNul(tokens)
    ensures Split(JoinTokens(tokens)) == tokens + [[]]
  {
    if tokens != [] {
      assert tokens[0] in tokens && forall t <- tokens[1..] :: t in tokens;
      SplitToken(tokens[0], JoinTokens(tokens[1..]));
      SplitJoined(tokens[1..]);
      assert tokens == [tokens[0]] + tokens[1..];
    }
  }

  lemma {:induction false} SplitHasNoNul(text: Text)
    ensures NoNul(Split(text))
  {
    if text != [] {
      SplitHasNoNul(text[1..]);
      assert Split(text[1..])[0] in Split(text[1..]);
    }
  }

  /** Splitting loses nothing: each token was followed by a NUL, but for the end of the text. */
  lemma {:induction false} JoinedSplit(text: Text)
    ensures JoinTokens(Split(text)) == text + [0]
  {
    if text == [] {
      JoinedFirst([], []);
      assert Split(text) == [[]] + [];
    } else {
      var u, rest := text[0], Split(text[1..]);
      JoinedSplit(text[1..]);
      assert text == [u] + text[1..];
      SplitStep(u, text[1..]);
      JoinedUnit(u, rest);
    }
  }

  lemma UnitAssociates(u: Unit, a: Text, c: Text)
    ensures [u] + a + [0] + c == [u] + (a + [0] + c)
  {
  }

  lemma EmptyFirst(c: Text)
    ensures [] + [0] + c == [0] + c
  {
  }

  lemma JoinedUnit(u: Unit, rest: seq<Text>)
    requires rest != []
    ensures JoinTokens([[]] + rest) == [0] + JoinTokens(rest)
    ensures JoinTokens([[u] + rest[0]] + rest[1..]) == [u] + JoinTokens(rest)
  {
    JoinedFirst([], rest);
    EmptyFirst(JoinTokens(rest));
    JoinedFirst([u] + rest[0], rest[1..]);
    UnitAssociates(u, rest[0], JoinTokens(rest[1..]));
  }

  lemma JoinedFirst(token: Text, tokens: seq<Text>)
    ensures JoinTokens([token] + tokens) == token + [0] + JoinTokens(tokens)
  {
    assert ([token] + tokens)[1..] == tokens;
  }

  lemma {:induction false} JoinedConcat(a: seq<Text>, b: seq<Text>)
    ensures JoinTokens(a + b) == JoinTokens(a) + JoinTokens(b)
  {
    if a == [] {
      assert a + b == b;
    } else {
      assert (a + b)[1..] == a[1..] + b;
      JoinedConcat(a[1..], b);
    }
  }

  function Print(records: seq<Record>): Text {
    JoinTokens(PrintTokens(records))
  }

  lemma {:induction false} PrintedHasNoNul(records: seq<Record>)
    requires AllWellFormed(records)
    ensures NoNul(PrintTokens(records))
    ensures forall t <- PrintTokens(records) :: t != []
  {
    if records != [] {
      AllWellFormedTail(records);
      PrintedHasNoNul(records[1..]);
      RecordHasNoNul(records[0]);
    }
  }

  lemma {:induction false} FieldsPrintNoNul(fields: seq<Text>, path: Text)
    requires 0 !in path && forall f <- fields :: 0 !in f
    ensures 0 !in PrintFields(fields, path)
  {
    if fields != [] {
      assert fields[0] in fields && forall f <- fields[1..] :: f in fields;
      FieldsPrintNoNul(fields[1..], path);
    }
  }

  lemma RecordHasNoNul(r: Record)
    requires WellFormed(r)
    ensures NoNul(PrintRecord(r)) && forall t <- PrintRecord(r) :: t != []
  {
    if r.Ordinary? || r.Unmerged? {
      FieldsPrintNoNul([r.xy] + r.fields, r.path);
    } else if r.Moved? {
      ScoreIsField(r.score);
      FieldsPrintNoNul([r.xy] + r.fields + [r.score], r.path);
    }
  }

  lemma TokensOfJoined(tokens: seq<Text>)
    requires NoNul(tokens)
    ensures Tokens(JoinTokens(tokens)) == tokens
  {
    SplitJoined(tokens);
    assert (tokens + [[]])[..|tokens|] == tokens;
  }

  /**
  Round trip: parsing what Git prints for any records gives exactly their meaning, in order, or says that
  there are too many or that a path occurs twice. A previous path is never taken for a record, whatever it
  looks like.
  */
  lemma RoundTrip(records: seq<Record>)
    requires AllWellFormed(records)
    ensures Parse(Print(records))
         == if !Fits(records, 0) then Err(TooMany)
            else if !DistinctPaths(Projections(records)) then Err(Duplicate)
            else Ok(Projections(records))
  {
    PrintedHasNoNul(records);
    TokensOfJoined(PrintTokens(records));
    ParseFromOf(records, []);
    assert [] + Projections(records) == Projections(records);
  }

  ghost predicate Prints(records: seq<Record>, text: Text, files: seq<StatusFile>) {
    && AllWellFormed(records) && Fits(records, 0)
    && Projections(records) == files && DistinctPaths(files)
    && (text == Print(records) || (text != [] && text + [0] == Print(records)))
  }

  /** The tokens of a text, joined again, are the text, with its last NUL added where that was missing. */
  lemma JoinedTokens(text: Text)
    ensures NoNul(Tokens(text))
    ensures JoinTokens(Tokens(text)) == text || (text != [] && JoinTokens(Tokens(text)) == text + [0])
  {
    var tokens := Split(text);
    JoinedSplit(text);
    SplitHasNoNul(text);
    var n := |tokens| - 1;
    if tokens[n] == [] {
      assert tokens == tokens[..n] + [[]];
      JoinedConcat(tokens[..n], [[]]);
      var empty: seq<Text> := [[]];
      assert empty[1..] == [] && JoinTokens(empty) == [0];
      assert (JoinTokens(tokens[..n]) + [0])[..|text|] == (text + [0])[..|text|];
    }
  }

  lemma AcceptedWasPrinted(text: Text, files: seq<StatusFile>) returns (records: seq<Record>)
    requires Parse(text) == Ok(files)
    ensures Prints(records, text, files)
  {
    JoinedTokens(text);
    var tokens := Tokens(text);
    assert ParseFrom(tokens, []) == Ok(files);
    records := RecordsOf(tokens, []);
    assert [] + Projections(records) == Projections(records);
  }

  lemma PrintedIsAccepted(records: seq<Record>, text: Text, files: seq<StatusFile>)
    requires Prints(records, text, files)
    ensures Parse(text) == Ok(files)
  {
    RoundTrip(records);
    if text != Print(records) {
      MissingLastNul(records, text);
    }
  }

  /** The texts accepted are exactly the prints of admissible records, and each is read as what it prints. */
  lemma AcceptsExactlyPrints(text: Text, files: seq<StatusFile>)
    ensures Parse(text) == Ok(files) <==> exists records :: Prints(records, text, files)
  {
    if Parse(text) == Ok(files) {
      var records := AcceptedWasPrinted(text, files);
    }
    forall records | Prints(records, text, files) ensures Parse(text) == Ok(files) {
      PrintedIsAccepted(records, text, files);
    }
  }

  lemma MissingLastNul(records: seq<Record>, text: Text)
    requires AllWellFormed(records) && text + [0] == Print(records) && text != []
    ensures Parse(text) == Parse(Print(records))
  {
    var tokens := PrintTokens(records);
    PrintedHasNoNul(records);
    SplitJoined(tokens);
    JoinedSplit(text);
    SplitHasNoNul(text);
    SplitJoined(Split(text));
    assert Split(text) == (Split(text) + [[]])[..|Split(text)|] == (tokens + [[]])[..|tokens|] == tokens;
    TokensOfJoined(tokens);
    assert tokens[|tokens| - 1] in tokens;
  }

  // ---------------------------------------------------------------- the loops

  lemma ParseUnfold(tokens: seq<Text>, files: seq<StatusFile>)
    requires tokens != []
    ensures ParseFrom(tokens, files)
         == if !Starts(tokens[0], 35) && MAX_STATUS_RECORDS <= |files| then Err(TooMany)
            else if ParseOne(tokens).Err? then Err(ParseOne(tokens).problem)
            else ParseFrom(tokens[ParseOne(tokens).value.1..], files + Contribution(ParseOne(tokens).value.0))
  {
    assert files + [] == files;
  }

  function Contribution(file: Option<StatusFile>): seq<StatusFile> {
    if file.Some? then [file.value] else []
  }

  /** One turn of the record loop. */
  lemma ParseContinues(tokens: seq<Text>, index: nat, files: seq<StatusFile>)
    requires index < |tokens|
    ensures var rest := tokens[index..];
            var one := ParseOne(rest);
            if !Starts(tokens[index], 35) && MAX_STATUS_RECORDS <= |files| then ParseFrom(rest, files) == Err(TooMany)
            else if one.Err? then ParseFrom(rest, files) == Err(one.problem)
            else && index + one.value.1 <= |tokens|
                 && ParseFrom(rest, files) == ParseFrom(tokens[index + one.value.1..], files + Contribution(one.value.0))
  {
    var rest := tokens[index..];
    ParseUnfold(rest, files);
    if ParseOne(rest).Ok? {
      assert rest[ParseOne(rest).value.1..] == tokens[index + ParseOne(rest).value.1..];
    }
  }

  lemma ParseEnds(text: Text, r: Parsed<seq<StatusFile>>)
    requires ParseFrom(Tokens(text), []) == r
    ensures Parse(text) == if r.Ok? && !DistinctPaths(r.value) then Err(Duplicate) else r
  {
  }

  method ParsePorcelainV2(text: Text) returns (r: Parsed<seq<StatusFile>>)
    ensures r == Parse(text)
  {
    var tokens := Tokens(text);
    r := ParseTokens(tokens);
    ParseEnds(text, r);
    if r.Ok? {
      var distinct := HasDistinctPaths(r.value);
      if !distinct {
        return Err(Duplicate);
      }
    }
  }

  /** The loop over the records. */
  method ParseTokens(tokens: seq<Text>) returns (r: Parsed<seq<StatusFile>>)
    ensures r == ParseFrom(tokens, [])
  {
    var files: seq<StatusFile> := [];
    var index := 0;
    while index < |tokens|
      invariant 0 <= index <= |tokens|
      invariant ParseFrom(tokens, []) == ParseFrom(tokens[index..], files)
    {
      ParseContinues(tokens, index, files);
      if !Starts(tokens[index], 35) && MAX_STATUS_RECORDS <= |files| {
        return Err(TooMany);
      }
      var one := ParseOne(tokens[index..]);
      if one.Err? {
        return Err(one.problem);
      }
      files := files + Contribution(one.value.0);
      index := index + one.value.1;
    }
    return Ok(files);
  }

  method HasDistinctPaths(files: seq<StatusFile>) returns (distinct: bool)
    ensures distinct <==> DistinctPaths(files)
  {
    var uniquePaths: set<Text> := {};
    var i := 0;
    while i < |files|
      invariant 0 <= i <= |files| && DistinctPaths(files[..i])
      invariant uniquePaths == set k | 0 <= k < i :: files[k].path
    {
      if files[i].path in uniquePaths {
        return false;
      }
      uniquePaths := uniquePaths + {files[i].path};
      i := i + 1;
    }
    assert files[..i] == files;
    return true;
  }
}
