/**
Answer file delivery: a temporary file is written, synced and hard-linked to the target, which must not
exist. Any number of publishers, and the agent that consumes answers, work in the same directory.
*/
module AnswerFile {
  import opened Options

  type Bytes = seq<bv8>

  /** regular: not a link, directory or device; private: only for the expected owner. */
  datatype File = File(bytes: Bytes, regular: bool, private: bool)

  datatype LinkRecord = LinkRecord(publisher: nat, path: string, bytes: Bytes)

  /** links records every target this service created, in order. */
  datatype Dir = Dir(files: map<string, File>, links: seq<LinkRecord>)

  datatype Change =
    | CreateTemp(publisher: nat, temp: string)
    | WriteTemp(publisher: nat, temp: string, bytes: Bytes)
    | UnlinkTemp(publisher: nat, temp: string)
    | LinkTarget(publisher: nat, temp: string, path: string)
    | OthersWrite(path: string, file: File)
    | OthersRemove(path: string)

  /** The directory after a change; None when the operation is refused. */
  function Apply(d: Dir, c: Change): Option<Dir> {
    match c
    case CreateTemp(_, temp) =>
      if temp in d.files then None else Some(d.(files := d.files[temp := File([], true, true)]))
    case WriteTemp(_, temp, bytes) =>
      if temp !in d.files then None else Some(d.(files := d.files[temp := File(bytes, true, true)]))
    case UnlinkTemp(_, temp) =>
      if temp !in d.files then None else Some(d.(files := d.files - {temp}))
    case LinkTarget(publisher, temp, path) =>
      if temp !in d.files || path in d.files then None
      else Some(Dir(d.files[path := d.files[temp]],
                    d.links + [LinkRecord(publisher, path, d.files[temp].bytes)]))
    case OthersWrite(path, file) => Some(d.(files := d.files[path := file]))
    case OthersRemove(path) =>
      if path !in d.files then None else Some(d.(files := d.files - {path}))
  }

  /** The directory after a change, whether or not the change went through. */
  function After(d: Dir, c: Change): Dir {
    var next := Apply(d, c);
    if next.Some? then next.value else d
  }

  function Mine(links: seq<LinkRecord>, publisher: nat): seq<LinkRecord> {
    if links == [] then []
    else
      var n := |links| - 1;
      Mine(links[..n], publisher) + if links[n].publisher == publisher then [links[n]] else []
  }

  lemma LinkMine(links: seq<LinkRecord>, publisher: nat, path: string, bytes: Bytes)
    ensures Mine(links + [LinkRecord(publisher, path, bytes)], publisher)
         == Mine(links, publisher) + [LinkRecord(publisher, path, bytes)]
  {
    assert (links + [LinkRecord(publisher, path, bytes)])[..|links|] == links;
  }

  /** What a publisher that owns a temporary name may rely on while it waits. */
  ghost predicate Rely(a: Dir, b: Dir, publisher: nat, temp: string) {
    && (temp in a.files <==> temp in b.files)
    && (temp in a.files ==> b.files[temp] == a.files[temp])
    && Mine(b.links, publisher) == Mine(a.links, publisher)
  }

  /** A change made by somebody else: another publisher, or the agent away from temporary names. */
  predicate Foreign(c: Change, publisher: nat, temp: string) {
    match c
    case CreateTemp(p, t) => p != publisher && t != temp
    case WriteTemp(p, t, _) => p != publisher && t != temp
    case UnlinkTemp(p, t) => p != publisher && t != temp
    case LinkTarget(p, t, path) => p != publisher && path != temp
    case OthersWrite(path, _) => path != temp
    case OthersRemove(path) => path != temp
  }

  /** Every foreign change, repeated any number of times, stays within what a publisher relies on. */
  lemma {:induction false} ForeignRunRelies(d: Dir, changes: seq<Change>, publisher: nat, temp: string)
    requires forall c | c in changes :: Foreign(c, publisher, temp)
    ensures Rely(d, ApplyAll(d, changes), publisher, temp)
    decreases |changes|
  {
    if changes != [] {
      var c := changes[0];
      assert c in changes && forall other | other in changes[1..] :: other in changes;
      var mid := Apply(d, c);
      if mid.Some? {
        if c.LinkTarget? {
          assert mid.value.links[..|d.links|] == d.links;
        }
        ForeignRunRelies(mid.value, changes[1..], publisher, temp);
      } else {
        ForeignRunRelies(d, changes[1..], publisher, temp);
      }
    }
  }

  function ApplyAll(d: Dir, changes: seq<Change>): Dir
    decreases |changes|
  {
    if changes == [] then d
    else ApplyAll(After(d, changes[0]), changes[1..])
  }

  /** The changes publication of temp at path makes itself. */
  predicate Own(c: Change, publisher: nat, temp: string, path: string) {
    match c
    case CreateTemp(p, t) => p == publisher && t == temp
    case WriteTemp(p, t, _) => p == publisher && t == temp
    case UnlinkTemp(p, t) => p == publisher && t == temp
    case LinkTarget(p, t, target) => p == publisher && t == temp && target == path
    case _ => false
  }

  predicate Permitted(changes: seq<Change>, publisher: nat, temp: string, path: string) {
    forall c | c in changes :: Foreign(c, publisher, temp) || Own(c, publisher, temp, path)
  }

  /** b is reached from a by changes of this publication and of others. */
  ghost predicate Reached(a: Dir, b: Dir, publisher: nat, temp: string, path: string) {
    exists changes :: Permitted(changes, publisher, temp, path) && b == ApplyAll(a, changes)
  }

  ghost predicate Interfered(a: Dir, b: Dir, publisher: nat, temp: string) {
    exists changes ::
      (forall c <- changes :: Foreign(c, publisher, temp)) && b == ApplyAll(a, changes)
  }

  lemma {:induction false} ApplyAllAppend(d: Dir, first: seq<Change>, second: seq<Change>)
    ensures ApplyAll(d, first + second) == ApplyAll(ApplyAll(d, first), second)
    decreases |first|
  {
    if first == [] {
      assert first + second == second;
    } else {
      assert (first + second)[1..] == first[1..] + second;
      ApplyAllAppend(After(d, first[0]), first[1..], second);
    }
  }

  lemma ReachedThen(a: Dir, b: Dir, changes: seq<Change>, publisher: nat, temp: string, path: string)
    requires Reached(a, b, publisher, temp, path) && Permitted(changes, publisher, temp, path)
    ensures Reached(a, ApplyAll(b, changes), publisher, temp, path)
  {
    var earlier :| Permitted(earlier, publisher, temp, path) && b == ApplyAll(a, earlier);
    ApplyAllAppend(a, earlier, changes);
    assert Permitted(earlier + changes, publisher, temp, path);
  }

  lemma ReachedRefl(a: Dir, publisher: nat, temp: string, path: string)
    ensures Reached(a, a, publisher, temp, path)
  {
    assert Permitted([], publisher, temp, path) && a == ApplyAll(a, []);
  }

  lemma ReachedOn(a: Dir, b: Dir, c: Dir, publisher: nat, temp: string, path: string)
    requires Reached(a, b, publisher, temp, path) && Reached(b, c, publisher, temp, path)
    ensures Reached(a, c, publisher, temp, path)
  {
    var changes :| Permitted(changes, publisher, temp, path) && c == ApplyAll(b, changes);
    ReachedThen(a, b, changes, publisher, temp, path);
  }

  lemma ReachedStep(a: Dir, b: Dir, c: Change, publisher: nat, temp: string, path: string)
    requires Reached(a, b, publisher, temp, path) && Own(c, publisher, temp, path)
    ensures Reached(a, After(b, c), publisher, temp, path)
  {
    ReachedThen(a, b, [c], publisher, temp, path);
    assert ApplyAll(b, [c]) == ApplyAll(After(b, c), [c][1..]);
  }

  lemma ReachedWait(a: Dir, b: Dir, b': Dir, publisher: nat, temp: string, path: string)
    requires Reached(a, b, publisher, temp, path) && Interfered(b, b', publisher, temp)
    ensures Reached(a, b', publisher, temp, path) && Rely(b, b', publisher, temp)
  {
    var changes :| (forall c <- changes :: Foreign(c, publisher, temp)) && b' == ApplyAll(b, changes);
    ReachedThen(a, b, changes, publisher, temp, path);
    ForeignRunRelies(b, changes, publisher, temp);
  }

  // ---------------------------------------------------------------- existing targets

  /**
  However many publications interleave, to this path or to others, a target that exists stays and keeps
  its bytes until somebody other than a publisher writes or removes it.
  */
  lemma {:induction false} TargetKept(d: Dir, changes: seq<Change>, path: string)
    requires path in d.files
    requires forall c | c in changes ::
               NotTemporary(c, path) && !(c.OthersWrite? && c.path == path) && !(c.OthersRemove? && c.path == path)
    ensures path in ApplyAll(d, changes).files && ApplyAll(d, changes).files[path] == d.files[path]
    decreases |changes|
  {
    if changes != [] {
      assert changes[0] in changes && forall c | c in changes[1..] :: c in changes;
      TargetKept(After(d, changes[0]), changes[1..], path);
    }
  }

  function LinksTo(links: seq<LinkRecord>, path: string): nat {
    if links == [] then 0
    else
      var n := |links| - 1;
      LinksTo(links[..n], path) + if links[n].path == path then 1 else 0
  }

  function Creates(d: Dir, c: Change, path: string): nat {
    if c.OthersWrite? && c.path == path && path !in d.files then 1 else 0
  }

  function Removes(d: Dir, c: Change, path: string): nat {
    if c.OthersRemove? && c.path == path && path in d.files then 1 else 0
  }

  /** How often others brought the name into being along a run. */
  function ForeignCreations(d: Dir, changes: seq<Change>, path: string): nat
    decreases |changes|
  {
    if changes == [] then 0
    else Creates(d, changes[0], path) + ForeignCreations(After(d, changes[0]), changes[1..], path)
  }

  /** How often others took the name away along a run. */
  function Removals(d: Dir, changes: seq<Change>, path: string): nat
    decreases |changes|
  {
    if changes == [] then 0
    else Removes(d, changes[0], path) + Removals(After(d, changes[0]), changes[1..], path)
  }

  predicate NotTemporary(c: Change, path: string) {
    (c.CreateTemp? || c.WriteTemp? || c.UnlinkTemp?) ==> c.temp != path
  }

  function Present(d: Dir, path: string): nat {
    if path in d.files then 1 else 0
  }

  lemma StepConservation(d: Dir, c: Change, path: string)
    requires NotTemporary(c, path)
    ensures Present(After(d, c), path) + Removes(d, c, path) + LinksTo(d.links, path)
         == Present(d, path) + Creates(d, c, path) + LinksTo(After(d, c).links, path)
  {
    if c.LinkTarget? && Apply(d, c).Some? {
      assert After(d, c).links[..|d.links|] == d.links;
    }
  }

  /**
  Conservation of a target name under any interleaving: it is there once for every time it was linked or
  created by others, less the times it was removed. So between two deliveries to one path somebody removed
  the first answer.
  */
  lemma {:induction false} TargetConservation(d: Dir, changes: seq<Change>, path: string)
    requires forall c | c in changes :: NotTemporary(c, path)
    ensures Present(ApplyAll(d, changes), path) + Removals(d, changes, path) + LinksTo(d.links, path)
         == Present(d, path) + ForeignCreations(d, changes, path) + LinksTo(ApplyAll(d, changes).links, path)
    decreases |changes|
  {
    if changes != [] {
      assert changes[0] in changes && forall c | c in changes[1..] :: c in changes;
      StepConservation(d, changes[0], path);
      TargetConservation(After(d, changes[0]), changes[1..], path);
    }
  }

  // ---------------------------------------------------------------- one publication

  datatype Code = Occupied | Unavailable | WriteFailed | UnknownState

  datatype Result = Created(bytes: Bytes) | Failed(code: Code)

  /** Which of the file operations of one publication throw for reasons of their own. */
  datatype Io = Io(
    parent: bool, targetStatus: bool, create: bool, write: bool, sync: bool, close: bool, link: bool,
    status: bool, syncLinked: bool, unlink: bool, syncUnlinked: bool, cleanUp: bool)

  datatype DeliveryStatus = Delivered | NotDelivered | OutcomeUnknown

  function StatusOf(r: Result): DeliveryStatus {
    match r
    case Created(_) => Delivered
    case Failed(code) => if code == UnknownState then OutcomeUnknown else NotDelivered
  }

  /** b is what others made of a while a publisher waited, as their record says. */
  ghost predicate Waited(
      a: Dir, b: Dir, before: seq<Change>, after: seq<Change>, publisher: nat, temp: string)
  {
    exists changes ::
      (forall c <- changes :: Foreign(c, publisher, temp)) && after == before + changes && b == ApplyAll(a, changes)
  }

  /** Nobody else was there. */
  lemma WaitedAlone(a: Dir, b: Dir, before: seq<Change>, after: seq<Change>, publisher: nat, temp: string)
    requires Waited(a, b, before, after, publisher, temp) && |after| == |before|
    ensures b == a
  {
    var changes :| after == before + changes && b == ApplyAll(a, changes);
    assert changes == [];
  }

  predicate NothingThere(io: Io, d: Dir, path: string) {
    io.parent && io.targetStatus && path !in d.files
  }

  /** Everything before the link succeeds. */
  predicate Staged(io: Io, d: Dir, path: string) {
    NothingThere(io, d, path) && io.create && io.write && io.sync && io.close
  }

  /** Every operation from the creation of the temporary file on succeeds. */
  predicate Undisturbed(io: Io) {
    && io.create && io.write && io.sync && io.close && io.link && io.status && io.syncLinked && io.unlink
    && io.syncUnlinked
  }

  /** After the link the target is seen to be a private regular file, and the rest succeeds. */
  predicate Confirmed(io: Io, look: Dir, path: string) {
    && io.status && path in look.files && look.files[path].regular && look.files[path].private
    && io.syncLinked && io.unlink && io.syncUnlinked
  }

  /** The link was made at the moment link, by this publication, and look is what others left of it. */
  ghost predicate LinkedFrom(
      start: Dir, link: Dir, look: Dir, publisher: nat, temp: string, path: string, payload: Bytes)
  {
    && Reached(start, link, publisher, temp, path) && Holds(link, temp, payload) && path !in link.files
    && Interfered(After(link, LinkTarget(publisher, temp, path)), look, publisher, temp)
  }

  predicate Holds(d: Dir, temp: string, payload: Bytes) {
    temp in d.files && d.files[temp] == File(payload, true, true)
  }

  /** Nothing changed but that the target is there. */
  predicate Published(start: Dir, end: Dir, publisher: nat, path: string, payload: Bytes) {
    end == Dir(start.files[path := File(payload, true, true)], start.links + [LinkRecord(publisher, path, payload)])
  }

  lemma Undisturbing(
      start: Dir, link: Dir, look: Dir, end: Dir, publisher: nat, temp: string, path: string, payload: Bytes)
    requires temp != path && temp !in start.files
    requires link == Dir(start.files[temp := File(payload, true, true)], start.links)
    requires Published(link, look, publisher, path, payload) && end == Dir(look.files - {temp}, look.links)
    ensures Published(start, end, publisher, path, payload)
  {
  }

  class AnswerDirectory {
    var files: map<string, File>
    var handleOpen: bool
    ghost var links: seq<LinkRecord>
    ghost var others: seq<Change>

    ghost function State(): Dir
      reads this
    {
      Dir(files, links)
    }

    /** Other publishers and the agent run, touching nothing but what is theirs. */
    method Await(ghost publisher: nat, ghost temp: string)
      modifies this`files, this`links, this`others
      ensures Interfered(old(State()), State(), publisher, temp)
      ensures Waited(old(State()), State(), old(others), others, publisher, temp)
    {
      assert State() == ApplyAll(State(), []) && others == others + [];
    }

    /** One file operation of a publication, and the wait for its result. */
    method Perform(c: Change, ghost start: Dir, ghost publisher: nat, ghost temp: string, ghost path: string)
      requires Own(c, publisher, temp, path) && Apply(State(), c).Some?
      requires Reached(start, State(), publisher, temp, path)
      modifies this`files, this`links, this`others
      ensures Reached(start, State(), publisher, temp, path)
      ensures Rely(After(old(State()), c), State(), publisher, temp)
      ensures Interfered(After(old(State()), c), State(), publisher, temp)
      ensures Waited(After(old(State()), c), State(), old(others), others, publisher, temp)
    {
      ReachedStep(start, State(), c, publisher, temp, path);
      match c {
        case CreateTemp(_, name) => files := files[name := File([], true, true)];
        case WriteTemp(_, name, bytes) => files := files[name := File(bytes, true, true)];
        case UnlinkTemp(_, name) => files := files - {name};
        case LinkTarget(_, name, target) =>
          links := links + [LinkRecord(publisher, target, files[name].bytes)];
          files := files[target := files[name]];
      }
      ghost var done := State();
      Await(publisher, temp);
      ReachedWait(start, done, State(), publisher, temp, path);
    }

    method ValidateMissingTarget(path: string, io: Io) returns (error: Option<Code>)
      ensures error == None <==> io.parent && io.targetStatus && path !in files
      ensures error == Some(Occupied) <==> io.parent && io.targetStatus && path in files && files[path].regular
      ensures error.Some? ==> error.value == Occupied || error.value == Unavailable
    {
      if !io.parent || !io.targetStatus {
        return Some(Unavailable);
      }
      if path in files {
        return Some(if files[path].regular then Occupied else Unavailable);
      }
      return None;
    }

    /** Writes the payload to a new temporary file. */
    method Stage(publisher: nat, ghost path: string, payload: Bytes, temp: string, io: Io) returns (failed: bool)
      requires temp != path && temp !in files && !handleOpen
      modifies this
      ensures Reached(old(State()), State(), publisher, temp, path) && !handleOpen
      ensures Mine(links, publisher) == old(Mine(links, publisher))
      ensures failed <==> !(io.create && io.write && io.sync && io.close)
      ensures !failed ==> Holds(State(), temp, payload)
      ensures |old(others)| <= |others|
      ensures !failed && |others| == |old(others)| ==>
                State() == Dir(old(files)[temp := File(payload, true, true)], old(links))
    {
      ghost var start := State();
      ReachedRefl(start, publisher, temp, path);
      failed := !io.create;
      if !failed {
        Perform(CreateTemp(publisher, temp), start, publisher, temp, path);
        handleOpen := true;
        failed := !io.write;
      }
      if !failed {
        Perform(WriteTemp(publisher, temp, payload), start, publisher, temp, path);
        failed := !io.sync || !io.close;
      }
      handleOpen := false;
    }

    /** What follows the link: a look at the target, and the removal of the temporary file between two syncs. */
    method Confirm(publisher: nat, path: string, temp: string, io: Io) returns (failed: bool)
      requires temp != path && temp in files
      modifies this`files, this`links, this`others
      ensures Reached(old(State()), State(), publisher, temp, path)
      ensures Mine(links, publisher) == old(Mine(links, publisher))
      ensures failed <==> !Confirmed(io, old(State()), path)
      ensures !failed ==> temp !in files
      ensures |old(others)| <= |others|
      ensures !failed && |others| == |old(others)| ==> State() == Dir(old(files) - {temp}, old(links))
    {
      ghost var start := State();
      ReachedRefl(start, publisher, temp, path);
      failed := !io.status || path !in files || !files[path].regular || !files[path].private || !io.syncLinked || !io.unlink;
      if !failed {
        Perform(UnlinkTemp(publisher, temp), start, publisher, temp, path);
        failed := !io.syncUnlinked;
      }
    }

    method CleanUp(publisher: nat, ghost path: string, temp: string, io: Io)
      modifies this`files, this`links, this`others
      ensures Reached(old(State()), State(), publisher, temp, path)
      ensures Mine(links, publisher) == old(Mine(links, publisher))
      ensures temp in files <==> temp in old(files) && !io.cleanUp
      ensures |old(others)| <= |others|
    {
      ghost var start := State();
      ReachedRefl(start, publisher, temp, path);
      if temp in files && io.cleanUp {
        Perform(UnlinkTemp(publisher, temp), start, publisher, temp, path);
      }
    }

    /** The link itself. */
    method LinkPath(publisher: nat, path: string, payload: Bytes, temp: string)
      requires temp != path && Holds(State(), temp, payload) && path !in files
      modifies this`files, this`links, this`others
      ensures LinkedFrom(old(State()), old(State()), State(), publisher, temp, path, payload)
      ensures Reached(old(State()), State(), publisher, temp, path) && temp in files
      ensures Mine(links, publisher) == old(Mine(links, publisher)) + [LinkRecord(publisher, path, payload)]
      ensures |old(others)| <= |others|
      ensures |others| == |old(others)| ==>
                Published(old(State()), State(), publisher, path, payload)
    {
      ReachedRefl(State(), publisher, temp, path);
      LinkMine(links, publisher, path, payload);
      Perform(LinkTarget(publisher, temp, path), State(), publisher, temp, path);
    }

    /** From a staged payload on: the link, what follows it, and the clean-up. */
    method LinkAndConfirm(publisher: nat, path: string, payload: Bytes, temp: string, io: Io)
      returns (r: Result, ghost look: Dir)
      requires temp != path && Holds(State(), temp, payload)
      modifies this`files, this`links, this`others
      ensures Reached(old(State()), State(), publisher, temp, path) && |old(others)| <= |others|
      ensures var linked := io.link && path !in old(files);
              && Mine(links, publisher) == old(Mine(links, publisher))
                 + (if linked then [LinkRecord(publisher, path, payload)] else [])
              && (linked ==> LinkedFrom(old(State()), old(State()), look, publisher, temp, path, payload)
                             && Reached(look, State(), publisher, temp, path))
              && r == (if linked then if Confirmed(io, look, path) then Created(payload) else Failed(UnknownState)
                       else Failed(if io.link then Occupied else WriteFailed))
      ensures r.Created? || io.cleanUp ==> temp !in files
      ensures |others| == |old(others)| && io.link && path !in old(files) ==>
                Published(old(State()), look, publisher, path, payload)
      ensures |others| == |old(others)| && r.Created? ==> State() == Dir(look.files - {temp}, look.links)
    {
      look := State();
      var taken := path in files;
      if !io.link || taken {
        CleanUp(publisher, path, temp, io);
        return Failed(if io.link then Occupied else WriteFailed), look;
      }
      ghost var start := State();
      LinkPath(publisher, path, payload, temp);
      look := State();
      var failed := Confirm(publisher, path, temp, io);
      ghost var confirmed := State();
      if failed {
        CleanUp(publisher, path, temp, io);
        ReachedOn(look, confirmed, State(), publisher, temp, path);
      }
      ReachedOn(start, look, State(), publisher, temp, path);
      return if failed then Failed(UnknownState) else Created(payload), look;
    }

    /** All of a publication but the check at its beginning. */
    method Attempt(publisher: nat, path: string, payload: Bytes, temp: string, io: Io)
      returns (r: Result, ghost link: Dir, ghost look: Dir)
      requires temp != path && temp !in files && !handleOpen
      modifies this
      ensures Reached(old(State()), State(), publisher, temp, path) && !handleOpen && |old(others)| <= |others|
      ensures var staged := io.create && io.write && io.sync && io.close;
              var linked := staged && io.link && path !in link.files;
              && Mine(links, publisher) == old(Mine(links, publisher))
                 + (if linked then [LinkRecord(publisher, path, payload)] else [])
              && r == (if linked then if Confirmed(io, look, path) then Created(payload) else Failed(UnknownState)
                       else Failed(if staged && io.link then Occupied else WriteFailed))
              && (staged ==> Reached(old(State()), link, publisher, temp, path) && Holds(link, temp, payload))
              && (linked ==> LinkedFrom(old(State()), link, look, publisher, temp, path, payload)
                             && Reached(look, State(), publisher, temp, path))
      ensures r.Created? || io.cleanUp ==> temp !in files
      ensures Undisturbed(io) && path !in old(files) && |others| == |old(others)| ==>
                r == Created(payload) && Published(old(State()), State(), publisher, path, payload)
    {
      ghost var start := State();
      look := start;
      var failed := Stage(publisher, path, payload, temp, io);
      link := State();
      if failed {
        CleanUp(publisher, path, temp, io);
        r := Failed(WriteFailed);
      } else {
        r, look := LinkAndConfirm(publisher, path, payload, temp, io);
        if Undisturbed(io) && path !in link.files && |others| == |old(others)| {
          Undisturbing(start, link, look, State(), publisher, temp, path, payload);
        }
      }
      ReachedOn(start, link, State(), publisher, temp, path);
    }

    /**
    Publishes payload at path. link is the directory at the moment of the link, look the one seen after it. The
    outcome tells exactly what this attempt did to the target: delivered when it created it, with precisely the
    payload bytes, and every check after that went well; unknown when it created it and one did not; otherwise it
    created nothing, and the code says why.
    */
    method Publish(publisher: nat, path: string, payload: Bytes, temp: string, io: Io)
      returns (r: Result, ghost link: Dir, ghost look: Dir)
      requires temp != path && temp !in files && !handleOpen
      modifies this
      ensures Reached(old(State()), State(), publisher, temp, path) && !handleOpen
      ensures var linked := Staged(io, old(State()), path) && io.link && path !in link.files;
              && Mine(links, publisher) == old(Mine(links, publisher))
                 + (if linked then [LinkRecord(publisher, path, payload)] else [])
              && (r == Created(payload) <==> linked && Confirmed(io, look, path))
              && (StatusOf(r) == Delivered <==> linked && Confirmed(io, look, path))
              && (StatusOf(r) == OutcomeUnknown <==> linked && !Confirmed(io, look, path))
              && (linked ==> LinkedFrom(old(State()), link, look, publisher, temp, path, payload)
                             && Reached(look, State(), publisher, temp, path))
      ensures Staged(io, old(State()), path) ==>
                Reached(old(State()), link, publisher, temp, path) && Holds(link, temp, payload)
      ensures r == Failed(Occupied) <==>
                || (io.parent && io.targetStatus && path in old(files) && old(files)[path].regular)
                || (Staged(io, old(State()), path) && io.link && path in link.files)
      ensures r == Failed(Unavailable) <==>
                !io.parent || !io.targetStatus || (path in old(files) && !old(files)[path].regular)
      ensures r.Created? || io.cleanUp ==> temp !in files
      ensures Undisturbed(io) && NothingThere(io, old(State()), path) && |others| == |old(others)| ==>
                r == Created(payload) && Published(old(State()), State(), publisher, path, payload)
    {
      ghost var start := State();
      link, look := start, start;
      ReachedRefl(start, publisher, temp, path);
      var invalid := ValidateMissingTarget(path, io);
      if invalid.Some? {
        return Failed(invalid.value), link, look;
      }
      Await(publisher, temp);
      ReachedWait(start, start, State(), publisher, temp, path);
      ghost var waited, heard := State(), others;
      r, link, look := Attempt(publisher, path, payload, temp, io);
      ReachedOn(start, waited, State(), publisher, temp, path);
      if Staged(io, start, path) {
        ReachedOn(start, waited, link, publisher, temp, path);
      }
      if |others| == |old(others)| {
        WaitedAlone(start, waited, old(others), heard, publisher, temp);
      }
    }
  }
}
