/**
Reading a queue file that others may be writing. The file system is a history of states, read through calls
that each take some time, may fail, and may return fewer bytes than asked for. The reader accepts what it read
only if the identity of the file has not changed around the reads, like a seqlock.
*/
module StableRead {
  import opened Options

  type Bytes = seq<bv8>

  const MAX_QUEUE_SOURCE_BYTES: nat := 65536

  datatype Kind = Regular | Symlink | OtherKind

  datatype File = File(kind: Kind, device: nat, modified: nat, bytes: Bytes)

  datatype Stat = Stat(kind: Kind, device: nat, inode: nat, size: nat, modified: nat)

  datatype Failure = Enoent | Eloop | OtherFailure

  datatype Attempt<T> = Done(value: T) | Throws(error: Failure)

  /** The content hash, taken as injective. */
  datatype Digest = Digest(bytes: Bytes)

  datatype Status = Stable | Empty | Missing | UnsafeType | Oversized | InvalidUtf8 | Changing | ReadError

  datatype Result = Result(
    status: Status, byteLength: Option<nat>, modified: Option<nat>, contentHash: Option<Digest>, text: Option<string>)

  function Degraded(status: Status): Result {
    Result(status, None, None, None, None)
  }

  function ReadFailure(error: Failure): Result {
    Degraded(match error case Enoent => Missing case Eloop => UnsafeType case OtherFailure => ReadError)
  }

  function StatOf(f: File, inode: nat): Stat {
    Stat(f.kind, f.device, inode, |f.bytes|, f.modified)
  }

  predicate SameIdentity(left: Stat, right: Stat) {
    && right.kind == Regular
    && left.device == right.device && left.inode == right.inode
    && left.size == right.size && left.modified == right.modified
  }

  /** What a look at the whole file at one instant would report; None is a missing file. */
  function Seen(file: Option<File>, decode: Bytes -> Option<string>): Result {
    if file.None? then Degraded(Missing)
    else
      var f := file.value;
      var size, modified := Some(|f.bytes|), Some(f.modified);
      if f.kind != Regular then Degraded(UnsafeType)
      else if MAX_QUEUE_SOURCE_BYTES < |f.bytes| then Result(Oversized, size, modified, None, None)
      else Decoded(f.bytes, f.modified, decode)
  }

  function Decoded(bytes: Bytes, modified: nat, decode: Bytes -> Option<string>): Result {
    if decode(bytes).None? then Result(InvalidUtf8, Some(|bytes|), Some(modified), None, None)
    else Result(if bytes == [] then Empty else Stable, Some(|bytes|), Some(modified), Some(Digest(bytes)), decode(bytes))
  }

  /** What a look at one instant tells: each answer has its one cause, and comes with what could be known. */
  lemma SeenTells(file: Option<File>, decode: Bytes -> Option<string>)
    ensures var r := Seen(file, decode);
            var regular := file.Some? && file.value.kind == Regular;
            var read := regular && |file.value.bytes| <= MAX_QUEUE_SOURCE_BYTES;
            var text := if file.Some? then decode(file.value.bytes) else None;
            && (r.status == Missing <==> file.None?)
            && (r.status == UnsafeType <==> file.Some? && !regular)
            && (r.status == Oversized <==> regular && !read)
            && (r.status == InvalidUtf8 <==> read && text.None?)
            && (r.status == Empty <==> read && text.Some? && file.value.bytes == [])
            && (r.status == Stable <==> read && text.Some? && file.value.bytes != [])
            && r.byteLength == (if regular then Some(|file.value.bytes|) else None)
            && r.modified == (if regular then Some(file.value.modified) else None)
            && r.text == (if read then text else None)
            && r.contentHash == (if read && text.Some? then Some(Digest(file.value.bytes)) else None)
  {
  }

  /** What is reported of a content that could be read all belongs to one byte string. */
  predicate Coherent(r: Result, decode: Bytes -> Option<string>) {
    r.status == Stable || r.status == Empty ==>
      && r.contentHash.Some? && r.text.Some?
      && r.text == decode(r.contentHash.value.bytes)
      && r.byteLength == Some(|r.contentHash.value.bytes|)
      && (r.status == Empty <==> r.contentHash.value.bytes == [])
  }

  lemma DecodedIsCoherent(bytes: Bytes, modified: nat, decode: Bytes -> Option<string>)
    ensures Coherent(Decoded(bytes, modified, decode), decode)
  {
  }

  class FileSystem {
    /** Which file the path names, and what every file is, at each time. */
    const path: nat -> Option<nat>
    const node: (nat, nat) -> File
    /** How long each call takes, which calls fail, and how many bytes each read returns at most. */
    const pause: nat -> nat
    const fails: nat -> bool
    const amount: nat -> nat
    const decode: Bytes -> Option<string>
    var now: nat
    var calls: nat

    constructor (path: nat -> Option<nat>, node: (nat, nat) -> File, pause: nat -> nat, fails: nat -> bool,
                 amount: nat -> nat, decode: Bytes -> Option<string>)
      ensures this.path == path && this.node == node && this.pause == pause && this.fails == fails
      ensures this.amount == amount && this.decode == decode && now == 0
    {
      this.path, this.node, this.pause, this.fails, this.amount := path, node, pause, fails, amount;
      this.decode, now, calls := decode, 0, 0;
    }

    function At(t: nat): Option<File> {
      if path(t).None? then None else Some(node(t, path(t).value))
    }

    /** Every change of a file gives it an identity it never had before. */
    ghost predicate FreshIdentities() {
      forall id, i, j, k | i <= j <= k && StatOf(node(i, id), id) == StatOf(node(k, id), id) ::
        node(j, id) == node(i, id)
    }

    /** From one time to another nothing happens to the file at the path. */
    ghost predicate Constant(from: nat, to: nat) {
      forall t | from <= t <= to :: path(t) == path(from) && At(t) == At(from)
    }

    /** No call fails, and a read returns nothing only at the end of the file. */
    ghost predicate Smooth() {
      forall n :: !fails(n) && 0 < amount(n)
    }

    method Wait() returns (failed: bool)
      modifies this
      ensures old(now) <= now && (Smooth() ==> !failed)
    {
      failed := fails(calls);
      now, calls := now + pause(calls), calls + 1;
    }

    method Lstat() returns (r: Attempt<Stat>)
      modifies this
      ensures old(now) <= now
      ensures r.Done? ==> path(now).Some? && r.value == StatOf(node(now, path(now).value), path(now).value)
      ensures r == Throws(Enoent) ==> path(now).None?
      ensures r.Throws? ==> r.error != Eloop
      ensures Smooth() ==> (r.Throws? <==> path(now).None?) && r != Throws(OtherFailure)
    {
      var failed := Wait();
      if failed {
        return Throws(OtherFailure);
      }
      return if path(now).None? then Throws(Enoent) else Done(StatOf(node(now, path(now).value), path(now).value));
    }

    /** Opens without following a symbolic link. */
    method Open() returns (r: Attempt<nat>)
      modifies this
      ensures old(now) <= now
      ensures r.Done? ==> path(now) == Some(r.value)
      ensures r == Throws(Enoent) ==> path(now).None?
      ensures r == Throws(Eloop) ==> path(now).Some? && node(now, path(now).value).kind == Symlink
      ensures Smooth() && path(now).Some? && node(now, path(now).value).kind == Regular ==> r.Done?
    {
      var failed := Wait();
      if failed {
        return Throws(OtherFailure);
      }
      if path(now).None? {
        return Throws(Enoent);
      }
      return if node(now, path(now).value).kind == Symlink then Throws(Eloop) else Done(path(now).value);
    }

    method Fstat(id: nat) returns (r: Attempt<Stat>)
      modifies this
      ensures old(now) <= now
      ensures r.Done? ==> r.value == StatOf(node(now, id), id)
      ensures r.Throws? ==> r.error == OtherFailure && !Smooth()
    {
      var failed := Wait();
      return if failed then Throws(OtherFailure) else Done(StatOf(node(now, id), id));
    }

    /** Reads at an offset into the buffer at that offset. */
    method Read(id: nat, buffer: array<bv8>, offset: nat) returns (r: Attempt<nat>)
      requires offset < buffer.Length
      modifies this, buffer
      ensures old(now) <= now
      ensures r.Throws? ==> r.error == OtherFailure && !Smooth() && buffer[..] == old(buffer[..])
      ensures r.Done? ==>
                var bytes := node(now, id).bytes;
                && offset + r.value <= buffer.Length && (0 < r.value ==> offset + r.value <= |bytes|)
                && (forall k | 0 <= k < offset :: buffer[k] == old(buffer[k]))
                && (forall k | offset <= k < offset + r.value :: buffer[k] == bytes[k])
                && (Smooth() && r.value == 0 ==> |bytes| <= offset)
    {
      var most := amount(calls);
      var failed := Wait();
      if failed {
        return Throws(OtherFailure);
      }
      var bytes := node(now, id).bytes;
      if |bytes| <= offset {
        return Done(0);
      }
      var room := if |bytes| < buffer.Length then |bytes| - offset else buffer.Length - offset;
      var count := if most < room then most else room;
      forall k | offset <= k < offset + count {
        buffer[k] := bytes[k];
      }
      return Done(count);
    }

    /** The byte stood at this position of the file at some time of the interval. */
    ghost predicate Observed(id: nat, k: nat, b: bv8, from: nat, to: nat) {
      exists t :: from <= t <= to && k < |node(t, id).bytes| && node(t, id).bytes[k] == b
    }

    /** The read loop: until the buffer is full or a read returns nothing. */
    method Fill(id: nat, buffer: array<bv8>) returns (r: Attempt<nat>)
      requires buffer.Length == MAX_QUEUE_SOURCE_BYTES + 1
      modifies this, buffer
      ensures old(now) <= now
      ensures r.Throws? ==> r.error == OtherFailure && !Smooth()
      ensures r.Done? ==>
                && r.value <= buffer.Length
                && (forall k | 0 <= k < r.value :: Observed(id, k, buffer[k], old(now), now))
                && (Smooth() && r.value < buffer.Length ==> |node(now, id).bytes| <= r.value)
    {
      var bytesRead := 0;
      while bytesRead < buffer.Length
        invariant 0 <= bytesRead <= buffer.Length && old(now) <= now
        invariant forall k | 0 <= k < bytesRead :: Observed(id, k, buffer[k], old(now), now)
      {
        ghost var before, reached := buffer[..], now;
        var count := Read(id, buffer, bytesRead);
        if count.Throws? {
          return count;
        }
        if count.value == 0 {
          ObservedStill(id, before, buffer, bytesRead, old(now), reached);
          return Done(bytesRead);
        }
        ObservedStill(id, before, buffer, bytesRead, old(now), reached);
        bytesRead := bytesRead + count.value;
      }
      return Done(bytesRead);
    }

    lemma ObservedStill(id: nat, before: Bytes, buffer: array<bv8>, n: nat, from: nat, to: nat)
      requires n <= |before| == buffer.Length && to <= now
      requires forall k | 0 <= k < n :: buffer[k] == before[k] && Observed(id, k, before[k], from, to)
      ensures forall k | 0 <= k < n :: Observed(id, k, buffer[k], from, now)
    {
      forall k | 0 <= k < n ensures Observed(id, k, buffer[k], from, now) {
        var t :| from <= t <= to && k < |node(t, id).bytes| && node(t, id).bytes[k] == before[k];
        assert node(t, id).bytes[k] == buffer[k];
      }
    }

    /** Between two looks at one identity the file was constant, so everything read between them belongs to it. */
    lemma UnchangedBetween(id: nat, from: nat, to: nat, read: Bytes, i: nat, j: nat)
      requires FreshIdentities() && from <= i <= j <= to
      requires StatOf(node(from, id), id) == StatOf(node(to, id), id)
      requires |read| == |node(to, id).bytes|
      requires forall k | 0 <= k < |read| :: Observed(id, k, read[k], i, j)
      ensures read == node(to, id).bytes
    {
      forall k | 0 <= k < |read| ensures read[k] == node(to, id).bytes[k] {
        assert Observed(id, k, read[k], i, j);
        var t :| i <= t <= j && k < |node(t, id).bytes| && node(t, id).bytes[k] == read[k];
        assert node(t, id) == node(from, id) && node(to, id) == node(from, id);
      }
    }

    /** The result is what one instant between two times would have shown. */
    ghost predicate Instant(r: Result, from: nat, to: nat) {
      exists t :: from <= t <= to && r == Seen(At(t), decode)
    }

    lemma IsInstant(r: Result, from: nat, t: nat, to: nat)
      requires from <= t <= to && r == Seen(At(t), decode)
      ensures Instant(r, from, to)
    {
    }

    lemma PathFailed(error: Failure, from: nat)
      requires from <= now
      requires error == Enoent ==> path(now).None?
      requires error == Eloop ==> path(now).Some? && node(now, path(now).value).kind == Symlink
      ensures ReadFailure(error).status != ReadError ==> Instant(ReadFailure(error), from, now)
    {
      if error != OtherFailure {
        IsInstant(ReadFailure(error), from, now, now);
      }
    }

    /**
    Every answer other than "changing" and "read error" is what a look at the whole file at one single
    instant of the call would have given; and when nothing happens to the file the answer is exactly that.
    Whatever the identities do, hash, length and text of a stable answer belong to one byte string.
    */
    method ReadStableQueueFile() returns (r: Result)
      modifies this
      ensures old(now) <= now && Coherent(r, decode)
      ensures FreshIdentities() && r.status != Changing && r.status != ReadError ==> Instant(r, old(now), now)
      ensures Smooth() && Constant(old(now), now) ==> r == Seen(At(old(now)), decode)
    {
      var beforePath := Lstat();
      if beforePath.Throws? {
        PathFailed(beforePath.error, old(now));
        return ReadFailure(beforePath.error);
      }
      if beforePath.value.kind != Regular {
        IsInstant(Degraded(UnsafeType), old(now), now, now);
        return Degraded(UnsafeType);
      }
      ghost var looked := now;
      var handle := Open();
      if handle.Throws? {
        PathFailed(handle.error, old(now));
        assert Constant(old(now), now) ==> At(looked) == At(old(now)) && At(now) == At(old(now));
        return ReadFailure(handle.error);
      }
      assert Constant(old(now), now) ==> At(looked) == At(old(now)) && At(now) == At(old(now));
      r := ReadOpened(beforePath.value, handle.value);
    }

    method ReadOpened(beforePath: Stat, id: nat) returns (r: Result)
      requires beforePath.kind == Regular
      modifies this
      ensures old(now) <= now && Coherent(r, decode)
      ensures FreshIdentities() && r.status != Changing && r.status != ReadError ==> Instant(r, old(now), now)
      ensures (&& Smooth() && Constant(old(now), now) && path(old(now)) == Some(id)
               && beforePath == StatOf(node(old(now), id), id)) ==> r == Seen(At(old(now)), decode)
    {
      var beforeOpen := Fstat(id);
      if beforeOpen.Throws? {
        return ReadFailure(beforeOpen.error);
      }
      ghost var atOpen := now;
      assert Constant(old(now), now) ==> At(now) == At(old(now));
      if beforeOpen.value.kind != Regular || !SameIdentity(beforePath, beforeOpen.value) {
        return Degraded(Changing);
      }
      if MAX_QUEUE_SOURCE_BYTES < beforeOpen.value.size {
        var afterPath := Lstat();
        if afterPath.Throws? {
          PathFailed(afterPath.error, old(now));
          return ReadFailure(afterPath.error);
        }
        if SameIdentity(beforeOpen.value, afterPath.value) {
          r := Result(Oversized, Some(beforeOpen.value.size), Some(beforeOpen.value.modified), None, None);
          IsInstant(r, old(now), now, now);
          return;
        }
        return Degraded(Changing);
      }
      r := ReadWhole(beforeOpen.value, id);
      assert Constant(old(now), now) ==> At(atOpen) == At(old(now));
    }

    /**
    Fills the buffer and accepts it if the identity is still the one seen before. The size was within the
    bound then and is part of the identity, so the source's second check of the bound cannot fire.
    */
    method ReadWhole(beforeOpen: Stat, id: nat) returns (r: Result)
      requires beforeOpen == StatOf(node(now, id), id) && beforeOpen.kind == Regular
      requires beforeOpen.size <= MAX_QUEUE_SOURCE_BYTES
      modifies this
      ensures old(now) <= now && Coherent(r, decode)
      ensures FreshIdentities() && r.status != Changing && r.status != ReadError ==> Instant(r, old(now), now)
      ensures Smooth() && Constant(old(now), now) && path(old(now)) == Some(id) ==> r == Seen(At(old(now)), decode)
    {
      var buffer := new bv8[MAX_QUEUE_SOURCE_BYTES + 1];
      ghost var from := now;
      var filled := Fill(id, buffer);
      if filled.Throws? {
        return ReadFailure(filled.error);
      }
      var bytesRead := filled.value;
      ghost var to := now;
      var bytes := buffer[..bytesRead];
      var afterOpen := Fstat(id);
      if afterOpen.Throws? {
        return ReadFailure(afterOpen.error);
      }
      ghost var atClose := now;
      var afterPath := Lstat();
      assert Constant(from, now) ==> At(atClose) == At(from) && At(now) == At(from);
      ReadsConstant(id, from, to, bytes);
      if afterPath.Throws? {
        PathFailed(afterPath.error, from);
        return ReadFailure(afterPath.error);
      }
      if !SameIdentity(beforeOpen, afterOpen.value) || !SameIdentity(afterOpen.value, afterPath.value)
         || afterOpen.value.size != bytesRead {
        return Degraded(Changing);
      }
      if FreshIdentities() {
        UnchangedBetween(id, from, atClose, bytes, from, to);
        assert node(now, id) == node(atClose, id);
        IsInstant(Decoded(bytes, afterOpen.value.modified, decode), from, now, now);
      }
      DecodedIsCoherent(bytes, afterOpen.value.modified, decode);
      return Decoded(bytes, afterOpen.value.modified, decode);
    }

    lemma ConstantByte(id: nat, from: nat, to: nat, k: nat, b: bv8)
      requires from <= to <= now && path(from) == Some(id) && Constant(from, now)
      requires Observed(id, k, b, from, to)
      ensures k < |node(from, id).bytes| && b == node(from, id).bytes[k]
    {
      var t :| from <= t <= to && k < |node(t, id).bytes| && node(t, id).bytes[k] == b;
      assert At(t) == At(from) && path(t) == Some(id);
      assert node(t, id) == node(from, id);
    }

    /** With nothing happening to the file, the loop reads exactly what is there. */
    lemma ReadsConstant(id: nat, from: nat, to: nat, read: Bytes)
      requires from <= to <= now && |node(from, id).bytes| <= MAX_QUEUE_SOURCE_BYTES
      requires |read| <= MAX_QUEUE_SOURCE_BYTES + 1
      requires forall k | 0 <= k < |read| :: Observed(id, k, read[k], from, to)
      requires Smooth() && |read| <= MAX_QUEUE_SOURCE_BYTES ==> |node(to, id).bytes| <= |read|
      ensures Smooth() && Constant(from, now) && path(from) == Some(id) ==> read == node(from, id).bytes
    {
      if Smooth() && Constant(from, now) && path(from) == Some(id) {
        var bytes := node(from, id).bytes;
        forall k | 0 <= k < |read| ensures k < |bytes| && read[k] == bytes[k] {
          assert Observed(id, k, read[k], from, to);
          ConstantByte(id, from, to, k, read[k]);
        }
        assert |read| <= |bytes| by {
          if 0 < |read| {
            var last := |read| - 1;
            ConstantByte(id, from, to, last, read[last]);
          }
        }
        assert At(to) == At(from) && path(to) == Some(id);
        assert node(to, id) == node(from, id);
      }
    }
  }
}
