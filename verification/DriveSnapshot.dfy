/** Reading and writing a drive's image, with snapshot=on keeping the writes in memory
    (core/src/drive.c, gemu_drive_read and gemu_drive_write). */
module DriveSnapshot {
  import opened Runs

  const CHUNK: nat := 65536

  /** v with data written at off. */
  function Patch(v: seq<int>, off: nat, data: seq<int>): (r: seq<int>)
    ensures |r| == |v|
  {
    seq(|v|, i requires 0 <= i < |v| => if off <= i < off + |data| then data[i - off] else v[i])
  }

  datatype Access = ReadAt(off: nat, len: nat) | WriteAt(off: nat, data: seq<int>)

  /** An access inside a medium of n bytes. */
  predicate InRange(n: nat, off: nat, len: nat) { off <= n && len <= n - off }

  /** What a plain array of bytes answers: the bytes read, None for a refusal; and what it becomes. */
  function FlatAnswer(v: seq<int>, writable: bool, a: Access): Option<seq<int>> {
    match a
    case ReadAt(off, len) => if InRange(|v|, off, len) then Some(v[off..off + len]) else None
    case WriteAt(off, data) => if writable && InRange(|v|, off, |data|) then Some([]) else None
  }

  function FlatNext(v: seq<int>, writable: bool, a: Access): (r: seq<int>)
    ensures |r| == |v|
  {
    if a.WriteAt? && FlatAnswer(v, writable, a).Some? then Patch(v, a.off, a.data) else v
  }

  function FlatRun(v: seq<int>, writable: bool, ops: seq<Access>): seq<int>
    decreases |ops|
  {
    if ops == [] then v else FlatRun(FlatNext(v, writable, ops[0]), writable, ops[1..])
  }

  function FlatAnswers(v: seq<int>, writable: bool, ops: seq<Access>): seq<Option<seq<int>>>
    decreases |ops|
  {
    if ops == [] then []
    else [FlatAnswer(v, writable, ops[0])] + FlatAnswers(FlatNext(v, writable, ops[0]), writable, ops[1..])
  }

  /** The byte an access leaves at i, if it writes there. */
  function Touches(n: nat, writable: bool, a: Access, i: int): Option<int> {
    if a.WriteAt? && writable && InRange(n, a.off, |a.data|) && a.off <= i < a.off + |a.data|
    then Some(a.data[i - a.off]) else None
  }

  /** The last byte a run writes at i. */
  function LastTouch(n: nat, writable: bool, ops: seq<Access>, i: int): Option<int>
    decreases |ops|
  {
    if ops == [] then None
    else
      var later := LastTouch(n, writable, ops[1..], i);
      if later.Some? then later else Touches(n, writable, ops[0], i)
  }

  /** Every byte is the last one written there, or else the original. */
  lemma {:induction false} LastWriteWins(v: seq<int>, writable: bool, ops: seq<Access>, i: nat)
    requires i < |v|
    ensures |FlatRun(v, writable, ops)| == |v|
    ensures FlatRun(v, writable, ops)[i] ==
      match LastTouch(|v|, writable, ops, i) case Some(b) => b case None => v[i]
    decreases |ops|
  {
    hide FlatNext, Touches;
    if ops != [] {
      OneAccess(v, writable, ops[0], i);
      LastWriteWins(FlatNext(v, writable, ops[0]), writable, ops[1..], i);
    }
  }

  lemma OneAccess(v: seq<int>, writable: bool, a: Access, i: nat)
    requires i < |v|
    ensures FlatNext(v, writable, a)[i] == match Touches(|v|, writable, a, i) case Some(b) => b case None => v[i]
  {
    hide Patch;
    if a.WriteAt? { PatchAt(v, a.off, a.data, i); }
  }

  lemma PatchAt(v: seq<int>, off: nat, data: seq<int>, i: nat)
    requires i < |v|
    ensures Patch(v, off, data)[i] == if off <= i < off + |data| then data[i - off] else v[i]
  {
  }

  class Disk {
    var inserted: bool
    var readonly: bool
    var mediumRo: bool
    var size: nat
    var file: seq<int>
    var snap: array?<Option<seq<int>>>

    ghost predicate Valid()
      reads this, snap
    {
      && |file| == size
      && (snap != null ==>
            && snap.Length == Chunks(size)
            && forall c :: 0 <= c < snap.Length && snap[c].Some? ==> |snap[c].value| == CHUNK)
    }

    /** What a guest sees. */
    ghost function View(): (v: seq<int>)
      requires Valid()
      reads this, snap
      ensures |v| == size
    {
      seq(size, i requires 0 <= i < size reads this, snap requires Valid() => ByteAt(i))
    }

    ghost function ByteAt(i: nat): int
      requires Valid() && i < size
      reads this, snap
    {
      if snap != null then
        ChunkOf(size, i);
        if snap[i / CHUNK].Some? then snap[i / CHUNK].value[i % CHUNK] else file[i]
      else file[i]
    }

    predicate Writable()
      reads this
    {
      !readonly && !mediumRo
    }

    /** An image as a machine finds it: with snapshot=on, no chunk written yet. */
    constructor (image: seq<int>, ro: bool, mro: bool, snapshot: bool)
      ensures Valid() && inserted && View() == image && file == image
      ensures readonly == ro && mediumRo == mro && (snap != null <==> snapshot) && (snap != null ==> fresh(snap))
    {
      inserted, readonly, mediumRo, size, file := true, ro, mro, |image|, image;
      if snapshot {
        var s := new Option<seq<int>>[Chunks(|image|)](i => None);
        snap := s;
      } else {
        snap := null;
      }
      new;
      assert View() == image;
    }

    method FileRead(off: nat, len: nat) returns (data: seq<int>)
      requires Valid() && InRange(size, off, len)
      ensures data == file[off..off + len]
    {
      data := file[off..off + len];
    }

    method Read(off: nat, len: nat) returns (ok: bool, data: seq<int>)
      requires Valid()
      ensures ok <==> inserted && InRange(size, off, len)
      ensures ok ==> data == View()[off..off + len]
    {
      if !inserted || off > size || len > size - off { return false, []; }
      if snap == null {
        data := FileRead(off, len);
        forall i | 0 <= i < len ensures data[i] == View()[off..off + len][i] { }
      } else {
        data := ReadChunks(off, len);
      }
      ok := true;
    }

    /** Chunk by chunk, from the copies or the file. */
    method ReadChunks(off: nat, len: nat) returns (data: seq<int>)
      requires Valid() && snap != null && off + len <= size
      ensures data == View()[off..off + len]
    {
      data := [];
      var o: nat, left: nat := off, len;
      ghost var v := View();
      while left > 0
        invariant o + left == off + len && off <= o && data == v[off..o]
      {
        var co := o % CHUNK;
        var n := if CHUNK - co < left then CHUNK - co else left;
        var part := ReadPart(o, n);
        SliceJoin(v, off, o, o + n);
        data, o, left := data + part, o + n, left - n;
      }
    }

    /** A stretch inside one chunk. */
    method ReadPart(o: nat, n: nat) returns (part: seq<int>)
      requires Valid() && snap != null && 0 < n <= CHUNK - o % CHUNK && o + n <= size
      ensures part == View()[o..o + n]
    {
      ChunkOf(size, o);
      var ci, co := o / CHUNK, o % CHUNK;
      if snap[ci].Some? { part := snap[ci].value[co..co + n]; } else { part := FileRead(o, n); }
      SameChunk(o, n);
      forall i | 0 <= i < n ensures part[i] == View()[o..o + n][i] {
        assert View()[o + i] == ByteAt(o + i) && (o + i) / CHUNK == ci && (o + i) % CHUNK == co + i;
      }
    }

    /** The first write to a chunk copies it; nothing visible changes. */
    method CopyChunk(ci: nat)
      requires Valid() && snap != null && ci < snap.Length && snap[ci].None?
      modifies snap
      ensures Valid() && View() == old(View()) && snap[ci].Some?
    {
      ChunkStart(size, ci);
      var base := ci * CHUNK;
      var have := if size - base < CHUNK then size - base else CHUNK;
      var bytes := FileRead(base, have);
      snap[ci] := Some(bytes + seq(CHUNK - have, _ => 0));
      forall i | 0 <= i < size ensures ByteAt(i) == old(ByteAt(i)) { ChunkOf(size, i); }
      assert View() == old(View());
    }

    method PutPart(ci: nat, co: nat, part: seq<int>, ghost o: nat)
      requires Valid() && snap != null && ci < snap.Length && snap[ci].Some? && co + |part| <= CHUNK
      requires o == ci * CHUNK + co && o + |part| <= size
      modifies snap
      ensures Valid() && View() == Patch(old(View()), o, part)
    {
      snap[ci] := Some(snap[ci].value[..co] + part + snap[ci].value[co + |part|..]);
      forall i | 0 <= i < size ensures ByteAt(i) == Patch(old(View()), o, part)[i] { ChunkOf(size, i); }
      assert View() == Patch(old(View()), o, part);
    }

    method Write(off: nat, data: seq<int>) returns (ok: bool)
      requires Valid()
      modifies this`file, snap
      ensures Valid()
      ensures ok <==> inserted && Writable() && InRange(size, off, |data|)
      ensures View() == if ok then Patch(old(View()), off, data) else old(View())
      ensures snap != null ==> file == old(file)
    {
      if !inserted || readonly || mediumRo || off > size || |data| > size - off { return false; }
      if snap == null {
        file := Patch(file, off, data);
        assert View() == Patch(old(View()), off, data);
        return true;
      }
      WriteChunks(off, data);
      ok := true;
    }

    /** Chunk by chunk, into copies. */
    method WriteChunks(off: nat, data: seq<int>)
      requires Valid() && snap != null && InRange(size, off, |data|)
      modifies snap
      ensures Valid() && View() == Patch(old(View()), off, data)
    {
      hide Patch;
      ghost var v := View();
      var o: nat, done: nat := off, 0;
      PatchNothing(v, off);
      while done < |data|
        invariant done <= |data| && o == off + done
        invariant Valid() && View() == Patch(v, off, data[..done])
      {
        ChunkOf(size, o);
        var ci, co := o / CHUNK, o % CHUNK;
        var n := if CHUNK - co < |data| - done then CHUNK - co else |data| - done;
        if snap[ci].None? { CopyChunk(ci); }
        PutPart(ci, co, data[done..done + n], o);
        PatchMore(v, off, data, done, n);
        o, done := o + n, done + n;
      }
      assert data[..done] == data;
    }

    method ServeOne(a: Access) returns (answer: Option<seq<int>>)
      requires Valid() && inserted
      modifies this`file, snap
      ensures Valid()
      ensures answer == FlatAnswer(old(View()), Writable(), a) && View() == FlatNext(old(View()), Writable(), a)
      ensures snap != null ==> file == old(file)
    {
      match a {
        case ReadAt(off, len) =>
          var ok, data := Read(off, len);
          answer := if ok then Some(data) else None;
        case WriteAt(off, data) =>
          var ok := Write(off, data);
          answer := if ok then Some([]) else None;
      }
    }

    /** A guest's accesses, one after another, answered as a plain array of bytes answers them. */
    method Serve(ops: seq<Access>) returns (answers: seq<Option<seq<int>>>)
      requires Valid() && inserted
      modifies this`file, snap
      ensures Valid()
      ensures answers == FlatAnswers(old(View()), Writable(), ops) && View() == FlatRun(old(View()), Writable(), ops)
      ensures snap != null ==> file == old(file)
    {
      hide FlatAnswer, FlatNext, FlatRun, FlatAnswers;
      answers := [];
      ghost var v := View();
      FlatEnd(v, Writable(), ops);
      for k := 0 to |ops|
        invariant Valid() && (snap != null ==> file == old(file))
        invariant answers + FlatAnswers(View(), Writable(), ops[k..]) == FlatAnswers(v, Writable(), ops)
        invariant FlatRun(View(), Writable(), ops[k..]) == FlatRun(v, Writable(), ops)
      {
        ghost var w := View();
        FlatStep(w, Writable(), ops, k);
        var answer := ServeOne(ops[k]);
        answers := answers + [answer];
      }
      FlatEnd(View(), Writable(), ops);
    }
  }

  lemma FlatStep(v: seq<int>, writable: bool, ops: seq<Access>, k: nat)
    requires k < |ops|
    ensures FlatRun(v, writable, ops[k..]) == FlatRun(FlatNext(v, writable, ops[k]), writable, ops[k + 1..])
    ensures FlatAnswers(v, writable, ops[k..]) ==
      [FlatAnswer(v, writable, ops[k])] + FlatAnswers(FlatNext(v, writable, ops[k]), writable, ops[k + 1..])
  {
    assert ops[k..][1..] == ops[k + 1..];
  }

  lemma FlatEnd(v: seq<int>, writable: bool, ops: seq<Access>)
    ensures FlatRun(v, writable, ops[|ops|..]) == v && FlatAnswers(v, writable, ops[|ops|..]) == []
    ensures ops[0..] == ops
  {
  }

  lemma SliceJoin(v: seq<int>, a: nat, b: nat, c: nat)
    requires a <= b <= c <= |v|
    ensures v[a..b] + v[b..c] == v[a..c]
  {
  }

  function Chunks(size: nat): nat { (size + CHUNK - 1) / CHUNK }

  lemma ChunkOf(size: nat, i: nat)
    requires i < size
    ensures i / CHUNK < Chunks(size) && i == i / CHUNK * CHUNK + i % CHUNK
  {
  }

  lemma ChunkStart(size: nat, ci: nat)
    requires ci < Chunks(size)
    ensures ci * CHUNK < size
  {
  }

  lemma SameChunk(o: nat, n: nat)
    requires n <= CHUNK - o % CHUNK
    ensures forall i :: o <= i < o + n ==> i / CHUNK == o / CHUNK && i % CHUNK == o % CHUNK + (i - o)
  {
  }

  lemma PatchNothing(v: seq<int>, off: nat)
    ensures Patch(v, off, []) == v
  {
  }

  lemma PatchMore(v: seq<int>, off: nat, data: seq<int>, done: nat, n: nat)
    requires done + n <= |data|
    ensures Patch(Patch(v, off, data[..done]), off + done, data[done..done + n]) == Patch(v, off, data[..done + n])
  {
  }
}
