/**
 * A file system of plain byte strings: what the operations on inodes promise their callers.
 *
 * Every file has two contents, the ones that programs read and those that the last commit holds. They differ
 * only where a write was cut short by a fault of the user's memory: the bytes stored until then in a block that
 * was there before are never logged, and go when the block's buffer is recycled.
 */
module FlatFiles {
  import opened FsBytes
  import opened FsState
  import opened Fs

  /** A file as its users see it: free when typ is 0. */
  datatype File = File(typ: int, bytes: seq<nat>)

  /** The files as programs read them and as the last commit has them. */
  datatype Flat = Flat(now: seq<File>, safe: seq<File>)

  /** Writes and reads say how many bytes the user's memory can give or take before a copy faults. */
  datatype Op =
    | WriteOp(i: nat, off: nat, s: seq<nat>, avail: nat)
    | ReadOp(i: nat, off: nat, n: nat, room: nat)
    | TruncOp(i: nat)
    | AllocOp(typ: int)
    | FreeOp(i: nat)
    | RecycleOp(b: nat)

  /** What an operation returns: a byte count or -1, an inode number, or bytes. */
  datatype Outcome = Count(r: int) | Ino(inum: nat) | Data(bytes: seq<nat>) | Faulted | Done

  /** The operation makes sense for its callers: they hold an allocated inode. */
  predicate Allowed(files: seq<File>, op: Op)
  {
    match op
    case WriteOp(i, off, s, _) => i < |files| && files[i].typ != 0 && off < U32 && |s| < U32
    case ReadOp(i, off, n, _) => i < |files| && off < U32 && n < U32
    case TruncOp(i) => i < |files|
    case AllocOp(typ) => typ != 0
    case FreeOp(i) => i < |files|
    case RecycleOp(_) => true
  }

  /** Of the bytes s the first `touched` are stored at off, but the size counts only r of them. */
  function Written(c: seq<nat>, off: nat, s: seq<nat>, r: nat, touched: nat): seq<nat>
    requires off <= |c| && r <= touched <= |s|
  {
    Splice(c, off, s[..touched])[..Max(|c|, off + r)]
  }

  ghost predicate FlatWrite(files: seq<File>, i: nat, off: nat, s: seq<nat>, r: nat, touched: nat, files': seq<File>)
  {
    && i < |files| && off <= |files[i].bytes| && r <= touched <= |s|
    && files' == files[i := files[i].(bytes := Written(files[i].bytes, off, s, r, touched))]
  }

  /** The contents a of which the blocks of the r bytes at off are committed, over the contents b. */
  function Merged(a: seq<nat>, b: seq<nat>, off: nat, r: nat): (c: seq<nat>)
    ensures |c| == |a|
    ensures forall k :: 0 <= k < |a| ==> c[k] == if Covers(off, r, k / BSIZE) || k >= |b| then a[k] else b[k]
  {
    seq(|a|, k requires 0 <= k < |a| => if Covers(off, r, k / BSIZE) || k >= |b| then a[k] else b[k])
  }

  /** The commit of a write of r bytes at off to file i, which now has the contents of `now`. */
  ghost predicate FlatSaved(now: seq<File>, safe: seq<File>, i: nat, off: nat, r: nat, safe': seq<File>)
  {
    && i < |now| == |safe|
    && safe' == safe[i := File(now[i].typ, Merged(now[i].bytes, safe[i].bytes, off, r))]
  }

  /** A write that reported r bytes after storing `touched`. */
  ghost predicate FlatWrote(f: Flat, op: Op, r: nat, touched: nat, f': Flat)
    requires op.WriteOp?
  {
    && r <= op.avail && (touched == r || (touched == op.avail < |op.s| && r == Whole(op.off, op.avail)))
    && FlatWrite(f.now, op.i, op.off, op.s, r, touched, f'.now)
    && FlatSaved(f'.now, f.safe, op.i, op.off, r, f'.safe)
  }

  /** Block bn of the contents a goes back to what it is in b. */
  function Reverted(a: seq<nat>, b: seq<nat>, bn: nat): (c: seq<nat>)
    ensures |c| == |a|
    ensures forall k :: 0 <= k < |a| ==> c[k] == if k / BSIZE == bn && k < |b| then b[k] else a[k]
  {
    seq(|a|, k requires 0 <= k < |a| => if k / BSIZE == bn && k < |b| then b[k] else a[k])
  }

  ghost predicate FlatRecycled(f: Flat, f': Flat, i: nat, bn: nat)
  {
    && i < |f.now| == |f.safe| && f'.safe == f.safe
    && f'.now == f.now[i := f.now[i].(bytes := Reverted(f.now[i].bytes, f.safe[i].bytes, bn))]
  }

  /** One step of the flat file system, given what the operation reported. */
  ghost predicate FlatStep(f: Flat, op: Op, out: Outcome, f': Flat)
  {
    match op
    case WriteOp(i, off, s, avail) =>
      && i < |f.now| && out.Count?
      && (out.r == -1 <==> Rejected(|f.now[i].bytes|, off, |s|))
      && (out.r == -1 ==> f' == f)
      && (out.r != -1 ==> out.r >= 0 && (FlatWrote(f, op, out.r, out.r, f') || FlatWrote(f, op, out.r, avail, f')))
    case ReadOp(i, off, n, room) =>
      && i < |f.now| && f' == f
      && out == (if off > |f.now[i].bytes| || off + n >= U32 then Data([])
                 else
                   var m := Min(n, |f.now[i].bytes| - off);
                   if m <= room then Data(f.now[i].bytes[off..off + m]) else Faulted)
    case TruncOp(i) =>
      && i < |f.now| == |f.safe|
      && f' == Flat(f.now[i := f.now[i].(bytes := [])], f.safe[i := f.safe[i].(bytes := [])])
    case AllocOp(typ) =>
      && out.Ino? && out.inum < |f.now| == |f.safe|
      && (out.inum == 0 ==> f' == f && forall k :: 1 <= k < |f.now| ==> f.now[k].typ != 0)
      && (out.inum != 0 ==> && f.now[out.inum].typ == 0
                            && f' == Flat(f.now[out.inum := File(typ, [])], f.safe[out.inum := File(typ, [])]))
    case FreeOp(i) =>
      i < |f.now| == |f.safe| && f' == Flat(f.now[i := File(0, [])], f.safe[i := File(0, [])])
    case RecycleOp(_) =>
      f' == f || exists i: nat, bn: nat :: FlatRecycled(f, f', i, bn)
  }

  // ---------------------------------------------------------------------
  // When the two contents agree

  /** A write of s at off of which r bytes are counted and `touched` stored leaves bytes behind that are not
      committed: it stopped inside the file, in a block that it changed. */
  predicate Tears(c: seq<nat>, off: nat, s: seq<nat>, r: nat, touched: nat)
  {
    exists k :: 0 <= r <= k < touched && k < |s| && off + k < |c| && s[k] != c[off + k]
  }

  lemma MergedByte(c: seq<nat>, off: nat, s: seq<nat>, r: nat, touched: nat, k: nat)
    requires off <= |c| && r <= touched <= |s| && (touched == r || r == Whole(off, touched)) && k < Max(|c|, off + r)
    ensures var a := Written(c, off, s, r, touched);
            && |a| == Max(|c|, off + r)
            && (Merged(a, c, off, r)[k] != a[k] <==> off + r <= k < off + touched && k < |c| && s[k - off] != c[k])
  {
    hide Whole, Covers;
    WriteBytes(c, off, s, r, touched);
    CoversInside(off, r, k);
    if off + r <= k < off + touched {
      BehindWhole(off, r, touched, k - off);
    }
  }

  lemma MergedSame(c: seq<nat>, off: nat, s: seq<nat>, r: nat, touched: nat)
    requires off <= |c| && r <= touched <= |s| && (touched == r || r == Whole(off, touched))
    ensures var a := Written(c, off, s, r, touched);
            Merged(a, c, off, r) == a <==> !Tears(c, off, s, r, touched)
  {
    hide Whole, Covers, Written;
    var a := Written(c, off, s, r, touched);
    var b := Merged(a, c, off, r);
    assert |a| == Max(|c|, off + r) by { WriteBytes(c, off, s, r, touched); }
    if Tears(c, off, s, r, touched) {
      var k :| 0 <= r <= k < touched && k < |s| && off + k < |c| && s[k] != c[off + k];
      MergedByte(c, off, s, r, touched, off + k);
    } else {
      forall k: nat | k < |a| ensures a[k] == b[k] {
        MergedByte(c, off, s, r, touched, k);
        if off + r <= k < off + touched && k < |c| {
          assert s[k - off] == c[off + (k - off)];
        }
      }
    }
  }

  /** After a write to a file whose contents were all committed they still are, unless it tore. */
  lemma WriteSettles(f: Flat, op: Op, r: nat, touched: nat, f': Flat)
    requires op.WriteOp? && FlatWrote(f, op, r, touched, f') && f.now == f.safe
    ensures f'.now == f'.safe <==> !Tears(f.now[op.i].bytes, op.off, op.s, r, touched)
  {
    hide Merged, Written, Tears, Whole;
    var i, c := op.i, f.now[op.i].bytes;
    MergedSame(c, op.off, op.s, r, touched);
    if f'.now == f'.safe {
      assert f'.now[i] == f'.safe[i];
    }
  }

  /** The bytes of a file after a write. */
  lemma WriteBytes(c: seq<nat>, off: nat, s: seq<nat>, r: nat, touched: nat)
    requires off <= |c| && r <= touched <= |s|
    ensures var a := Written(c, off, s, r, touched);
            && |a| == Max(|c|, off + r)
            && forall k :: 0 <= k < |a| ==> a[k] == if off <= k < off + touched then s[k - off] else c[k]
  {
  }

  /** A byte behind those counted, where a copy stopped, is not in one of their blocks. */
  lemma BehindWhole(off: nat, r: nat, avail: nat, k: nat)
    requires r == Whole(off, avail) && r <= k < avail
    ensures !Covers(off, r, (off + k) / BSIZE)
  {
  }

  lemma CoversInside(off: nat, r: nat, k: nat)
    ensures off <= k < off + r ==> Covers(off, r, k / BSIZE)
  {
  }

  /** Recycling buffers of files whose contents are all committed changes nothing. */
  lemma RecycleSettles(f: Flat, out: Outcome, b: nat, f': Flat)
    requires FlatStep(f, RecycleOp(b), out, f') && f.now == f.safe
    ensures f' == f
  {
    if i: nat, bn: nat :| FlatRecycled(f, f', i, bn) {
      assert Reverted(f.now[i].bytes, f.safe[i].bytes, bn) == f.now[i].bytes;
    }
  }
}
