/** Whole runs of the file layer: any sequence of operations on a mounted image behaves like the
    same sequence on plain byte strings. */
module FsRuns {
  import opened Base
  import opened FsBytes
  import opened FsState
  import opened Fs
  import opened FsSafe
  import opened FlatFiles

  /** Every block that differs between the states is among the logged ones. */
  ghost predicate ChangesLogged(l: Layout, st: State, st': State, logged: set<nat>)
  {
    && |st.data| == |st'.data| && |st.inodes| == |st'.inodes|
    && (forall c: nat :: c < |st.data| && st'.data[c] != st.data[c] ==> c in logged)
    && (forall c: nat :: InUse(st', c) != InUse(st, c) ==> c / BPB + l.bmapStart in logged)
    && forall j: nat :: j < |st.inodes| && st'.inodes[j] != st.inodes[j] ==> j / IPB + l.inodeStart in logged
  }

  /** Only inode blocks, free-map blocks and data blocks are logged. */
  ghost predicate LoggedInPlace(l: Layout, ninodes: nat, logged: set<nat>)
  {
    forall b :: b in logged ==>
      || l.inodeStart <= b <= l.inodeStart + ninodes / IPB
      || l.bmapStart <= b < l.bmapStart + MapSize(l)
      || l.nmeta <= b < l.size
  }

  lemma PlaceLogged(l: Layout, ninodes: nat, i: nat, logged: set<nat>)
    requires LoggedFor(l, i, {}, logged) && i < ninodes
    ensures LoggedInPlace(l, ninodes, logged)
  {
    forall b | b in logged && b in MapBlocks(l, MapSize(l))
      ensures l.bmapStart <= b < l.bmapStart + MapSize(l)
    {
      MapBlocksBound(l, MapSize(l), b);
    }
  }

  /** The most blocks that an operation logs. */
  function OpCost(l: Layout, op: Op): nat
  {
    match op
    case WriteOp(_, off, s, _) => LogCost(off, |s|)
    case ReadOp(_, _, _, _) => 0
    case AllocOp(_) => 1
    case RecycleOp(_) => 0
    case _ => MapSize(l) + 1
  }

  /** A stop of a run: the flat files, the blocks behind them now and in the last commit, who owns each, and
      what the transaction leading here logged. */
  datatype Stop = Stop(files: Flat, st: State, safe: seq<Bytes>, owner: map<nat, Slot>, logged: set<nat>)

  /** Ownership is exact, no file has a hole, and the flat files are those of the blocks; all this holds of
      the blocks in the cache and of those in the last commit. */
  ghost predicate StopOk(l: Layout, p: Stop)
  {
    && p.files == Flat(View(p.st), View(Saved(p.st, p.safe)))
    && Mountable(l, p.st, p.owner) && BackedBy(p.st, p.safe, p.owner)
  }

  /** From one stop to the next: a step of the flat file system, by a transaction that commits what it logs and
      no more than it may.  A write is short only on a full disk or where the user's memory faults. */
  ghost predicate StepOk(l: Layout, p: Stop, op: Op, out: Outcome, q: Stop)
  {
    && FlatStep(p.files, op, out, q.files)
    && |q.logged| <= OpCost(l, op) && LoggedInPlace(l, |p.st.inodes|, q.logged)
    && ChangesLogged(l, Saved(p.st, p.safe), Saved(q.st, q.safe), q.logged)
    && (forall b: nat :: b in q.logged && b < |q.safe| ==> b < |q.st.data| && q.safe[b] == q.st.data[b])
    && (op.WriteOp? && out.Count? && 0 <= out.r < |op.s| ==>
          || DiskFull(l, q.st)
          || (&& op.avail < |op.s| && out.r == Whole(op.off, op.avail)
              && FlatWrote(p.files, op, out.r, op.avail, q.files)))
  }

  /** The run of ops with outcomes outs goes through the given stops. */
  ghost predicate IsTrail(l: Layout, trail: seq<Stop>, ops: seq<Op>, outs: seq<Outcome>)
  {
    && |trail| == |ops| + 1 && |ops| == |outs|
    && (forall k :: 0 <= k < |trail| ==> StopOk(l, trail[k]))
    && forall k :: 0 <= k < |ops| ==> StepOk(l, trail[k], ops[k], outs[k], trail[k + 1])
  }

  lemma TrailSnoc(l: Layout, trail: seq<Stop>, ops: seq<Op>, outs: seq<Outcome>, n: nat, out: Outcome, q: Stop)
    requires n < |ops| && IsTrail(l, trail, ops[..n], outs) && StepOk(l, trail[n], ops[n], out, q) && StopOk(l, q)
    ensures IsTrail(l, trail + [q], ops[..n + 1], outs + [out])
  {
    hide StepOk, StopOk;
  }

  /** The flat view of a disk. */
  ghost function View(st: State): (r: seq<File>)
    ensures |r| == |st.inodes|
    ensures forall i: nat :: i < |r| ==> r[i] == File(st.inodes[i].typ, Content(st, i))
  {
    seq(|st.inodes|, i requires 0 <= i < |st.inodes| => File(st.inodes[i].typ, Content(st, i)))
  }

  lemma SameContent(st: State, st': State, i: nat)
    requires SameFile(st, st', i) && i < |st.inodes| == |st'.inodes| && st.inodes[i].size == st'.inodes[i].size
    ensures Content(st', i) == Content(st, i)
  {
  }

  /** Changing one file changes one file of the view. */
  lemma ViewUpdate(st: State, st': State, i: nat)
    requires i < |st.inodes| == |st'.inodes|
    requires forall j: nat :: j < |st.inodes| && j != i ==>
               SameFile(st, st', j) && st'.inodes[j].size == st.inodes[j].size && st'.inodes[j].typ == st.inodes[j].typ
    ensures View(st') == View(st)[i := File(st'.inodes[i].typ, Content(st', i))]
  {
    hide SameFile, Content;
    forall j: nat | j < |st.inodes| && j != i ensures View(st')[j] == View(st)[j] {
      SameContent(st, st', j);
    }
  }

  // ---------------------------------------------------------------------
  // Writes

  lemma WriteView(l: Layout, st: State, st': State, i: nat, off: nat, s: seq<nat>, r: nat, touched: nat, avail: nat,
                  logged: set<nat>)
    requires WriteEffect(l, st, st', i, off, s, r, touched, avail, logged) && off <= st.inodes[i].size
    ensures FlatWrite(View(st), i, off, s, r, touched, View(st'))
  {
    hide Content, SameFile, Splice, ByteAt;
    assert Spliced(st, st', i, off, s[..touched]);
    PartialContent(st, st', i, off, s[..touched], Max(st.inodes[i].size, off + r));
    ViewUpdate(st, st', i);
  }

  /** The file's contents when the size does not count all the bytes written. */
  lemma PartialContent(st: State, st': State, i: nat, off: nat, s: seq<nat>, n: nat)
    requires i < |st.inodes| == |st'.inodes| && Spliced(st, st', i, off, s) && off <= st.inodes[i].size
    requires st'.inodes[i].size == n && st.inodes[i].size <= n <= Max(st.inodes[i].size, off + |s|)
    ensures n <= |Splice(Content(st, i), off, s)| && Content(st', i) == Splice(Content(st, i), off, s)[..n]
  {
    hide ByteAt;
    var c, c' := Content(st, i), Content(st', i);
    forall k: nat | k < n ensures c'[k] == Splice(c, off, s)[k] {
      assert c'[k] == ByteAt(st', i, k);
      if k < |c| {
        assert c[k] == ByteAt(st, i, k);
      }
    }
  }

  /** Everything that is known about a write and its commit. */
  ghost predicate Wrote(l: Layout, p: Stop, q: Stop, i: nat, off: nat, s: seq<nat>, r: nat, touched: nat, avail: nat)
  {
    && WriteEffect(l, p.st, q.st, i, off, s, r, touched, avail, q.logged) && off <= p.st.inodes[i].size
    && Mountable(l, p.st, p.owner) && BackedBy(p.st, p.safe, p.owner) && Mountable(l, q.st, q.owner)
    && Committed(q.st, p.safe, q.safe, q.logged) && Ordered(l, |p.st.inodes|)
    && LoggedSlots(l, q.owner, i, off / BSIZE, WriteEnd(p.st, i, off, r), {i / IPB + l.inodeStart}, q.logged)
  }

  lemma WroteBacked(l: Layout, p: Stop, q: Stop, i: nat, off: nat, s: seq<nat>, r: nat, touched: nat, avail: nat)
    requires Wrote(l, p, q, i, off, s, r, touched, avail)
    ensures BackedBy(q.st, q.safe, q.owner)
  {
    hide Owned, BackedBy, RecordedBut, Recorded, Spliced, LoggedSlots, Committed, Ptr;
    var a := Ptr(q.st, NextSlot(i, off, r));
    NotIndirect(l, q.st, q.owner, i, (off + r) / BSIZE);
    BackedAfter(l, p.st, p.safe, p.owner, q.st, q.safe, q.owner, q.logged, a);
  }

  lemma NotIndirect(l: Layout, st: State, owner: map<nat, Slot>, i: nat, bn: nat)
    requires Owned(l, st, owner)
    ensures var a := Ptr(st, FileSlot(i, bn)); a in owner ==> !owner[a].Indirect?
  {
    SlotOwner(l, st, owner, FileSlot(i, bn));
    OwnedBound(l, st, owner, FileSlot(i, bn));
    ZeroUnowned(l, st, owner);
  }

  lemma ZeroUnowned(l: Layout, st: State, owner: map<nat, Slot>)
    requires Owned(l, st, owner)
    ensures 0 !in owner
  {
  }

  /** A byte of file j in the commit. */
  lemma WroteByte(l: Layout, p: Stop, q: Stop, i: nat, off: nat, s: seq<nat>, r: nat, touched: nat, avail: nat, j: nat,
                  k: nat)
    requires Wrote(l, p, q, i, off, s, r, touched, avail) && BackedBy(q.st, q.safe, q.owner)
    ensures j != i ==> ByteAt(Saved(q.st, q.safe), j, k) == ByteAt(Saved(p.st, p.safe), j, k)
    ensures j == i && Covers(off, r, k / BSIZE) ==> ByteAt(Saved(q.st, q.safe), j, k) == ByteAt(q.st, j, k)
    ensures j == i && !Covers(off, r, k / BSIZE) && k < p.st.inodes[i].size ==>
              ByteAt(Saved(q.st, q.safe), j, k) == ByteAt(Saved(p.st, p.safe), j, k)
  {
    hide Owned, BackedBy, Recorded, Spliced, LoggedSlots, Committed, Ptr, ByteAt, MappedTo, Empty;
    var t := FileSlot(j, k / BSIZE);
    assert GainsLogged(p.st, q.st, q.logged) by { ButGains(l, p.st, q.st, q.logged, Ptr(q.st, NextSlot(i, off, r))); }
    SavedByte(l, p.st, p.safe, p.owner, q.st, q.safe, q.owner, q.logged, j, k);
    LoggedData(l, q.st, q.owner, |p.st.inodes|, i, off / BSIZE, WriteEnd(p.st, i, off, r), q.logged, t);
    if j == i && !Covers(off, r, k / BSIZE) && k < p.st.inodes[i].size {
      assert NoHoles(p.st, i);
      Mapped(p.st, i, k);
      NotBetween(p.st, i, off, r, k / BSIZE);
    }
  }

  lemma ButGains(l: Layout, st: State, st': State, logged: set<nat>, a: nat)
    requires RecordedBut(l, st, st', logged, a)
    ensures GainsLogged(st, st', logged)
  {
  }

  lemma Mapped(st: State, i: nat, k: nat)
    requires i < |st.inodes| && NoHoles(st, i) && k < st.inodes[i].size
    ensures Ptr(st, FileSlot(i, k / BSIZE)) != 0
  {
  }

  /** Blocks of the file that the write did not reach are not among those it may have logged. */
  lemma NotBetween(st: State, i: nat, off: nat, r: nat, bn: nat)
    requires !Covers(off, r, bn) && Ptr(st, FileSlot(i, bn)) != 0
    ensures !Between(FileSlot(i, bn), i, off / BSIZE, WriteEnd(st, i, off, r))
  {
    hide Ptr;
    if Between(FileSlot(i, bn), i, off / BSIZE, WriteEnd(st, i, off, r)) {
      var k: nat :| off / BSIZE <= k < WriteEnd(st, i, off, r) && FileSlot(i, bn) == FileSlot(i, k);
      SameFileSlot(i, bn, i, k);
    }
  }

  lemma WroteContent(l: Layout, p: Stop, q: Stop, i: nat, off: nat, s: seq<nat>, r: nat, touched: nat, avail: nat)
    requires Wrote(l, p, q, i, off, s, r, touched, avail) && BackedBy(q.st, q.safe, q.owner)
    ensures Content(Saved(q.st, q.safe), i) == Merged(Content(q.st, i), Content(Saved(p.st, p.safe), i), off, r)
  {
    hide Mountable, BackedBy, Spliced, LoggedSlots, Committed, ByteAt, WriteRecorded, SlotsKept;
    var a, b, c := Content(q.st, i), Content(Saved(p.st, p.safe), i), Content(Saved(q.st, q.safe), i);
    assert |c| == |a| == Max(|b|, off + r);
    forall k: nat | k < |a| ensures c[k] == if Covers(off, r, k / BSIZE) || k >= |b| then a[k] else b[k] {
      CoversInside(off, r, k);
      WroteByte(l, p, q, i, off, s, r, touched, avail, i, k);
      assert c[k] == ByteAt(Saved(q.st, q.safe), i, k) && a[k] == ByteAt(q.st, i, k);
      assert k < |b| ==> b[k] == ByteAt(Saved(p.st, p.safe), i, k);
    }
  }

  lemma WroteSaved(l: Layout, p: Stop, q: Stop, i: nat, off: nat, s: seq<nat>, r: nat, touched: nat, avail: nat)
    requires Wrote(l, p, q, i, off, s, r, touched, avail) && BackedBy(q.st, q.safe, q.owner)
    ensures FlatSaved(View(q.st), View(Saved(p.st, p.safe)), i, off, r, View(Saved(q.st, q.safe)))
  {
    hide Mountable, BackedBy, Spliced, LoggedSlots, Committed, ByteAt, WriteRecorded, SlotsKept, Content, Merged, Wrote;
    WroteShape(l, p, q, i, off, s, r, touched, avail);
    var st, st' := Saved(p.st, p.safe), Saved(q.st, q.safe);
    forall j: nat | j < |st.inodes| && j != i
      ensures SameFile(st, st', j)
    {
      forall k: nat ensures ByteAt(st', j, k) == ByteAt(st, j, k) {
        WroteByte(l, p, q, i, off, s, r, touched, avail, j, k);
      }
    }
    ViewUpdate(st, st', i);
    WroteContent(l, p, q, i, off, s, r, touched, avail);
  }

  lemma WroteShape(l: Layout, p: Stop, q: Stop, i: nat, off: nat, s: seq<nat>, r: nat, touched: nat, avail: nat)
    requires Wrote(l, p, q, i, off, s, r, touched, avail)
    ensures i < |p.st.inodes| == |q.st.inodes| && off <= p.st.inodes[i].size
    ensures forall j :: 0 <= j < |p.st.inodes| && j != i ==> q.st.inodes[j] == p.st.inodes[j]
    ensures q.st.inodes[i].typ == p.st.inodes[i].typ
    ensures WriteEffect(l, p.st, q.st, i, off, s, r, touched, avail, q.logged)
    ensures WriteStops(l, q.st, off, s, r, touched, avail) && r <= avail && r <= touched <= |s|
  {
  }

  lemma WroteLogged(l: Layout, p: Stop, q: Stop, i: nat, off: nat, s: seq<nat>, r: nat, touched: nat, avail: nat)
    requires Wrote(l, p, q, i, off, s, r, touched, avail) && i / IPB + l.inodeStart in q.logged
    ensures ChangesLogged(l, Saved(p.st, p.safe), Saved(q.st, q.safe), q.logged)
  {
    hide Mountable, BackedBy, Spliced, LoggedSlots, Ptr, Recorded, GainsLogged;
    forall c: nat
      ensures InUse(Saved(p.st, p.safe), c) == InUse(p.st, c) && InUse(Saved(q.st, q.safe), c) == InUse(q.st, c)
    {
    }
  }

  /**
   * A write leaves every change logged exactly if it did not stop inside a block that was there before and
   * that it had changed: it stopped at the end of a block, or in one it had just added, or the bytes stored
   * were there already.
   */
  lemma TornExactly(l: Layout, p: Stop, q: Stop, i: nat, off: nat, s: seq<nat>, r: nat, touched: nat, avail: nat)
    requires Wrote(l, p, q, i, off, s, r, touched, avail) && i / IPB + l.inodeStart in q.logged
    ensures ChangesLogged(l, p.st, q.st, q.logged) <==>
            || touched == r || Ptr(p.st, NextSlot(i, off, r)) == 0
            || forall k: nat :: r <= k < touched ==> s[k] == ByteAt(p.st, i, off + k)
  {
    hide LoggedSlots, BackedBy, Committed, MappedTo, Empty, Ptr, ByteAt, Mountable, Spliced, GainsLogged;
    var bn := (off + r) / BSIZE;
    if touched > r && Ptr(p.st, FileSlot(i, bn)) != 0 {
      TornUnlogged(l, p, q, i, off, s, r, touched, avail);
      TornBlock(l, p, q, i, off, s, r, touched, avail);
    }
    assert forall j: nat :: j < |p.st.inodes| && q.st.inodes[j] != p.st.inodes[j] ==> j == i;
  }

  lemma TornUnlogged(l: Layout, p: Stop, q: Stop, i: nat, off: nat, s: seq<nat>, r: nat, touched: nat, avail: nat)
    requires Wrote(l, p, q, i, off, s, r, touched, avail)
    requires touched > r && Ptr(p.st, NextSlot(i, off, r)) != 0
    ensures Ptr(q.st, NextSlot(i, off, r)) == Ptr(p.st, NextSlot(i, off, r))
    ensures Ptr(q.st, NextSlot(i, off, r)) !in q.logged
  {
    hide LoggedSlots, BackedBy, Committed, MappedTo, Empty, Ptr, ByteAt, Owned, Spliced, Recorded, RecordedBut;
    var bn := (off + r) / BSIZE;
    assert !Covers(off, r, bn) by { StopsBefore(off, r, avail); }
    NotBetween(p.st, i, off, r, bn);
    LoggedData(l, q.st, q.owner, |p.st.inodes|, i, off / BSIZE, WriteEnd(p.st, i, off, r), q.logged, FileSlot(i, bn));
  }

  lemma StopsBefore(off: nat, r: nat, avail: nat)
    requires r == Whole(off, avail) && r < avail
    ensures !Covers(off, r, (off + r) / BSIZE)
    ensures off + avail <= ((off + r) / BSIZE + 1) * BSIZE
    ensures r > 0 ==> (off + r) % BSIZE == 0
  {
  }

  /** The block where a copy stopped is as before exactly if the bytes stored in it are. */
  lemma TornBlock(l: Layout, p: Stop, q: Stop, i: nat, off: nat, s: seq<nat>, r: nat, touched: nat, avail: nat)
    requires Wrote(l, p, q, i, off, s, r, touched, avail)
    requires touched > r && Ptr(p.st, NextSlot(i, off, r)) != 0
    ensures var a := Ptr(q.st, NextSlot(i, off, r));
            && a < |p.st.data| && a < |q.st.data|
            && (q.st.data[a] == p.st.data[a] <==>
                forall k: nat :: r <= k < touched ==> s[k] == ByteAt(p.st, i, off + k))
  {
    hide LoggedSlots, BackedBy, Committed, MappedTo, Empty, Ptr, Recorded, RecordedBut;
    var bn := (off + r) / BSIZE;
    StopsBefore(off, r, avail);
    assert Ptr(q.st, FileSlot(i, bn)) == Ptr(p.st, FileSlot(i, bn));
    OwnedBound(l, p.st, p.owner, FileSlot(i, bn));
    OwnedShape(l, p.st, p.owner);
    OwnedShape(l, q.st, q.owner);
    SameBlock(l, p.st, q.st, i, off, s, r, touched, bn);
  }

  /** Block bn is where the bytes of s from r up to `touched` go. */
  ghost predicate Stops(l: Layout, st0: State, st: State, i: nat, off: nat, s: seq<nat>, r: nat, touched: nat, bn: nat)
  {
    && Shaped(l, st0) && Shaped(l, st) && r <= touched <= |s| && Spliced(st0, st, i, off, s[..touched])
    && 0 < Ptr(st0, FileSlot(i, bn)) == Ptr(st, FileSlot(i, bn)) < l.size && bn == (off + r) / BSIZE
    && off + touched <= (bn + 1) * BSIZE && (r == 0 || (off + r) % BSIZE == 0)
  }

  lemma BlockByte(l: Layout, st: State, i: nat, bn: nat, x: nat)
    requires Shaped(l, st) && 0 < Ptr(st, FileSlot(i, bn)) < l.size && x < BSIZE
    ensures st.data[Ptr(st, FileSlot(i, bn))][x] == ByteAt(st, i, bn * BSIZE + x)
  {
    InBlock(bn, x);
  }

  lemma SameBytesSame(l: Layout, st0: State, st: State, i: nat, off: nat, s: seq<nat>, r: nat, touched: nat, bn: nat)
    requires Stops(l, st0, st, i, off, s, r, touched, bn)
    requires forall k: nat :: r <= k < touched ==> s[k] == ByteAt(st0, i, off + k)
    ensures st.data[Ptr(st, FileSlot(i, bn))] == st0.data[Ptr(st, FileSlot(i, bn))]
  {
    hide Ptr, ByteAt;
    var a := Ptr(st, FileSlot(i, bn));
    forall x: nat | x < BSIZE ensures st.data[a][x] == st0.data[a][x] {
      BlockByte(l, st, i, bn, x);
      BlockByte(l, st0, i, bn, x);
      var k := bn * BSIZE + x;
      if off <= k < off + touched {
        assert r <= k - off;
        assert s[k - off] == ByteAt(st0, i, off + (k - off));
      }
    }
  }

  lemma SameBlockSame(l: Layout, st0: State, st: State, i: nat, off: nat, s: seq<nat>, r: nat, touched: nat, bn: nat)
    requires Stops(l, st0, st, i, off, s, r, touched, bn)
    requires st.data[Ptr(st, FileSlot(i, bn))] == st0.data[Ptr(st, FileSlot(i, bn))]
    ensures forall k: nat :: r <= k < touched ==> s[k] == ByteAt(st0, i, off + k)
  {
    hide Ptr, ByteAt;
    forall k: nat | r <= k < touched ensures s[k] == ByteAt(st0, i, off + k) {
      var x := (off + k) % BSIZE;
      assert bn * BSIZE + x == off + k;
      BlockByte(l, st, i, bn, x);
      BlockByte(l, st0, i, bn, x);
    }
  }

  lemma SameBlock(l: Layout, st0: State, st: State, i: nat, off: nat, s: seq<nat>, r: nat, touched: nat, bn: nat)
    requires Stops(l, st0, st, i, off, s, r, touched, bn)
    ensures var a := Ptr(st, FileSlot(i, bn));
            st.data[a] == st0.data[a] <==> forall k: nat :: r <= k < touched ==> s[k] == ByteAt(st0, i, off + k)
  {
    hide Ptr, ByteAt, Spliced;
    if st.data[Ptr(st, FileSlot(i, bn))] == st0.data[Ptr(st, FileSlot(i, bn))] {
      SameBlockSame(l, st0, st, i, off, s, r, touched, bn);
    } else if forall k: nat :: r <= k < touched ==> s[k] == ByteAt(st0, i, off + k) {
      SameBytesSame(l, st0, st, i, off, s, r, touched, bn);
    }
  }

  lemma InBlock(bn: nat, x: nat)
    requires x < BSIZE
    ensures (bn * BSIZE + x) / BSIZE == bn && (bn * BSIZE + x) % BSIZE == x
  {
  }

  /** writei, and the commit of its transaction. */
  method ExecuteWrite(fs: FileSystem, i: nat, off: nat, s: seq<nat>, avail: nat, ghost p: Stop)
    returns (r: int, ghost q: Stop)
    requires fs.Valid() && i < |fs.inodes| && fs.inodes[i].typ != 0 && off < U32 && |s| < U32
    requires Here(fs, p) && StopOk(fs.l, p) && fs.logged == {} && Ordered(fs.l, |fs.inodes|)
    modifies fs
    ensures fs.Valid() && |fs.inodes| == old(|fs.inodes|) && Here(fs, q) && q.logged == fs.logged
    ensures StopOk(fs.l, q) && StepOk(fs.l, p, WriteOp(i, off, s, avail), Count(r), q)
  {
    hide Owned, NoHoles, Empty, Ptr, WriteEffect, LogCost, Content, LoggedFor, LoggedSlots, BackedBy, StepOk, StopOk,
         Mountable, View, Committed, WriteEnd, Rounds, MapSize;
    ghost var touched;
    StopShape(fs.l, p);
    r, touched := fs.Writei(i, off, s, avail);
    WrittenLength(fs.l, p, fs.St(), fs.owner, r, i, off, s, touched, avail, fs.logged);
    MountableIs(fs);
    ghost var ino := i / IPB + fs.l.inodeStart;
    assert {} + {ino} == {ino};
    fs.EndOp();
    q := Stop(Flat(View(fs.St()), View(fs.Safe())), fs.St(), fs.safe, fs.owner, fs.logged);
    assert Committed(q.st, p.safe, q.safe, q.logged) by { CommittedIs(q.st, p.safe, q.safe, q.logged); }
    if r == -1 {
      NothingWritten(fs.l, p, q, WriteOp(i, off, s, avail));
    } else {
      WriteIsStep(fs.l, p, q, i, off, s, r, touched, avail);
    }
  }

  lemma CommittedIs(st: State, safe: seq<Bytes>, safe': seq<Bytes>, logged: set<nat>)
    requires |safe| == |safe'| == |st.data|
    requires forall b: nat :: b < |safe| ==> safe'[b] == if b in logged then st.data[b] else safe[b]
    ensures Committed(st, safe, safe', logged)
  {
  }

  /** The file system stands at this stop. */
  ghost predicate Here(fs: FileSystem, p: Stop)
    reads fs
  {
    p.st == fs.St() && p.safe == fs.safe && p.owner == fs.owner
  }

  lemma StopShape(l: Layout, p: Stop)
    requires StopOk(l, p)
    ensures |p.safe| == |p.st.data| && BackedBy(p.st, p.safe, p.owner) && Mountable(l, p.st, p.owner)
  {
  }

  lemma WrittenLength(l: Layout, p: Stop, st: State, owner: map<nat, Slot>, r: int, i: nat, off: nat, s: seq<nat>,
                      touched: nat, avail: nat, logged: set<nat>)
    requires i < |p.st.inodes| && (r == -1 ==> st == p.st)
    requires r != -1 ==> r >= 0 && WriteEffect(l, p.st, st, i, off, s, r, touched, avail, logged)
    ensures |st.data| == |p.st.data| && i < |st.inodes| && st.inodes[i].typ == p.st.inodes[i].typ
  {
  }

  lemma MountableIs(fs: FileSystem)
    requires fs.Valid()
    ensures Mountable(fs.l, fs.St(), fs.owner)
  {
  }

  /** A transaction without changes. */
  lemma NothingCommitted(l: Layout, p: Stop, q: Stop)
    requires StopOk(l, p) && q.st == p.st && q.owner == p.owner && q.logged == {}
    requires q.files == Flat(View(q.st), View(Saved(q.st, q.safe))) && Committed(q.st, p.safe, q.safe, q.logged)
    ensures StopOk(l, q) && q.files == p.files && q.safe == p.safe
    ensures ChangesLogged(l, Saved(p.st, p.safe), Saved(q.st, q.safe), q.logged)
    ensures LoggedInPlace(l, |p.st.inodes|, q.logged)
  {
    hide Owned, View;
    assert q.safe == p.safe;
  }

  lemma NothingWritten(l: Layout, p: Stop, q: Stop, op: Op)
    requires StopOk(l, p) && q.st == p.st && q.owner == p.owner && q.logged == {}
    requires q.files == Flat(View(q.st), View(Saved(q.st, q.safe))) && Committed(q.st, p.safe, q.safe, q.logged)
    requires op.WriteOp? && op.i < |p.st.inodes| && Rejected(p.st.inodes[op.i].size, op.off, |op.s|)
    ensures StopOk(l, q) && StepOk(l, p, op, Count(-1), q)
  {
    hide Owned, ChangesLogged, LoggedInPlace, Mountable, BackedBy, LogCost;
    NothingCommitted(l, p, q);
    assert |p.files.now[op.i].bytes| == p.st.inodes[op.i].size;
  }

  lemma WriteIsStep(l: Layout, p: Stop, q: Stop, i: nat, off: nat, s: seq<nat>, r: nat, touched: nat, avail: nat)
    requires WriteEffect(l, p.st, q.st, i, off, s, r, touched, avail, q.logged) && StopOk(l, p)
    requires !Rejected(p.st.inodes[i].size, off, |s|)
    requires q.files == Flat(View(q.st), View(Saved(q.st, q.safe))) && Mountable(l, q.st, q.owner)
    requires Committed(q.st, p.safe, q.safe, q.logged) && Ordered(l, |p.st.inodes|)
    requires i / IPB + l.inodeStart in q.logged
    requires LoggedSlots(l, q.owner, i, off / BSIZE, WriteEnd(p.st, i, off, r), {i / IPB + l.inodeStart}, q.logged)
    requires |q.logged| <= LogCost(off, |s|) && LoggedFor(l, i, {}, q.logged)
    ensures StopOk(l, q) && StepOk(l, p, WriteOp(i, off, s, avail), Count(r), q)
  {
    hide Owned, Ptr, LoggedSlots, BackedBy, ChangesLogged, FlatWrite, FlatSaved, NoHoles, Empty, Spliced, LoggedInPlace,
         LoggedFor, LogCost, WriteRecorded, SlotsKept, Ordered, Mountable, Content, WriteEnd;
    assert Wrote(l, p, q, i, off, s, r, touched, avail);
    WroteBacked(l, p, q, i, off, s, r, touched, avail);
    WroteSaved(l, p, q, i, off, s, r, touched, avail);
    WroteLogged(l, p, q, i, off, s, r, touched, avail);
    WriteView(l, p.st, q.st, i, off, s, r, touched, avail, q.logged);
    PlaceLogged(l, |p.st.inodes|, i, q.logged);
    var op := WriteOp(i, off, s, avail);
    assert |p.files.now[i].bytes| == p.st.inodes[i].size;
    assert FlatWrote(p.files, op, r, touched, q.files);
  }

  // ---------------------------------------------------------------------
  // Operations on inodes alone

  /** Only inode i changes, and it is left without contents. */
  ghost predicate Blanked(p: Stop, q: Stop, i: nat)
  {
    && i < |p.st.inodes| == |q.st.inodes| && q.st.data == p.st.data && q.st.inodes[i].size == 0
    && forall j :: 0 <= j < |p.st.inodes| && j != i ==> q.st.inodes[j] == p.st.inodes[j]
  }

  lemma BlankedView(p: Stop, q: Stop, i: nat)
    requires Blanked(p, q, i)
    ensures View(q.st) == View(p.st)[i := File(q.st.inodes[i].typ, [])]
  {
    hide Content, SameFile;
    forall j: nat | j < |p.st.inodes| && j != i ensures SameFile(p.st, q.st, j) {
      forall t: Slot | t.i == j ensures Ptr(q.st, t) == Ptr(p.st, t) {
        SameInodeSlots(p.st, q.st, t);
      }
      SameFileFrame(p.st, q.st, j);
    }
    ViewUpdate(p.st, q.st, i);
    assert Content(q.st, i) == [];
  }

  /** Everything that is known about such an operation and its commit. */
  ghost predicate Changed(l: Layout, p: Stop, q: Stop, i: nat)
  {
    && Blanked(p, q, i) && StopOk(l, p) && Mountable(l, q.st, q.owner) && Ordered(l, |p.st.inodes|)
    && Recorded(l, p.st, q.st, q.logged) && Committed(q.st, p.safe, q.safe, q.logged)
    && i / IPB + l.inodeStart in q.logged && q.logged <= MapBlocks(l, MapSize(l)) + {i / IPB + l.inodeStart}
    && q.files == Flat(View(q.st), View(Saved(q.st, q.safe)))
  }

  lemma ChangedBacked(l: Layout, p: Stop, q: Stop, i: nat)
    requires Changed(l, p, q, i)
    ensures BackedBy(q.st, q.safe, q.owner)
  {
    hide Owned, BackedBy, Recorded, RecordedBut, Committed, MapBlocks, NoHoles, Empty, View;
    RecordedIsBut(l, p.st, q.st, q.logged, 0);
    ZeroUnowned(l, q.st, q.owner);
    BackedAfter(l, p.st, p.safe, p.owner, q.st, q.safe, q.owner, q.logged, 0);
  }

  lemma ChangedByte(l: Layout, p: Stop, q: Stop, i: nat, j: nat, k: nat)
    requires Changed(l, p, q, i) && BackedBy(q.st, q.safe, q.owner) && j != i && j < |p.st.inodes|
    ensures ByteAt(Saved(q.st, q.safe), j, k) == ByteAt(Saved(p.st, p.safe), j, k)
  {
    hide Owned, BackedBy, Committed, MapBlocks, NoHoles, Empty, View, ByteAt;
    var t := FileSlot(j, k / BSIZE);
    SameInodeSlots(p.st, q.st, t);
    hide Ptr;
    SavedByte(l, p.st, p.safe, p.owner, q.st, q.safe, q.owner, q.logged, j, k);
    OwnedBound(l, q.st, q.owner, t);
    if Ptr(q.st, t) in MapBlocks(l, MapSize(l)) {
      MapBlocksBound(l, MapSize(l), Ptr(q.st, t));
    }
  }

  lemma ChangedSaved(l: Layout, p: Stop, q: Stop, i: nat)
    requires Changed(l, p, q, i) && BackedBy(q.st, q.safe, q.owner)
    ensures View(Saved(q.st, q.safe)) == View(Saved(p.st, p.safe))[i := File(q.st.inodes[i].typ, [])]
  {
    hide Owned, BackedBy, Committed, MapBlocks, Mountable, ByteAt, Recorded, Content, StopOk;
    var st, st' := Saved(p.st, p.safe), Saved(q.st, q.safe);
    forall j: nat | j < |st.inodes| && j != i ensures SameFile(st, st', j) {
      forall k: nat ensures ByteAt(st', j, k) == ByteAt(st, j, k) {
        ChangedByte(l, p, q, i, j, k);
      }
    }
    ViewUpdate(st, st', i);
    assert Content(st', i) == [];
  }

  lemma ChangedLogged(l: Layout, p: Stop, q: Stop, i: nat)
    requires Changed(l, p, q, i)
    ensures ChangesLogged(l, Saved(p.st, p.safe), Saved(q.st, q.safe), q.logged)
    ensures |q.logged| <= MapSize(l) + 1 && LoggedInPlace(l, |p.st.inodes|, q.logged)
  {
    hide Mountable, BackedBy, Ptr, GainsLogged, StopOk, MapBlocks, View, LoggedInPlace;
    forall c: nat
      ensures InUse(Saved(p.st, p.safe), c) == InUse(p.st, c) && InUse(Saved(q.st, q.safe), c) == InUse(q.st, c)
    {
    }
    var ino := i / IPB + l.inodeStart;
    UnionBound(MapBlocks(l, MapSize(l)), {ino});
    SubsetBound(q.logged, MapBlocks(l, MapSize(l)) + {ino});
    assert |MapBlocks(l, MapSize(l))| <= MapSize(l);
    assert LoggedFor(l, i, {}, q.logged);
    PlaceLogged(l, |p.st.inodes|, i, q.logged);
  }

  /** Such an operation is a step that leaves file i empty, of the type it now has. */
  lemma ChangedStep(l: Layout, p: Stop, q: Stop, i: nat)
    requires Changed(l, p, q, i)
    ensures StopOk(l, q) && |q.logged| <= MapSize(l) + 1 && LoggedInPlace(l, |p.st.inodes|, q.logged)
    ensures ChangesLogged(l, Saved(p.st, p.safe), Saved(q.st, q.safe), q.logged)
    ensures forall b: nat :: b in q.logged && b < |q.safe| ==> b < |q.st.data| && q.safe[b] == q.st.data[b]
    ensures var f := File(q.st.inodes[i].typ, []);
            && i < |p.files.now| == |p.files.safe| && q.files == Flat(p.files.now[i := f], p.files.safe[i := f])
    ensures p.files.now[i].typ == p.files.safe[i].typ == p.st.inodes[i].typ
  {
    hide Mountable, BackedBy, Recorded, MapBlocks, View, LoggedInPlace, ChangesLogged;
    ChangedBacked(l, p, q, i);
    ChangedLogged(l, p, q, i);
    BlankedView(p, q, i);
    ChangedSaved(l, p, q, i);
    assert View(p.st)[i].typ == p.st.inodes[i].typ && View(Saved(p.st, p.safe))[i].typ == p.st.inodes[i].typ;
  }

  lemma TruncValid(st: State, st': State, owner: map<nat, Slot>, i: nat)
    requires TruncEffect(st, st', owner, i)
    requires forall j: nat :: j < |st.inodes| && st.inodes[j].typ == 0 ==> Empty(st, j)
    ensures forall j: nat :: j < |st'.inodes| && st'.inodes[j].typ == 0 ==> Empty(st', j)
    ensures st'.inodes == st.inodes[i := st'.inodes[i]]
  {
    forall j: nat | j < |st'.inodes| && st'.inodes[j].typ == 0 ensures Empty(st', j) {
      if j != i {
        EmptyKept(st, st', j);
      }
    }
  }

  /** itrunc, by itself or as part of freeing the inode, and the commit. */
  method ExecuteTrunc(fs: FileSystem, i: nat, free: bool, ghost p: Stop) returns (ghost q: Stop)
    requires fs.Valid() && i < |fs.inodes| && Here(fs, p) && StopOk(fs.l, p) && fs.logged == {}
    requires Ordered(fs.l, |fs.inodes|)
    modifies fs
    ensures fs.Valid() && |fs.inodes| == old(|fs.inodes|) && Here(fs, q)
    ensures StopOk(fs.l, q) && StepOk(fs.l, p, if free then FreeOp(i) else TruncOp(i), Done, q)
  {
    hide Owned, NoHoles, Empty, Ptr, TruncEffect, Recorded, MapBlocks, PeakOk, BackedBy, StopOk, Mountable, View,
         Committed, Ordered, ChangesLogged, LoggedInPlace;
    StopShape(fs.l, p);
    ghost var st0, owner0 := fs.St(), fs.owner;
    if free {
      fs.FreeInode(i);
      ghost var mid := fs.St().(inodes := fs.inodes[i := fs.inodes[i].(typ := st0.inodes[i].typ)]);
      TruncLeaves(st0, mid, owner0, i);
    } else {
      fs.Itrunc(i);
      TruncValid(st0, fs.St(), owner0, i);
      TruncLeaves(st0, fs.St(), owner0, i);
    }
    MountableIs(fs);
    fs.EndOp();
    q := Stop(Flat(View(fs.St()), View(fs.Safe())), fs.St(), fs.safe, fs.owner, fs.logged);
    CommittedIs(q.st, p.safe, q.safe, q.logged);
    assert Blanked(p, q, i);
    ChangedStep(fs.l, p, q, i);
  }

  lemma TruncLeaves(st: State, st': State, owner: map<nat, Slot>, i: nat)
    requires TruncEffect(st, st', owner, i)
    ensures i < |st.inodes| == |st'.inodes| && st'.data == st.data && st'.inodes[i].size == 0
    ensures st'.inodes[i].typ == st.inodes[i].typ
    ensures forall j :: 0 <= j < |st.inodes| && j != i ==> st'.inodes[j] == st.inodes[j]
  {
  }

  lemma AllocRecorded(l: Layout, st: State, st': State, inum: nat, typ: int, logged: set<nat>)
    requires inum < |st.inodes| && st' == st.(inodes := st.inodes[inum := FreshInode(typ)])
    ensures Recorded(l, st, st', logged)
  {
    forall t ensures Ptr(st', t) == Ptr(st, t) || Ptr(st', t) == 0 {
      if t.i == inum {
        assert forall k: nat :: Addr(st', inum, k) == 0;
      } else {
        assert forall k: nat :: Addr(st', t.i, k) == Addr(st, t.i, k);
      }
    }
    assert forall c: nat :: InUse(st', c) == InUse(st, c);
  }

  /** ialloc and the commit. */
  method ExecuteAlloc(fs: FileSystem, typ: int, ghost p: Stop) returns (inum: nat, ghost q: Stop)
    requires fs.Valid() && typ != 0 && |fs.inodes| > 0 && Here(fs, p) && StopOk(fs.l, p) && fs.logged == {}
    requires Ordered(fs.l, |fs.inodes|)
    modifies fs
    ensures fs.Valid() && |fs.inodes| == old(|fs.inodes|) && Here(fs, q)
    ensures StopOk(fs.l, q) && StepOk(fs.l, p, AllocOp(typ), Ino(inum), q)
  {
    hide Owned, NoHoles, Empty, Ptr, Recorded, MapBlocks, PeakOk, BackedBy, StopOk, Mountable, View, Committed, Ordered,
         ChangesLogged, LoggedInPlace, SameFiles;
    StopShape(fs.l, p);
    inum := fs.Ialloc(typ);
    ghost var ino := inum / IPB + fs.l.inodeStart;
    assert {} + {ino} == {ino};
    MountableIs(fs);
    fs.EndOp();
    q := Stop(Flat(View(fs.St()), View(fs.Safe())), fs.St(), fs.safe, fs.owner, fs.logged);
    CommittedIs(q.st, p.safe, q.safe, q.logged);
    if inum == 0 {
      NothingCommitted(fs.l, p, q);
      ViewTypes(fs.l, p);
    } else {
      AllocRecorded(fs.l, p.st, q.st, inum, typ, q.logged);
      ChangedStep(fs.l, p, q, inum);
      assert |{ino}| == 1;
    }
  }

  lemma ViewTypes(l: Layout, p: Stop)
    requires StopOk(l, p)
    ensures |p.files.now| == |p.files.safe| == |p.st.inodes|
    ensures forall k :: 0 <= k < |p.st.inodes| ==> p.files.now[k].typ == p.st.inodes[k].typ
    ensures forall k: nat :: k < |p.st.inodes| ==> p.files.now[k].bytes == Content(p.st, k)
  {
    hide Content, Mountable, BackedBy;
  }

  lemma NoHolesSize(st: State, i: nat)
    requires NoHoles(st, i) && i < |st.inodes|
    ensures st.inodes[i].size <= MAXFILE * BSIZE
  {
  }

  /** readi, which commits nothing. */
  method ExecuteRead(fs: FileSystem, i: nat, off: nat, n: nat, room: nat, ghost p: Stop) returns (out: Outcome,
                     ghost q: Stop)
    requires fs.Valid() && i < |fs.inodes| && off < U32 && n < U32 && Here(fs, p) && StopOk(fs.l, p) && fs.logged == {}
    modifies fs
    ensures fs.Valid() && |fs.inodes| == old(|fs.inodes|) && Here(fs, q)
    ensures StopOk(fs.l, q) && StepOk(fs.l, p, ReadOp(i, off, n, room), out, q)
  {
    hide Owned, NoHoles, Empty, Ptr, BackedBy, StopOk, Mountable, View, Committed, ChangesLogged, LoggedInPlace,
         Content;
    StopShape(fs.l, p);
    ViewTypes(fs.l, p);
    assert |Content(p.st, i)| == p.st.inodes[i].size;
    NoHolesSize(p.st, i);
    var res := fs.Readi(i, off, n, room);
    out := match res case Fault => Faulted case Read(b) => Data(b);
    q := Stop(Flat(View(fs.St()), View(fs.Safe())), fs.St(), fs.safe, fs.owner, fs.logged);
    CommittedIs(q.st, p.safe, q.safe, q.logged);
    NothingCommitted(fs.l, p, q);
  }

  // ---------------------------------------------------------------------
  // Recycled buffers

  lemma RecycleStep(l: Layout, p: Stop, q: Stop, b: nat)
    requires StopOk(l, p) && b < |p.safe| && q.st == p.st.(data := p.st.data[b := p.safe[b]])
    requires q.safe == p.safe && q.owner == p.owner && q.logged == {}
    requires q.files == Flat(View(q.st), View(Saved(q.st, q.safe)))
    ensures StopOk(l, q) && StepOk(l, p, RecycleOp(b), Done, q)
  {
    hide Owned, Empty, Ptr, View, ByteAt, Content;
    RecycledSlots(l, p.st, p.safe, p.owner, b);
    RecycleMountable(l, p.st, q.st, p.owner);
    assert Saved(q.st, q.safe) == Saved(p.st, p.safe);
    if b in p.owner && !p.owner[b].Indirect? {
      OwnedSlotForm(l, p.st, p.owner, b);
      var i: nat, bn: nat :| p.owner[b] == FileSlot(i, bn) && i < |p.st.inodes|;
      RecycledFile(l, p, q, b, i, bn);
      assert FlatRecycled(p.files, q.files, i, bn);
    } else {
      RecycledNothing(l, p, q, b);
    }
  }

  lemma RecycleMountable(l: Layout, st: State, st': State, owner: map<nat, Slot>)
    requires Mountable(l, st, owner) && SameSlots(st, st') && Owned(l, st', owner) && st'.inodes == st.inodes
    ensures Mountable(l, st', owner)
  {
    hide Owned, Ptr;
    forall i: nat | i < |st'.inodes| ensures NoHoles(st', i) {
      assert NoHoles(st, i);
    }
  }

  lemma OwnedSlotForm(l: Layout, st: State, owner: map<nat, Slot>, b: nat)
    requires Owned(l, st, owner) && b in owner && !owner[b].Indirect?
    ensures exists i: nat, bn: nat :: owner[b] == FileSlot(i, bn) && i < |st.inodes|
  {
    var t := owner[b];
    assert Ptr(st, t) == b;
    var bn := if t.Direct? then t.k else NDIRECT + t.j;
    assert owner[b] == FileSlot(t.i, bn) && t.i < |st.inodes|;
  }

  lemma RecycledFile(l: Layout, p: Stop, q: Stop, b: nat, i: nat, bn: nat)
    requires StopOk(l, p) && b < |p.safe| && q.st == p.st.(data := p.st.data[b := p.safe[b]])
    requires b in p.owner && p.owner[b] == FileSlot(i, bn) && i < |p.st.inodes|
    ensures View(q.st) == View(p.st)[i := View(p.st)[i].(bytes := Reverted(View(p.st)[i].bytes,
                                                                         View(Saved(p.st, p.safe))[i].bytes, bn))]
  {
    hide Empty, NoHoles, BackedBy, ByteAt, Ptr;
    forall j: nat, k: nat
      ensures ByteAt(q.st, j, k) ==
              if j == i && k / BSIZE == bn then ByteAt(Saved(p.st, p.safe), j, k) else ByteAt(p.st, j, k)
    {
      RecycledByte(l, p.st, p.safe, p.owner, b, j, k);
      SlotOwner(l, p.st, p.owner, FileSlot(j, k / BSIZE));
      if FileSlot(j, k / BSIZE) == FileSlot(i, bn) {
        SameFileSlot(j, k / BSIZE, i, bn);
      }
      ZeroUnowned(l, p.st, p.owner);
    }
    hide Owned;
    forall j: nat | j < |p.st.inodes| && j != i ensures SameFile(p.st, q.st, j) { }
    ViewUpdate(p.st, q.st, i);
    RevertedContent(p.st, q.st, Saved(p.st, p.safe), i, bn);
  }

  lemma RevertedContent(st: State, st': State, old_: State, i: nat, bn: nat)
    requires i < |st.inodes| == |st'.inodes| == |old_.inodes|
    requires st'.inodes[i].size == st.inodes[i].size == old_.inodes[i].size
    requires forall k: nat :: ByteAt(st', i, k) == if k / BSIZE == bn then ByteAt(old_, i, k) else ByteAt(st, i, k)
    ensures Content(st', i) == Reverted(Content(st, i), Content(old_, i), bn)
  {
    hide ByteAt;
    var a, b, c := Content(st, i), Content(old_, i), Content(st', i);
    forall k: nat | k < |a| ensures c[k] == if k / BSIZE == bn && k < |b| then b[k] else a[k] {
      assert c[k] == ByteAt(st', i, k) && a[k] == ByteAt(st, i, k) && b[k] == ByteAt(old_, i, k);
    }
  }

  lemma RecycledNothing(l: Layout, p: Stop, q: Stop, b: nat)
    requires StopOk(l, p) && b < |p.safe| && q.st == p.st.(data := p.st.data[b := p.safe[b]])
    requires b !in p.owner || p.owner[b].Indirect?
    ensures View(q.st) == View(p.st)
  {
    hide Empty, NoHoles, BackedBy, ByteAt, Ptr;
    forall j: nat, k: nat ensures ByteAt(q.st, j, k) == ByteAt(p.st, j, k) {
      RecycledByte(l, p.st, p.safe, p.owner, b, j, k);
      SlotOwner(l, p.st, p.owner, FileSlot(j, k / BSIZE));
    }
    hide Owned, Content;
    forall j: nat | j < |p.st.inodes| ensures View(q.st)[j] == View(p.st)[j] {
      assert SameFile(p.st, q.st, j);
      SameContent(p.st, q.st, j);
    }
  }

  method ExecuteRecycle(fs: FileSystem, b: nat, ghost p: Stop) returns (ghost q: Stop)
    requires fs.Valid() && Here(fs, p) && StopOk(fs.l, p) && fs.logged == {}
    modifies fs
    ensures fs.Valid() && |fs.inodes| == old(|fs.inodes|) && Here(fs, q)
    ensures StopOk(fs.l, q) && StepOk(fs.l, p, RecycleOp(b), Done, q)
  {
    hide Owned, NoHoles, Empty, Ptr, BackedBy, StopOk, StepOk, View, Committed;
    StopShape(fs.l, p);
    if b < |fs.data| {
      fs.Recycle(b);
      q := Stop(Flat(View(fs.St()), View(fs.Safe())), fs.St(), fs.safe, fs.owner, {});
      RecycleStep(fs.l, p, q, b);
      StopShape(fs.l, q);
    } else {
      q := Stop(Flat(View(fs.St()), View(fs.Safe())), fs.St(), fs.safe, fs.owner, {});
      CommittedIs(q.st, p.safe, q.safe, {});
      IdleStep(fs.l, p, q, b);
    }
  }

  lemma IdleStep(l: Layout, p: Stop, q: Stop, b: nat)
    requires StopOk(l, p) && q.st == p.st && q.owner == p.owner && q.logged == {}
    requires q.files == Flat(View(q.st), View(Saved(q.st, q.safe))) && Committed(q.st, p.safe, q.safe, q.logged)
    ensures StopOk(l, q) && StepOk(l, p, RecycleOp(b), Done, q)
  {
    hide ChangesLogged, LoggedInPlace, StopOk;
    NothingCommitted(l, p, q);
  }

  // ---------------------------------------------------------------------
  // Runs

  /** One operation of the implementation, in its own transaction, is one step of the flat file system. */
  method Execute(fs: FileSystem, op: Op, ghost p: Stop) returns (out: Outcome, ghost q: Stop)
    requires fs.Valid() && |fs.inodes| > 0 && Allowed(View(fs.St()), op) && Ordered(fs.l, |fs.inodes|)
    requires Here(fs, p) && StopOk(fs.l, p)
    modifies fs
    ensures fs.Valid() && |fs.inodes| == old(|fs.inodes|) && Here(fs, q)
    ensures StopOk(fs.l, q) && StepOk(fs.l, p, op, out, q)
  {
    hide Owned, NoHoles, Empty, Ptr, BackedBy, StopOk, StepOk, Ordered;
    fs.BeginOp();
    out := Done;
    match op {
      case WriteOp(i, off, s, avail) =>
        var r;
        r, q := ExecuteWrite(fs, i, off, s, avail, p);
        out := Count(r);
      case ReadOp(i, off, n, room) =>
        out, q := ExecuteRead(fs, i, off, n, room, p);
      case TruncOp(i) =>
        q := ExecuteTrunc(fs, i, false, p);
      case AllocOp(typ) =>
        var inum;
        inum, q := ExecuteAlloc(fs, typ, p);
        out := Ino(inum);
      case FreeOp(i) =>
        q := ExecuteTrunc(fs, i, true, p);
      case RecycleOp(b) =>
        q := ExecuteRecycle(fs, b, p);
    }
  }

  /** Any run of operations that their callers are entitled to make, with buffers recycled at any time, keeps the
      disk consistent and reports and leaves behind what the flat file system would. */
  method Run(fs: FileSystem, ops: seq<Op>) returns (outs: seq<Outcome>, done: nat, ghost trail: seq<Stop>)
    requires fs.Valid() && |fs.inodes| > 0 && Ordered(fs.l, |fs.inodes|) && fs.safe == fs.data
    modifies fs
    ensures fs.Valid() && done == |outs| <= |ops| && IsTrail(fs.l, trail, ops[..done], outs)
    ensures trail[0].st == old(fs.St()) && trail[0].safe == old(fs.data) && Here(fs, trail[done])
    ensures done < |ops| ==> !Allowed(View(fs.St()), ops[done])
  {
    hide StepOk, View, Allowed, Ordered;
    ghost var p := Stop(Flat(View(fs.St()), View(fs.Safe())), fs.St(), fs.safe, fs.owner, {});
    outs, done, trail := [], 0, [p];
    while done < |ops|
      invariant done == |outs| <= |ops| && fs.Valid() && |fs.inodes| > 0 && Ordered(fs.l, |fs.inodes|)
      invariant IsTrail(fs.l, trail, ops[..done], outs) && trail[done] == p && StopOk(fs.l, p)
      invariant Here(fs, p) && trail[0].st == old(fs.St()) && trail[0].safe == old(fs.data)
    {
      var ok := MayRun(fs, ops[done]);
      if !ok {
        return;
      }
      var out;
      ghost var q;
      out, q := Execute(fs, ops[done], p);
      TrailSnoc(fs.l, trail, ops, outs, done, out, q);
      outs, done, trail, p := outs + [out], done + 1, trail + [q], q;
    }
  }

  /** Whether the caller of op holds an allocated inode. */
  method MayRun(fs: FileSystem, op: Op) returns (ok: bool)
    ensures ok == Allowed(View(fs.St()), op)
  {
    match op
    case WriteOp(i, off, s, _) => ok := i < |fs.inodes| && fs.inodes[i].typ != 0 && off < U32 && |s| < U32;
    case ReadOp(i, off, n, _) => ok := i < |fs.inodes| && off < U32 && n < U32;
    case TruncOp(i) => ok := i < |fs.inodes|;
    case AllocOp(typ) => ok := typ != 0;
    case FreeOp(i) => ok := i < |fs.inodes|;
    case RecycleOp(_) => ok := true;
  }

  // ---------------------------------------------------------------------
  // Runs without torn writes

  /** The write would stop inside a block of the file that it had changed: what its caller can know before. */
  predicate WouldTear(files: seq<File>, op: Op)
  {
    && op.WriteOp? && op.i < |files| && op.avail < |op.s|
    && Tears(files[op.i].bytes, op.off, op.s, Whole(op.off, op.avail), op.avail)
  }

  /** Everything that programs read is committed. */
  ghost predicate Settled(f: Flat)
  {
    f.now == f.safe
  }

  lemma StepSettles(l: Layout, p: Stop, op: Op, out: Outcome, q: Stop)
    requires StepOk(l, p, op, out, q) && Settled(p.files) && !WouldTear(p.files.now, op)
    ensures Settled(q.files)
  {
    hide ChangesLogged, LoggedInPlace, OpCost, Tears, DiskFull, Whole;
    if op.WriteOp? && out.r != -1 {
      if FlatWrote(p.files, op, out.r, out.r, q.files) {
        WriteSettles(p.files, op, out.r, out.r, q.files);
        NoTear(p.files.now[op.i].bytes, op.off, op.s, out.r);
      } else {
        WriteSettles(p.files, op, out.r, op.avail, q.files);
      }
    } else if op.RecycleOp? {
      RecycleSettles(p.files, out, op.b, q.files);
    }
  }

  /** A write that stores all its bytes leaves a settled file system settled. */
  lemma StepSettlesWhole(l: Layout, p: Stop, op: Op, out: Outcome, q: Stop)
    requires StepOk(l, p, op, out, q) && op.WriteOp? && out == Count(|op.s|)
    ensures Settled(p.files) ==> Settled(q.files)
  {
    hide ChangesLogged, LoggedInPlace, OpCost, Tears, DiskFull, Settled;
    if Settled(p.files) {
      StepSettles(l, p, op, out, q);
    }
  }

  lemma NoTear(c: seq<nat>, off: nat, s: seq<nat>, r: nat)
    ensures !Tears(c, off, s, r, r)
  {
  }

  /** A write to a settled file system that the disk has room for leaves it settled exactly if it does not tear. */
  lemma TearsExactly(l: Layout, p: Stop, op: Op, out: Outcome, q: Stop)
    requires StepOk(l, p, op, out, q) && Settled(p.files) && op.WriteOp? && !DiskFull(l, q.st)
    requires !Rejected(|p.files.now[op.i].bytes|, op.off, |op.s|)
    ensures Settled(q.files) <==> !WouldTear(p.files.now, op)
  {
    hide ChangesLogged, LoggedInPlace, OpCost, Tears, DiskFull;
    if op.avail < |op.s| {
      WriteSettles(p.files, op, out.r, op.avail, q.files);
    } else {
      StepSettles(l, p, op, out, q);
    }
  }

  /** As long as no write tears, programs read exactly what is committed, and recycling buffers is invisible. */
  lemma {:induction false} RunSettles(l: Layout, trail: seq<Stop>, ops: seq<Op>, outs: seq<Outcome>, n: nat)
    requires IsTrail(l, trail, ops, outs) && n <= |ops| && Settled(trail[0].files)
    requires forall k :: 0 <= k < n ==> !WouldTear(trail[k].files.now, ops[k])
    ensures Settled(trail[n].files)
    ensures n > 0 && ops[n - 1].RecycleOp? ==> trail[n].files == trail[n - 1].files
  {
    hide StepOk, StopOk, WouldTear;
    if n > 0 {
      RunSettles(l, trail, ops, outs, n - 1);
      assert StepOk(l, trail[n - 1], ops[n - 1], outs[n - 1], trail[n]);
      StepSettles(l, trail[n - 1], ops[n - 1], outs[n - 1], trail[n]);
      if ops[n - 1].RecycleOp? {
        RecycleIsNothing(l, trail[n - 1], ops[n - 1], outs[n - 1], trail[n]);
      }
    }
  }

  lemma RecycleIsNothing(l: Layout, p: Stop, op: Op, out: Outcome, q: Stop)
    requires StepOk(l, p, op, out, q) && Settled(p.files) && op.RecycleOp?
    ensures q.files == p.files
  {
    RecycleSettles(p.files, out, op.b, q.files);
  }
}
