/** mkfs: building the initial image, and exactly when the image is a consistent file system. */
module Mkfs {
  import opened Base
  import opened FsBytes
  import opened FsState
  import opened Fs
  import RedoLog

  const FSSIZE: nat := 2000
  const NINODES: nat := 200
  const NLOG: nat := RedoLog.LOGBLOCKS + 1
  const NINODEBLOCKS: nat := NINODES / IPB + 1
  const NBITMAP: nat := FSSIZE / BPB + 1
  const NMETA: nat := 2 + NLOG + NINODEBLOCKS + NBITMAP

  /** The layout that mkfs writes into the superblock. */
  function ImageLayout(): Layout
  {
    Layout(FSSIZE, NMETA, 2 + NLOG, 2 + NLOG + NINODEBLOCKS)
  }

  const LOG: RedoLog.Geometry := RedoLog.Geometry(2, FSSIZE)

  /** Everything the file system logs lies outside the log area: inode blocks, free-map blocks and
      data blocks, which are also apart from each other. */
  lemma LoggedBlocksAreHome(i: nat, b: nat)
    requires i < NINODES && b < FSSIZE
    ensures var l := ImageLayout();
            && RedoLog.IsHome(LOG, i / IPB + l.inodeStart) && RedoLog.IsHome(LOG, b / BPB + l.bmapStart)
            && (l.nmeta <= b ==> RedoLog.IsHome(LOG, b))
            && i / IPB + l.inodeStart < b / BPB + l.bmapStart < l.nmeta
  {
    assert i / IPB <= 12;
  }

  /** The image under construction: blocks NMETA, NMETA+1, ... below freeblock are handed out, each
      to one slot, and all later blocks are still zero. */
  ghost predicate Building(l: Layout, st: State, owner: map<nat, Slot>, freeblock: nat)
  {
    && Linked(l, st, owner) && l.nmeta <= freeblock <= l.size
    && (forall b :: b in owner <==> l.nmeta <= b < freeblock)
    && (forall b: nat :: freeblock <= b < l.size ==> st.data[b] == ZeroBlock())
  }

  /** Exactly the blocks of file i below byte n are present, with an indirect block if they need one. */
  ghost predicate MappedExactly(st: State, i: nat, n: nat)
  {
    && (forall bn: nat :: bn < MAXFILE ==> (Ptr(st, FileSlot(i, bn)) != 0 <==> bn * BSIZE < n))
    && (Ptr(st, Indirect(i)) != 0 <==> NDIRECT * BSIZE < n)
  }

  /** How many blocks a file of n bytes takes up, its indirect block included. */
  function BlocksFor(n: nat): nat
  {
    (n + BSIZE - 1) / BSIZE + if n > NDIRECT * BSIZE then 1 else 0
  }

  /** File i reads as zero from byte n on. */
  ghost predicate ZeroFrom(st: State, i: nat, n: nat)
  {
    forall k: nat :: k >= n ==> ByteAt(st, i, k) == 0
  }

  /** A file of the image between calls: no block too few or too many, and nothing behind its end. */
  ghost predicate Tidy(st: State, i: nat)
  {
    i < |st.inodes| ==>
      && st.inodes[i].size <= MAXFILE * BSIZE && MappedExactly(st, i, st.inodes[i].size)
      && ZeroFrom(st, i, st.inodes[i].size)
  }

  /** Handing the next block to one of inode i's own address slots. */
  lemma TakeAddr(l: Layout, st: State, owner: map<nat, Slot>, fb: nat, i: nat, k: nat)
    requires Building(l, st, owner, fb) && i < |st.inodes| && k <= NDIRECT && Addr(st, i, k) == 0 && fb < l.size
    ensures var t := if k < NDIRECT then Direct(i, k) else Indirect(i);
            var st' := SetAddr(st, i, k, fb);
            && Building(l, st', owner[fb := t], fb + 1) && SlotSet(st, st', t, fb) && SameFiles(st, st')
  {
    var t := if k < NDIRECT then Direct(i, k) else Indirect(i);
    var st' := SetAddr(st, i, k, fb);
    if k < NDIRECT {
      SetDirectSlots(l, st, i, k, fb);
    } else {
      SetIndirectSlots(l, st, i, fb);
    }
    LinkedAdd(l, st, st', owner, t, fb);
    GrowKeepsFiles(l, st, st', owner, t, fb, 0);
  }

  /** Handing the next block to an entry of inode i's indirect block. */
  lemma TakeEntry(l: Layout, st: State, owner: map<nat, Slot>, fb: nat, i: nat, j: nat)
    requires Building(l, st, owner, fb) && i < |st.inodes| && j < NINDIRECT && fb < l.size
    requires Addr(st, i, NDIRECT) != 0 && Ptr(st, Entry(i, j)) == 0
    ensures var st' := SetCell(st, Addr(st, i, NDIRECT), j, fb);
            && Building(l, st', owner[fb := Entry(i, j)], fb + 1) && SlotSet(st, st', Entry(i, j), fb)
            && SameFiles(st, st')
  {
    var ib := Addr(st, i, NDIRECT);
    var st' := SetCell(st, ib, j, fb);
    assert Ptr(st, Indirect(i)) == ib;
    SetEntrySlots(l, st, owner, i, j, fb);
    LinkedAdd(l, st, st', owner, Entry(i, j), fb);
    GrowKeepsFiles(l, st, st', owner, Entry(i, j), fb, ib);
  }

  class Image {
    var data: seq<Bytes>
    var inodes: seq<Inode>
    var freeinode: nat
    var freeblock: nat
    ghost var owner: map<nat, Slot>

    ghost function St(): State
      reads this
    {
      State(seq(FSSIZE, _ => seq(8, _ => false)), data, inodes)
    }

    ghost predicate Valid()
      reads this
    {
      && Building(ImageLayout(), St(), owner, freeblock) && |inodes| == NINODES && 1 <= freeinode <= NINODES
      && (forall i: nat :: i < NINODES ==> Tidy(St(), i))
      && (forall i: nat :: i < NINODES && (i == 0 || i >= freeinode) ==> inodes[i] == FreshInode(0))
      && (forall i: nat :: 0 < i < freeinode ==> inodes[i].typ != 0)
    }

    /** Write zeroes to every block of the truncated host file. */
    constructor ()
      ensures Valid() && freeinode == 1 && freeblock == NMETA
    {
      data := seq(FSSIZE, _ => ZeroBlock());
      inodes := seq(NINODES, _ => FreshInode(0));
      freeinode, freeblock := 1, NMETA;
      owner := map[];
      new;
      forall t ensures Ptr(St(), t) == 0 {
        forall k ensures Addr(St(), t.i, k) == 0 {
        }
      }
    }

    /** ialloc. */
    method IAlloc(typ: int) returns (inum: nat)
      requires Valid() && freeinode < NINODES && typ != 0
      modifies `freeinode, `inodes
      ensures Valid() && inum == old(freeinode) && freeinode == inum + 1
      ensures inodes == old(inodes)[inum := FreshInode(typ).(nlink := 1)] && Content(St(), inum) == []
      ensures forall j: nat :: j < NINODES && j != inum ==> Content(St(), j) == old(Content(St(), j))
    {
      hide Building, Tidy, Content;
      inum := freeinode;
      freeinode := freeinode + 1;
      ghost var st0 := St();
      inodes := inodes[inum := FreshInode(typ).(nlink := 1)];
      RelabelFrame(ImageLayout(), st0, St(), owner, freeblock);
      forall i: nat | i < NINODES
        ensures Tidy(St(), i) && (i != inum ==> Content(St(), i) == Content(st0, i))
      {
        RelabelTidy(st0, St(), i);
      }
      assert |Content(St(), inum)| == inodes[inum].size;
    }

    /** Fill address slot k of inode inum from freeblock if it is empty.  A block number of FSSIZE is
        past the end of the file, so that the rsect which follows ends the program. */
    method TakeNext(inum: nat, k: nat, ghost fbn: nat) returns (x: Option<nat>)
      requires Building(ImageLayout(), St(), owner, freeblock) && inum < |inodes| && k <= NDIRECT
      requires k == fbn || (k == NDIRECT && NDIRECT <= fbn)
      modifies `inodes, `freeblock, `owner
      ensures x.None? <==> old(Addr(St(), inum, k)) == 0 && old(freeblock) == FSSIZE
      ensures x.Some? ==> && Building(ImageLayout(), St(), owner, freeblock) && Took(old(St()), St(), inum, fbn)
                          && x.value == Addr(St(), inum, k) != 0
                          && freeblock == old(freeblock) + (if old(Addr(St(), inum, k)) == 0 then 1 else 0)
                          && (k == NDIRECT ==> Ptr(St(), FileSlot(inum, fbn)) == old(Ptr(St(), FileSlot(inum, fbn))))
    {
      hide Building, Took, SameFiles, SlotSet;
      ghost var st0 := St();
      BuildingShape(ImageLayout(), st0, owner, freeblock);
      TookNothing(st0, inum, fbn);
      if inodes[inum].addrs[k] == 0 {
        if freeblock == FSSIZE {
          return None;
        }
        ghost var t := if k < NDIRECT then Direct(inum, k) else Indirect(inum);
        TakeAddr(ImageLayout(), St(), owner, freeblock, inum, k);
        TookSlot(st0, St(), SetAddr(St(), inum, k, freeblock), inum, fbn, t, freeblock);
        if k == NDIRECT {
          OtherSlot(St(), SetAddr(St(), inum, k, freeblock), t, freeblock, FileSlot(inum, fbn));
        }
        inodes := inodes[inum := inodes[inum].(addrs := inodes[inum].addrs[k := freeblock])];
        owner := owner[freeblock := t];
        freeblock := freeblock + 1;
      }
      return Some(inodes[inum].addrs[k]);
    }

    /** Entry j of the indirect block of inode inum, taken from freeblock if missing. */
    method TakeEntryNext(inum: nat, j: nat) returns (x: Option<nat>)
      requires Building(ImageLayout(), St(), owner, freeblock) && inum < |inodes| && j < NINDIRECT
      requires Addr(St(), inum, NDIRECT) != 0
      modifies `data, `freeblock, `owner
      ensures x.None? <==> old(Ptr(St(), Entry(inum, j))) == 0 && old(freeblock) == FSSIZE
      ensures x.Some? ==> && Building(ImageLayout(), St(), owner, freeblock)
                          && x.value == Ptr(St(), Entry(inum, j)) != 0
                          && freeblock == old(freeblock) + (if old(Ptr(St(), Entry(inum, j))) == 0 then 1 else 0)
      ensures x.Some? ==> SameFiles(old(St()), St()) && SlotSet(old(St()), St(), Entry(inum, j), x.value)
    {
      hide Building, SameFiles;
      BuildingShape(ImageLayout(), St(), owner, freeblock);
      BuildingBound(ImageLayout(), St(), owner, freeblock, Indirect(inum));
      SameAgain(St());
      var ib := inodes[inum].addrs[NDIRECT];
      if Word(data[ib], j) == 0 {
        if freeblock == FSSIZE {
          return None;
        }
        TakeEntry(ImageLayout(), St(), owner, freeblock, inum, j);
        data := data[ib := SetWord(data[ib], j, freeblock)];
        assert St() == SetCell(old(St()), ib, j, freeblock);
        owner := owner[freeblock := Entry(inum, j)];
        freeblock := freeblock + 1;
        assert Ptr(St(), Entry(inum, j)) == freeblock - 1;
      }
      x := Some(Word(data[ib], j));
    }

    /** The block of file inum that holds its block fbn, taken from freeblock if missing. */
    method MapNext(inum: nat, fbn: nat) returns (x: Option<nat>)
      requires Building(ImageLayout(), St(), owner, freeblock) && inum < |inodes| && fbn < MAXFILE
      modifies `data, `inodes, `freeblock, `owner
      ensures x.None? <==> old(freeblock) + Missing(old(St()), inum, fbn) > FSSIZE
      ensures x.Some? ==> && Building(ImageLayout(), St(), owner, freeblock) && Took(old(St()), St(), inum, fbn)
                          && x.value == Ptr(St(), FileSlot(inum, fbn)) != 0
                          && freeblock == old(freeblock) + Missing(old(St()), inum, fbn)
    {
      hide Building, Took, SameFiles, SlotSet;
      ghost var st0 := St();
      BuildingShape(ImageLayout(), st0, owner, freeblock);
      if fbn < NDIRECT {
        x := TakeNext(inum, fbn, fbn);
      } else {
        x := TakeNext(inum, NDIRECT, fbn);
        if x.Some? {
          ghost var st1 := St();
          TookShape(st0, st1, inum, fbn);
          x := TakeEntryNext(inum, fbn - NDIRECT);
          if x.Some? {
            TookSlot(st0, st1, St(), inum, fbn, FileSlot(inum, fbn), x.value);
          }
        }
      }
      if x.Some? {
        BuildingShape(ImageLayout(), St(), owner, freeblock);
      }
    }

    /** One round of iappend: the bytes up to the next block boundary.  It fails on the assertion
        fbn < MAXFILE and when the image is full. */
    method AppendRound(inum: nat, off0: nat, bytes: seq<nat>, done: nat, ghost st0: State) returns (ok: bool, n1: nat)
      requires Building(ImageLayout(), St(), owner, freeblock) && Appending(st0, St(), inum, off0, bytes, done)
      requires done < |bytes|
      modifies `data, `inodes, `freeblock, `owner
      ensures n1 == Min(|bytes| - done, BSIZE - (off0 + done) % BSIZE) && 0 < n1 && done + n1 <= |bytes|
      ensures ok <==> FitsRound(old(freeblock), off0 + done, n1)
      ensures ok ==> && Building(ImageLayout(), St(), owner, freeblock)
                     && Appending(st0, St(), inum, off0, bytes, done + n1)
                     && freeblock == old(freeblock) + BlocksFor(off0 + done + n1) - BlocksFor(off0 + done)
    {
      hide Building, Took, MappedExactly, Appending, Spliced, Content, Ptr, SameFiles, BlocksFor, Missing;
      var off := off0 + done;
      var fbn := off / BSIZE;
      AppendShape(st0, St(), inum, off0, bytes, done);
      n1 := Min(|bytes| - done, (fbn + 1) * BSIZE - off);
      assert (fbn + 1) * BSIZE - off == BSIZE - off % BSIZE;
      if fbn >= MAXFILE {
        return false, n1;
      }
      MissingCount(st0, St(), inum, off0, bytes, done, n1);
      ghost var st1 := St();
      var next := MapNext(inum, fbn);
      if next.None? {
        return false, n1;
      }
      var x := next.value;
      ghost var st2 := St();
      BuildingBound(ImageLayout(), st2, owner, freeblock, FileSlot(inum, fbn));
      ChunkBuilding(ImageLayout(), st2, owner, freeblock, inum, off, bytes[done..done + n1]);
      AppendStep(ImageLayout(), st0, st1, st2, owner, freeblock, inum, off0, bytes, done, n1);
      data := data[x := Overwrite(data[x], off - fbn * BSIZE, bytes[done..done + n1])];
      assert St() == Chunk(st2, inum, off, bytes[done..done + n1]);
      ok := true;
    }

    /** iappend: the bytes go to the end of file inum and no other file changes.  mkfs gives up exactly
        when the file would exceed MAXFILE blocks or the image its FSSIZE blocks. */
    method IAppend(inum: nat, bytes: seq<nat>) returns (ok: bool)
      requires Valid() && 0 < inum < freeinode
      modifies `data, `inodes, `freeblock, `owner
      ensures var size := old(inodes[inum].size);
              ok <==> && size + |bytes| <= MAXFILE * BSIZE
                      && old(freeblock) + BlocksFor(size + |bytes|) - BlocksFor(size) <= FSSIZE
      ensures ok ==> Valid() && freeinode == old(freeinode) && Appended(old(St()), St(), inum, bytes)
      ensures ok ==> freeblock == old(freeblock) + BlocksFor(inodes[inum].size) - BlocksFor(old(inodes[inum].size))
    {
      hide Building, Took, MappedExactly, Tidy, Appending, Spliced, Content, Ptr, SameFiles, BlocksFor;
      ghost var st0 := St();
      var off0 := inodes[inum].size;
      BuildingShape(ImageLayout(), st0, owner, freeblock);
      TidyShape(st0, inum);
      var done := 0;
      AppendStart(st0, inum, off0, bytes);
      while done < |bytes|
        invariant done <= |bytes| && Building(ImageLayout(), St(), owner, freeblock)
        invariant Appending(st0, St(), inum, off0, bytes, done)
        invariant freeblock == old(freeblock) + BlocksFor(off0 + done) - BlocksFor(off0)
        invariant off0 + done <= MAXFILE * BSIZE
      {
        var fits, n1 := AppendRound(inum, off0, bytes, done, st0);
        RoundInside(off0 + done, n1, off0 + |bytes|);
        if !fits {
          return false;
        }
        done := done + n1;
      }
      BuildingShape(ImageLayout(), St(), owner, freeblock);
      ghost var st3 := St();
      AppendShape(st0, st3, inum, off0, bytes, done);
      inodes := inodes[inum := inodes[inum].(size := off0 + done)];
      assert St() == SetSize(st3, inum, off0 + |bytes|);
      AppendEnd(ImageLayout(), st0, st3, owner, freeblock, inum, off0, bytes);
      AppendedShape(st0, St(), inum, bytes);
      ok := true;
    }

    /** The end of main: round the root directory's size up and write the free map.  balloc's assertion
        used < BPB cannot fail. */
    method Finish(root: nat) returns (st: State)
      requires Valid() && 0 < root < freeinode
      ensures Finished(St(), st, root, freeblock)
    {
      hide Building, Tidy;
      BuildingShape(ImageLayout(), St(), owner, freeblock);
      var off := inodes[root].size;
      off := (off / BSIZE + 1) * BSIZE;
      var map_ := MarkUsed(freeblock);
      st := State(map_, data, inodes[root := inodes[root].(size := off)]);
    }

    /** balloc: bits 0..used-1 of the free-map block. */
    static method MarkUsed(used: nat) returns (buf: seq<Bits>)
      requires used < BPB
      ensures |buf| == BSIZE && (forall q :: 0 <= q < BSIZE ==> |buf[q]| == 8)
      ensures forall b: nat :: b < BPB ==> (Bit(buf, b) <==> b < used)
    {
      buf := seq(BSIZE, _ => seq(8, _ => false));
      for i := 0 to used
        invariant |buf| == BSIZE && (forall q :: 0 <= q < BSIZE ==> |buf[q]| == 8)
        invariant forall b: nat :: b < BPB ==> (Bit(buf, b) <==> b < i)
      {
        ghost var prev := buf;
        buf := PutBit(buf, i, true);
        forall b: nat | b < BPB ensures Bit(buf, b) <==> b < i + 1 {
          PutBitGet(prev, i, true, b);
        }
      }
    }
  }

  /** How many blocks mapping block bn of file i takes. */
  ghost function Missing(st: State, i: nat, bn: nat): nat
  {
    (if Ptr(st, FileSlot(i, bn)) == 0 then 1 else 0) + if bn >= NDIRECT && Ptr(st, Indirect(i)) == 0 then 1 else 0
  }

  /** The next n1 bytes at off fit the file and, with fb blocks handed out, the image. */
  predicate FitsRound(fb: nat, off: nat, n1: nat)
  {
    off / BSIZE < MAXFILE && fb + BlocksFor(off + n1) - BlocksFor(off) <= FSSIZE
  }

  lemma RoundInside(off: nat, n1: nat, end: nat)
    requires 0 < n1 && off % BSIZE + n1 <= BSIZE && off + n1 <= end
    ensures off / BSIZE < MAXFILE <==> off + n1 <= MAXFILE * BSIZE
    ensures BlocksFor(off) <= BlocksFor(off + n1) <= BlocksFor(end)
  {
  }

  /** Bytes have been appended to file i: its contents and size say so, other files are unchanged. */
  ghost predicate Appended(st: State, st': State, i: nat, bytes: seq<nat>)
  {
    && i < |st.inodes| == |st'.inodes|
    && st'.inodes[i].(addrs := []) == st.inodes[i].(addrs := [], size := st.inodes[i].size + |bytes|)
    && Content(st', i) == Content(st, i) + bytes
    && (forall j: nat :: j < |st.inodes| && j != i ==>
          st'.inodes[j] == st.inodes[j] && Content(st', j) == Content(st, j))
  }

  lemma AppendedShape(st: State, st': State, i: nat, bytes: seq<nat>)
    requires Appended(st, st', i, bytes)
    ensures i < |st.inodes| == |st'.inodes| && st'.inodes[i].size == st.inodes[i].size + |bytes|
    ensures st'.inodes[i].typ == st.inodes[i].typ
    ensures forall j: nat :: j < |st.inodes| && j != i ==> st'.inodes[j] == st.inodes[j]
  {
    hide Content;
  }

  lemma TidyShape(st: State, i: nat)
    requires Tidy(st, i) && i < |st.inodes|
    ensures st.inodes[i].size <= MAXFILE * BSIZE && MappedExactly(st, i, st.inodes[i].size)
  {
  }

  lemma OtherSlot(st: State, st': State, t: Slot, b: nat, u: Slot)
    requires SlotSet(st, st', t, b) && u != t
    ensures Ptr(st', u) == Ptr(st, u)
  {
  }

  /** What a round needs is what the file's next n1 bytes take up. */
  lemma MissingCount(st0: State, st: State, i: nat, off: nat, bytes: seq<nat>, done: nat, n1: nat)
    requires Appending(st0, st, i, off, bytes, done) && (off + done) / BSIZE < MAXFILE
    requires 0 < n1 && (off + done) % BSIZE + n1 <= BSIZE
    ensures Missing(st, i, (off + done) / BSIZE) == BlocksFor(off + done + n1) - BlocksFor(off + done)
  {
    hide Ptr, Spliced;
    var o := off + done;
    assert MappedExactly(st, i, o);
    var bn := o / BSIZE;
    assert Ptr(st, FileSlot(i, bn)) != 0 <==> bn * BSIZE < o;
  }

  /** st is the finished image of a build: the root size rounded up, and the free map covering the
      blocks handed out. */
  ghost predicate Finished(full: State, st: State, root: nat, fb: nat)
  {
    && st.data == full.data && root < |full.inodes|
    && |st.bitmap| == BSIZE && (forall q :: 0 <= q < BSIZE ==> |st.bitmap[q]| == 8)
    && st.inodes == full.inodes[root := full.inodes[root].(size := (full.inodes[root].size / BSIZE + 1) * BSIZE)]
    && (forall b: nat :: b < BPB ==> (InUse(st, b) <==> b < fb))
  }

  lemma FinishedSlots(full: State, st: State, root: nat, fb: nat)
    requires Finished(full, st, root, fb)
    ensures SameSlots(full, st) && SameFiles(full, st)
  {
    forall t ensures Ptr(st, t) == Ptr(full, t) {
      forall k ensures Addr(st, t.i, k) == Addr(full, t.i, k) {
      }
    }
    forall i: nat ensures SameFile(full, st, i) {
      SameFileFrame(full, st, i);
    }
  }

  /** Every image that mkfs finishes is a file system with exact block ownership. */
  lemma ImageOwnership(full: State, st: State, owner: map<nat, Slot>, root: nat, fb: nat)
    requires Building(ImageLayout(), full, owner, fb) && Finished(full, st, root, fb)
    ensures Owned(ImageLayout(), st, owner)
  {
    FinishedSlots(full, st, root, fb);
    LinkedSame(ImageLayout(), full, st, owner);
  }

  /** Rounding up the root directory leaves it without holes exactly when its entries did not
      already fill whole blocks; every other file has none. */
  lemma ImageNoHoles(full: State, st: State, root: nat, fb: nat)
    requires Finished(full, st, root, fb) && forall i: nat :: i < |full.inodes| ==> Tidy(full, i)
    ensures NoHoles(st, root) <==> full.inodes[root].size % BSIZE != 0
    ensures forall i: nat :: i != root ==> NoHoles(st, i)
    ensures var bn := full.inodes[root].size / BSIZE;
            full.inodes[root].size % BSIZE == 0 && bn < MAXFILE ==> Ptr(st, FileSlot(root, bn)) == 0
  {
    FinishedSlots(full, st, root, fb);
    var off := full.inodes[root].size;
    var size := (off / BSIZE + 1) * BSIZE;
    assert Tidy(full, root);
    if off % BSIZE == 0 {
      if off < MAXFILE * BSIZE {
        assert Ptr(full, FileSlot(root, off / BSIZE)) == 0;
        assert Ptr(st, FileSlot(root, off / BSIZE)) == 0 && (off / BSIZE) * BSIZE < size;
      }
    } else {
      forall bn: nat | bn * BSIZE < size ensures Ptr(st, FileSlot(root, bn)) != 0 {
        assert bn * BSIZE < off && bn < MAXFILE;
      }
    }
    forall i: nat | i != root ensures NoHoles(st, i) {
      if i < |st.inodes| {
        assert Tidy(full, i);
        assert MappedExactly(full, i, full.inodes[i].size);
      }
    }
  }

  /** Between st and st' file i may have gained block bn (and its indirect block); nothing else changed. */
  ghost predicate Took(st: State, st': State, i: nat, bn: nat)
  {
    && i < |st.inodes| == |st'.inodes| && st'.bitmap == st.bitmap
    && (forall j :: 0 <= j < |st.inodes| && j != i ==> st'.inodes[j] == st.inodes[j])
    && st'.inodes[i].(addrs := []) == st.inodes[i].(addrs := [])
    && SameFiles(st, st')
    && (forall t: Slot :: t.i != i ==> Ptr(st', t) == Ptr(st, t))
    && (forall k: nat :: k != bn ==> Ptr(st', FileSlot(i, k)) == Ptr(st, FileSlot(i, k)))
    && (bn < NDIRECT ==> Ptr(st', Indirect(i)) == Ptr(st, Indirect(i)))
  }

  lemma TookNothing(st: State, i: nat, bn: nat)
    requires i < |st.inodes|
    ensures Took(st, st, i, bn)
  {
  }

  lemma TookShape(st: State, st': State, i: nat, bn: nat)
    requires Took(st, st', i, bn)
    ensures |st'.inodes| == |st.inodes|
  {
  }

  lemma SameAgain(st: State)
    ensures SameFiles(st, st)
  {
  }

  lemma TookSlot(st0: State, st: State, st': State, i: nat, bn: nat, t: Slot, b: nat)
    requires Took(st0, st, i, bn) && SlotSet(st, st', t, b) && SameFiles(st, st') && st'.bitmap == st.bitmap
    requires t == FileSlot(i, bn) || (t == Indirect(i) && bn >= NDIRECT)
    requires |st'.inodes| == |st.inodes| && forall j :: 0 <= j < |st.inodes| && j != i ==> st'.inodes[j] == st.inodes[j]
    requires st'.inodes[i].(addrs := []) == st.inodes[i].(addrs := [])
    ensures Took(st0, st', i, bn)
  {
    forall j: nat ensures SameFile(st0, st', j) {
      assert SameFile(st0, st, j) && SameFile(st, st', j);
    }
    forall k: nat | k != bn ensures Ptr(st', FileSlot(i, k)) == Ptr(st0, FileSlot(i, k)) {
      assert FileSlot(i, k) != t;
    }
  }

  lemma BuildingShape(l: Layout, st: State, owner: map<nat, Slot>, fb: nat)
    requires Building(l, st, owner, fb)
    ensures Shaped(l, st) && l.nmeta <= fb <= l.size
  {
  }

  lemma BuildingLinked(l: Layout, st: State, owner: map<nat, Slot>, fb: nat)
    requires Building(l, st, owner, fb)
    ensures Linked(l, st, owner)
  {
  }

  lemma BuildingBound(l: Layout, st: State, owner: map<nat, Slot>, fb: nat, t: Slot)
    requires Building(l, st, owner, fb)
    ensures Shaped(l, st) && (Ptr(st, t) != 0 ==> l.nmeta <= Ptr(st, t) < fb)
  {
  }

  lemma ChunkBuilding(l: Layout, st: State, owner: map<nat, Slot>, fb: nat, i: nat, off: nat, s: seq<nat>)
    requires Building(l, st, owner, fb) && off % BSIZE + |s| <= BSIZE && Ptr(st, FileSlot(i, off / BSIZE)) != 0
    ensures Building(l, Chunk(st, i, off, s), owner, fb)
  {
    ChunkLinked(l, st, owner, i, off, s);
  }

  /** The state of iappend's loop after `done` bytes. */
  ghost predicate Appending(st0: State, st: State, i: nat, off: nat, bytes: seq<nat>, done: nat)
  {
    && i < |st0.inodes| == |st.inodes| && done <= |bytes| && st.bitmap == st0.bitmap
    && (forall j :: 0 <= j < |st0.inodes| && j != i ==> st.inodes[j] == st0.inodes[j])
    && st.inodes[i].(addrs := []) == st0.inodes[i].(addrs := [])
    && (forall t: Slot :: t.i != i ==> Ptr(st, t) == Ptr(st0, t))
    && MappedExactly(st, i, off + done) && Spliced(st0, st, i, off, bytes[..done])
  }

  lemma AppendStart(st: State, i: nat, off: nat, bytes: seq<nat>)
    requires i < |st.inodes| && MappedExactly(st, i, off)
    ensures Appending(st, st, i, off, bytes, 0)
  {
    assert bytes[..0] == [];
  }

  lemma AppendShape(st0: State, st: State, i: nat, off: nat, bytes: seq<nat>, done: nat)
    requires Appending(st0, st, i, off, bytes, done)
    ensures i < |st0.inodes| == |st.inodes|
  {
  }

  lemma AppendStep(l: Layout, st0: State, st1: State, st2: State, owner: map<nat, Slot>, fb: nat, i: nat, off: nat,
                   bytes: seq<nat>, done: nat, m: nat)
    requires Appending(st0, st1, i, off, bytes, done) && Took(st1, st2, i, (off + done) / BSIZE)
    requires Building(l, st2, owner, fb) && Ptr(st2, FileSlot(i, (off + done) / BSIZE)) != 0
    requires 0 < m && done + m <= |bytes| && (off + done) % BSIZE + m <= BSIZE
    ensures Appending(st0, Chunk(st2, i, off + done, bytes[done..done + m]), i, off, bytes, done + m)
  {
    hide Building, Linked, Spliced, SameFiles, ByteAt, Ptr, MappedExactly;
    var o := off + done;
    var piece := bytes[done..done + m];
    BuildingLinked(l, st2, owner, fb);
    ChunkLinked(l, st2, owner, i, o, piece);
    AppendBytes(l, st0, st1, st2, owner, i, off, bytes, done, m);
    MappedStep(st1, Chunk(st2, i, o, piece), i, o, m);
  }

  lemma AppendBytes(l: Layout, st0: State, st1: State, st2: State, owner: map<nat, Slot>, i: nat, off: nat,
                    bytes: seq<nat>, done: nat, m: nat)
    requires Linked(l, st2, owner) && Ptr(st2, FileSlot(i, (off + done) / BSIZE)) != 0
    requires done + m <= |bytes| && (off + done) % BSIZE + m <= BSIZE
    requires Spliced(st0, st1, i, off, bytes[..done]) && SameFiles(st1, st2)
    ensures Spliced(st0, Chunk(st2, i, off + done, bytes[done..done + m]), i, off, bytes[..done + m])
  {
    hide Linked, Spliced, SameFiles, ByteAt, Ptr, Chunk;
    var o := off + done;
    var piece := bytes[done..done + m];
    var st3 := Chunk(st2, i, o, piece);
    ChunkBytes(l, st2, owner, i, o, piece);
    SplicedNothing(st1, st2, i, o);
    SplicedTrans(st1, st2, st3, i, o, [], piece);
    Glue(bytes, done, done + m);
    SplicedTrans(st0, st1, st3, i, off, bytes[..done], piece);
  }

  lemma Glue(s: seq<nat>, a: nat, b: nat)
    requires a <= b <= |s|
    ensures s[..a] + s[a..b] == s[..b] && [] + s[a..b] == s[a..b]
  {
  }

  lemma MappedStep(st: State, st': State, i: nat, o: nat, m: nat)
    requires MappedExactly(st, i, o) && 0 < m && o % BSIZE + m <= BSIZE && Ptr(st', FileSlot(i, o / BSIZE)) != 0
    requires forall k: nat :: k != o / BSIZE ==> Ptr(st', FileSlot(i, k)) == Ptr(st, FileSlot(i, k))
    requires o / BSIZE < NDIRECT ==> Ptr(st', Indirect(i)) == Ptr(st, Indirect(i))
    ensures MappedExactly(st', i, o + m)
  {
    forall bn: nat | bn < MAXFILE ensures Ptr(st', FileSlot(i, bn)) != 0 <==> bn * BSIZE < o + m {
      if bn != o / BSIZE {
        assert bn * BSIZE < o <==> bn * BSIZE < o + m;
      }
    }
    if o / BSIZE >= NDIRECT {
      EntryNeedsIndirect(st', i, o / BSIZE);
    }
  }

  lemma EntryNeedsIndirect(st: State, i: nat, bn: nat)
    requires bn >= NDIRECT && Ptr(st, FileSlot(i, bn)) != 0
    ensures Ptr(st, Indirect(i)) != 0
  {
  }

  /** After the size is updated the image is consistent again, and the file has grown by the bytes. */
  lemma AppendEnd(l: Layout, st0: State, st: State, owner: map<nat, Slot>, fb: nat, i: nat, off: nat, bytes: seq<nat>)
    requires Building(l, st, owner, fb) && Appending(st0, st, i, off, bytes, |bytes|)
    requires off == st0.inodes[i].size && off + |bytes| <= MAXFILE * BSIZE
    requires forall j: nat :: j < |st0.inodes| ==> Tidy(st0, j)
    ensures var st' := SetSize(st, i, off + |bytes|);
            && Building(l, st', owner, fb) && Appended(st0, st', i, bytes)
            && (forall j: nat :: j < |st'.inodes| ==> Tidy(st', j))
  {
    hide Building, Content, ByteAt, Ptr, MappedExactly;
    var st' := SetSize(st, i, off + |bytes|);
    RelabelFrame(l, st, st', owner, fb);
    forall j: nat ensures SameFile(st, st', j) {
      SameFileFrame(st, st', j);
    }
    assert bytes[..|bytes|] == bytes;
    SplicedNothing(st, st', i, off + |bytes|);
    SplicedTrans(st0, st, st', i, off, bytes, []);
    assert bytes + [] == bytes;
    SplicedContent(st0, st', i, off, bytes);
    assert |Content(st0, i)| == off;
    assert Splice(Content(st0, i), off, bytes) == Content(st0, i) + bytes;
    forall j: nat | j < |st'.inodes|
      ensures Tidy(st', j) && (j != i ==> Content(st', j) == Content(st0, j))
    {
      assert Tidy(st0, j);
      AppendTidy(st0, st, st', i, off, bytes, j);
    }
  }

  lemma AppendTidy(st0: State, st: State, st': State, i: nat, off: nat, bytes: seq<nat>, j: nat)
    requires Tidy(st0, j) && j < |st0.inodes| == |st.inodes| == |st'.inodes|
    requires i < |st0.inodes| && off == st0.inodes[i].size && st'.inodes[i].size == off + |bytes| <= MAXFILE * BSIZE
    requires Spliced(st0, st', i, off, bytes) && SameSlots(st, st') && MappedExactly(st, i, off + |bytes|)
    requires forall t: Slot :: t.i != i ==> Ptr(st, t) == Ptr(st0, t)
    requires j != i ==> st'.inodes[j] == st0.inodes[j]
    ensures Tidy(st', j) && (j != i ==> Content(st', j) == Content(st0, j))
  {
    hide Ptr, ByteAt;
    if j == i {
      assert MappedExactly(st', j, off + |bytes|);
    } else {
      assert forall bn: nat :: FileSlot(j, bn).i == j;
      assert MappedExactly(st', j, st0.inodes[j].size);
      assert SameFile(st0, st', j);
    }
  }

  /** Changes to inodes that leave every address alone. */
  lemma RelabelFrame(l: Layout, st: State, st': State, owner: map<nat, Slot>, fb: nat)
    requires Building(l, st, owner, fb) && st'.data == st.data && st'.bitmap == st.bitmap
    requires |st'.inodes| == |st.inodes|
    requires forall i :: 0 <= i < |st.inodes| ==> st'.inodes[i].addrs == st.inodes[i].addrs
    ensures Building(l, st', owner, fb) && SameSlots(st, st')
  {
    forall t ensures Ptr(st', t) == Ptr(st, t) {
      forall k ensures Addr(st', t.i, k) == Addr(st, t.i, k) {
      }
    }
    LinkedSame(l, st, st', owner);
  }

  lemma RelabelTidy(st: State, st': State, i: nat)
    requires SameSlots(st, st') && st'.data == st.data && |st'.inodes| == |st.inodes| && Tidy(st, i)
    requires i < |st.inodes| && st'.inodes[i].size == st.inodes[i].size
    ensures Tidy(st', i) && Content(st', i) == Content(st, i)
  {
    SameFileFrame(st, st', i);
    assert MappedExactly(st', i, st.inodes[i].size);
  }
}
