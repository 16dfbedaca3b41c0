/** The file system's on-disk state: which slot of which inode points at which block, who
    owns each block, and the byte contents of files. */
module FsState {
  import opened FsBytes

  /** The superblock: blocks below nmeta are boot, superblock, log, inodes and free map. */
  datatype Layout = Layout(size: nat, nmeta: nat, inodeStart: nat, bmapStart: nat)

  datatype Inode = Inode(typ: int, nlink: int, size: nat, addrs: seq<nat>)

  datatype State = State(bitmap: seq<Bits>, data: seq<Bytes>, inodes: seq<Inode>)

  /** A place that can hold a block number. */
  datatype Slot = Direct(i: nat, k: nat) | Indirect(i: nat) | Entry(i: nat, j: nat)

  ghost predicate Shaped(l: Layout, st: State)
  {
    && 0 < l.nmeta <= l.size < U32 && |st.data| == l.size && l.size <= 8 * |st.bitmap|
    && (forall b :: 0 <= b < |st.data| ==> |st.data[b]| == BSIZE)
    && (forall b :: 0 <= b < |st.bitmap| ==> |st.bitmap[b]| == 8)
    && (forall i :: 0 <= i < |st.inodes| ==> |st.inodes[i].addrs| == NDIRECT + 1)
  }

  function Addr(st: State, i: nat, k: nat): nat
  {
    if i < |st.inodes| && k < |st.inodes[i].addrs| then st.inodes[i].addrs[k] else 0
  }

  /** Word j of block b. */
  function Cell(st: State, b: nat, j: nat): nat
  {
    if 0 < b < |st.data| && j < NINDIRECT then Word(st.data[b], j) else 0
  }

  /** The block number in a slot; 0 when there is none. */
  function Ptr(st: State, t: Slot): nat
  {
    match t
    case Direct(i, k) => if k < NDIRECT then Addr(st, i, k) else 0
    case Indirect(i) => Addr(st, i, NDIRECT)
    case Entry(i, j) => Cell(st, Addr(st, i, NDIRECT), j)
  }

  predicate InUse(st: State, b: nat)
  {
    Bit(st.bitmap, b)
  }

  /** Every block a slot points at has that slot as its one owner, and conversely. */
  ghost predicate Linked(l: Layout, st: State, owner: map<nat, Slot>)
  {
    && Shaped(l, st)
    && (forall t :: Ptr(st, t) != 0 ==> Ptr(st, t) in owner && owner[Ptr(st, t)] == t)
    && (forall b :: b in owner ==> l.nmeta <= b < l.size && Ptr(st, owner[b]) == b)
  }

  /** Block ownership: the blocks marked in use are exactly the metadata and the blocks some
      slot points at, and no two slots point at the same block. */
  ghost predicate Owned(l: Layout, st: State, owner: map<nat, Slot>)
  {
    && Linked(l, st, owner)
    && (forall b: nat :: b < l.size ==> (InUse(st, b) <==> b < l.nmeta || b in owner))
  }

  // ---------------------------------------------------------------------
  // Updates

  /** balloc's effect on the disk: mark b and zero it. */
  function Allocated(st: State, b: nat): State
  {
    st.(bitmap := PutBit(st.bitmap, b, true),
        data := if b < |st.data| then st.data[b := ZeroBlock()] else st.data)
  }

  function Freed(st: State, b: nat): State
  {
    st.(bitmap := PutBit(st.bitmap, b, false))
  }

  function SetAddr(st: State, i: nat, k: nat, b: nat): State
  {
    if i < |st.inodes| && k < |st.inodes[i].addrs| then
      st.(inodes := st.inodes[i := st.inodes[i].(addrs := st.inodes[i].addrs[k := b])])
    else st
  }

  /** Store v as word j of block b. */
  function SetCell(st: State, b: nat, j: nat, v: nat): State
  {
    if b < |st.data| then st.(data := st.data[b := SetWord(st.data[b], j, v)]) else st
  }

  /** st' has the slots of st except that t now holds b. */
  ghost predicate SlotSet(st: State, st': State, t: Slot, b: nat)
  {
    forall u :: Ptr(st', u) == if u == t then b else Ptr(st, u)
  }

  ghost predicate SameSlots(st: State, st': State)
  {
    forall u :: Ptr(st', u) == Ptr(st, u)
  }

  /** Marking and zeroing a free block disturbs no slot. */
  lemma AllocatedSlots(l: Layout, st: State, owner: map<nat, Slot>, b: nat)
    requires Owned(l, st, owner) && b < l.size && !InUse(st, b)
    ensures Shaped(l, Allocated(st, b)) && SameSlots(st, Allocated(st, b))
    ensures forall c: nat :: InUse(Allocated(st, b), c) == (c == b || InUse(st, c))
  {
    var st' := Allocated(st, b);
    forall u ensures Ptr(st', u) == Ptr(st, u) {
      if u.Entry? {
        assert Addr(st, u.i, NDIRECT) == Ptr(st, Indirect(u.i));
        assert Addr(st, u.i, NDIRECT) != b;
      }
    }
    forall c: nat ensures InUse(st', c) == (c == b || InUse(st, c)) {
      PutBitGet(st.bitmap, b, true, c);
    }
  }

  lemma FreedSlots(l: Layout, st: State, b: nat)
    requires Shaped(l, st) && b < l.size
    ensures Shaped(l, Freed(st, b)) && SameSlots(st, Freed(st, b))
    ensures forall c: nat :: InUse(Freed(st, b), c) == (c != b && InUse(st, c))
  {
    forall c: nat ensures InUse(Freed(st, b), c) == (c != b && InUse(st, c)) {
      PutBitGet(st.bitmap, b, false, c);
    }
  }

  lemma SetDirectSlots(l: Layout, st: State, i: nat, k: nat, b: nat)
    requires Shaped(l, st) && i < |st.inodes| && k < NDIRECT
    ensures Shaped(l, SetAddr(st, i, k, b)) && SlotSet(st, SetAddr(st, i, k, b), Direct(i, k), b)
  {
  }

  /** Hanging a zeroed indirect block into an inode that has none adds no entries. */
  lemma SetIndirectSlots(l: Layout, st: State, i: nat, b: nat)
    requires Shaped(l, st) && i < |st.inodes| && Addr(st, i, NDIRECT) == 0
    requires b < |st.data| && st.data[b] == ZeroBlock()
    ensures Shaped(l, SetAddr(st, i, NDIRECT, b)) && SlotSet(st, SetAddr(st, i, NDIRECT, b), Indirect(i), b)
  {
    var st' := SetAddr(st, i, NDIRECT, b);
    forall u ensures Ptr(st', u) == if u == Indirect(i) then b else Ptr(st, u) {
      if u.Entry? && u.i == i {
        ZeroWord(u.j);
      }
    }
  }

  /** Storing an entry changes one slot, because no other inode shares the indirect block. */
  lemma SetEntrySlots(l: Layout, st: State, owner: map<nat, Slot>, i: nat, j: nat, b: nat)
    requires Linked(l, st, owner) && j < NINDIRECT && Addr(st, i, NDIRECT) != 0
    ensures var st' := SetCell(st, Addr(st, i, NDIRECT), j, b);
            Shaped(l, st') && SlotSet(st, st', Entry(i, j), b)
  {
    var ib := Addr(st, i, NDIRECT);
    var st' := SetCell(st, ib, j, b);
    assert Ptr(st, Indirect(i)) == ib;
    forall u ensures Ptr(st', u) == if u == Entry(i, j) then b else Ptr(st, u) {
      if u.Entry? && u.j < NINDIRECT && Addr(st, u.i, NDIRECT) == ib {
        assert Ptr(st, Indirect(u.i)) == ib;
        SetWordGet(st.data[ib], j, b, u.j);
      }
    }
  }

  lemma LinkedAdd(l: Layout, st: State, st': State, owner: map<nat, Slot>, t: Slot, b: nat)
    requires Linked(l, st, owner) && Shaped(l, st') && SlotSet(st, st', t, b)
    requires Ptr(st, t) == 0 && l.nmeta <= b < l.size && b !in owner
    ensures Linked(l, st', owner[b := t])
  {
  }

  lemma LinkedSame(l: Layout, st: State, st': State, owner: map<nat, Slot>)
    requires Linked(l, st, owner) && Shaped(l, st') && SameSlots(st, st')
    ensures Linked(l, st', owner)
  {
  }

  /** Ownership after a fresh block has been hung into an empty slot. */
  lemma OwnedAdd(l: Layout, st: State, st': State, owner: map<nat, Slot>, t: Slot, b: nat)
    requires Owned(l, st, owner) && Shaped(l, st') && SlotSet(st, st', t, b)
    requires Ptr(st, t) == 0 && b < l.size && !InUse(st, b)
    requires forall c: nat :: InUse(st', c) == (c == b || InUse(st, c))
    ensures Owned(l, st', owner[b := t])
  {
    LinkedAdd(l, st, st', owner, t, b);
  }

  /** Ownership after a block has been taken out of its slot and freed. */
  lemma OwnedRemove(l: Layout, st: State, st': State, owner: map<nat, Slot>, t: Slot, b: nat)
    requires Owned(l, st, owner) && Shaped(l, st') && SlotSet(st, st', t, 0)
    requires b != 0 && Ptr(st, t) == b
    requires forall c: nat :: InUse(st', c) == (c != b && InUse(st, c))
    ensures Owned(l, st', owner - {b})
  {
  }

  lemma OwnedSame(l: Layout, st: State, st': State, owner: map<nat, Slot>)
    requires Owned(l, st, owner) && Shaped(l, st') && SameSlots(st, st') && st'.bitmap == st.bitmap
    ensures Owned(l, st', owner)
  {
    assert forall b: nat :: InUse(st', b) == InUse(st, b);
  }

  /** A free block is no slot's block, and a slot's block is in use: balloc never hands out
      an owned block, and "freeing free block" cannot happen when a slot's block is freed. */
  lemma OwnedExclusive(l: Layout, st: State, owner: map<nat, Slot>)
    requires Owned(l, st, owner)
    ensures forall t :: Ptr(st, t) != 0 ==> l.nmeta <= Ptr(st, t) < l.size && InUse(st, Ptr(st, t))
    ensures forall t, u :: Ptr(st, t) == Ptr(st, u) != 0 ==> t == u
    ensures forall b: nat :: l.nmeta <= b < l.size && InUse(st, b) ==> exists t :: Ptr(st, t) == b
  {
    forall b: nat | l.nmeta <= b < l.size && InUse(st, b) ensures exists t :: Ptr(st, t) == b {
      assert Ptr(st, owner[b]) == b;
    }
  }

  // ---------------------------------------------------------------------
  // File contents

  /** The slot of block bn of file i. */
  function FileSlot(i: nat, bn: nat): Slot
  {
    if bn < NDIRECT then Direct(i, bn) else Entry(i, bn - NDIRECT)
  }

  function DataByte(st: State, b: nat, k: nat): nat
  {
    if 0 < b < |st.data| && k < |st.data[b]| then st.data[b][k] else 0
  }

  /** Byte `off` of file i, holes reading as zero. */
  function ByteAt(st: State, i: nat, off: nat): nat
  {
    DataByte(st, Ptr(st, FileSlot(i, off / BSIZE)), off % BSIZE)
  }

  ghost predicate SameFile(st: State, st': State, i: nat)
  {
    forall off: nat :: ByteAt(st', i, off) == ByteAt(st, i, off)
  }

  ghost predicate SameFiles(st: State, st': State)
  {
    forall i: nat :: SameFile(st, st', i)
  }

  /** File i of st' is file i of st with the bytes s written at off; other files are equal. */
  ghost predicate Spliced(st: State, st': State, i: nat, off: nat, s: seq<nat>)
  {
    && (forall j: nat :: j != i ==> SameFile(st, st', j))
    && forall k: nat :: ByteAt(st', i, k) == if off <= k < off + |s| then s[k - off] else ByteAt(st, i, k)
  }

  lemma SplicedNothing(st: State, st': State, i: nat, off: nat)
    requires SameFiles(st, st')
    ensures Spliced(st, st', i, off, [])
  {
    assert SameFile(st, st', i);
  }

  lemma SplicedTrans(a: State, b: State, c: State, i: nat, off: nat, s: seq<nat>, t: seq<nat>)
    requires Spliced(a, b, i, off, s) && Spliced(b, c, i, off + |s|, t)
    ensures Spliced(a, c, i, off, s + t)
  {
    forall j: nat | j != i ensures SameFile(a, c, j) {
      assert SameFile(a, b, j) && SameFile(b, c, j);
    }
  }

  /** Blocks 0, 1, ... of file i are present as far as byte n. */
  ghost predicate MappedTo(st: State, i: nat, n: nat)
  {
    forall bn: nat :: bn * BSIZE < n ==> Ptr(st, FileSlot(i, bn)) != 0
  }

  /** Every block of the file below its size is present. */
  ghost predicate NoHoles(st: State, i: nat)
  {
    i < |st.inodes| ==> st.inodes[i].size <= MAXFILE * BSIZE && MappedTo(st, i, st.inodes[i].size)
  }

  /** The contents of file i as a flat byte sequence. */
  ghost function Content(st: State, i: nat): (r: seq<nat>)
    ensures i < |st.inodes| ==> |r| == st.inodes[i].size
    ensures forall k: nat :: k < |r| ==> r[k] == ByteAt(st, i, k)
  {
    if i < |st.inodes| then seq(st.inodes[i].size, off requires 0 <= off => ByteAt(st, i, off)) else []
  }

  lemma GrowKeepsByte(l: Layout, st: State, st': State, owner: map<nat, Slot>, t: Slot, b: nat, ib: nat,
                      u: Slot, k: nat)
    requires Linked(l, st, owner) && Shaped(l, st') && SlotSet(st, st', t, b)
    requires Ptr(st, t) == 0 && b < l.size && b !in owner && st'.data[b] == ZeroBlock()
    requires ib == 0 || (ib in owner && owner[ib].Indirect?)
    requires forall c: nat :: c < l.size && c != b && c != ib ==> st'.data[c] == st.data[c]
    requires !u.Indirect?
    ensures DataByte(st', Ptr(st', u), k) == DataByte(st, Ptr(st, u), k)
  {
    if u != t && Ptr(st, u) != 0 {
      assert owner[Ptr(st, u)] == u;
    }
  }

  /** Hanging a zeroed block into an empty slot is invisible in every file: the hole it
      fills already read as zero.  `ib` is the indirect block written meanwhile, if any. */
  lemma GrowKeepsFiles(l: Layout, st: State, st': State, owner: map<nat, Slot>, t: Slot, b: nat, ib: nat)
    requires Linked(l, st, owner) && Shaped(l, st') && SlotSet(st, st', t, b)
    requires Ptr(st, t) == 0 && b < l.size && b !in owner && st'.data[b] == ZeroBlock()
    requires ib == 0 || (ib in owner && owner[ib].Indirect?)
    requires forall c: nat :: c < l.size && c != b && c != ib ==> st'.data[c] == st.data[c]
    ensures SameFiles(st, st')
  {
    forall i: nat, off: nat ensures ByteAt(st', i, off) == ByteAt(st, i, off) {
      GrowKeepsByte(l, st, st', owner, t, b, ib, FileSlot(i, off / BSIZE), off % BSIZE);
    }
  }

  function Overwrite(b: Bytes, at: nat, s: seq<nat>): (r: Bytes)
    ensures |r| == |b|
  {
    if at + |s| <= |b| then b[..at] + s + b[at + |s|..] else b
  }

  /** The state after overwriting bytes of file i from off on, within one block. */
  function Chunk(st: State, i: nat, off: nat, s: seq<nat>): State
  {
    var p := Ptr(st, FileSlot(i, off / BSIZE));
    if p < |st.data| then st.(data := st.data[p := Overwrite(st.data[p], off % BSIZE, s)]) else st
  }

  lemma ChunkLinked(l: Layout, st: State, owner: map<nat, Slot>, i: nat, off: nat, s: seq<nat>)
    requires Linked(l, st, owner) && off % BSIZE + |s| <= BSIZE && Ptr(st, FileSlot(i, off / BSIZE)) != 0
    ensures Linked(l, Chunk(st, i, off, s), owner) && SameSlots(st, Chunk(st, i, off, s))
  {
    var p := Ptr(st, FileSlot(i, off / BSIZE));
    var st' := Chunk(st, i, off, s);
    forall u ensures Ptr(st', u) == Ptr(st, u) {
      if u.Entry? {
        assert Addr(st, u.i, NDIRECT) == Ptr(st, Indirect(u.i));
        assert Addr(st, u.i, NDIRECT) != p;
      }
    }
    LinkedSame(l, st, st', owner);
  }

  lemma ChunkOwned(l: Layout, st: State, owner: map<nat, Slot>, i: nat, off: nat, s: seq<nat>)
    requires Owned(l, st, owner) && off % BSIZE + |s| <= BSIZE && Ptr(st, FileSlot(i, off / BSIZE)) != 0
    ensures Owned(l, Chunk(st, i, off, s), owner) && SameSlots(st, Chunk(st, i, off, s))
  {
    ChunkLinked(l, st, owner, i, off, s);
    OwnedSame(l, st, Chunk(st, i, off, s), owner);
  }

  lemma InsideBlock(off: nat, k: nat, n: nat)
    requires off % BSIZE + n <= BSIZE
    ensures off <= k < off + n ==> k / BSIZE == off / BSIZE
    ensures k / BSIZE == off / BSIZE ==> k - off == k % BSIZE - off % BSIZE
  {
  }

  lemma SameFileSlot(i: nat, bn: nat, j: nat, bm: nat)
    requires FileSlot(i, bn) == FileSlot(j, bm)
    ensures i == j && bn == bm
  {
  }

  /** Overwriting part of one block of file i changes exactly those bytes of that file,
      and no other file. */
  lemma ChunkBytes(l: Layout, st: State, owner: map<nat, Slot>, i: nat, off: nat, s: seq<nat>)
    requires Linked(l, st, owner) && off % BSIZE + |s| <= BSIZE && Ptr(st, FileSlot(i, off / BSIZE)) != 0
    ensures Spliced(st, Chunk(st, i, off, s), i, off, s)
  {
    var t := FileSlot(i, off / BSIZE);
    var p := Ptr(st, t);
    var st' := Chunk(st, i, off, s);
    ChunkLinked(l, st, owner, i, off, s);
    forall j: nat, k: nat
      ensures ByteAt(st', j, k) == if j == i && off <= k < off + |s| then s[k - off] else ByteAt(st, j, k)
    {
      var u := FileSlot(j, k / BSIZE);
      InsideBlock(off, k, |s|);
      if Ptr(st, u) == p {
        assert owner[p] == t && owner[p] == u;
        SameFileSlot(i, off / BSIZE, j, k / BSIZE);
      }
    }
  }

  /** A piece of a present block is the corresponding piece of the file. */
  lemma ChunkRead(l: Layout, st: State, i: nat, off: nat, m: nat)
    requires Shaped(l, st) && i < |st.inodes| && off + m <= st.inodes[i].size
    requires off % BSIZE + m <= BSIZE && 0 < Ptr(st, FileSlot(i, off / BSIZE)) < l.size
    ensures st.data[Ptr(st, FileSlot(i, off / BSIZE))][off % BSIZE..off % BSIZE + m]
            == Content(st, i)[off..off + m]
  {
    var p := Ptr(st, FileSlot(i, off / BSIZE));
    var base := off - off % BSIZE;
    forall k: nat | off % BSIZE <= k < off % BSIZE + m
      ensures st.data[p][k] == Content(st, i)[base + k]
    {
      InsideBlock(off, base + k, m);
      assert Content(st, i)[base + k] == ByteAt(st, i, base + k);
    }
  }

  /** A flat write into a byte sequence, extending it if needed. */
  function Splice(c: seq<nat>, off: nat, s: seq<nat>): seq<nat>
    requires off <= |c|
  {
    c[..off] + s + if off + |s| < |c| then c[off + |s|..] else []
  }

  /** The block-level description of a write is the flat one. */
  lemma SplicedContent(st: State, st': State, i: nat, off: nat, s: seq<nat>)
    requires i < |st.inodes| == |st'.inodes| && Spliced(st, st', i, off, s) && off <= st.inodes[i].size
    requires st'.inodes[i].size == if off + |s| > st.inodes[i].size then off + |s| else st.inodes[i].size
    ensures Content(st', i) == Splice(Content(st, i), off, s)
  {
    var c, c', n := Content(st, i), Content(st', i), |s|;
    forall k: nat | k < |c'| ensures c'[k] == Splice(c, off, s)[k] {
      assert c'[k] == ByteAt(st', i, k);
      if k < |c| {
        assert c[k] == ByteAt(st, i, k);
      }
    }
  }

  // ---------------------------------------------------------------------
  // Frames

  /** No slot loses its block, and nothing about any inode changes except addresses of inode i. */
  ghost predicate Kept(st: State, st': State, i: nat)
  {
    && i < |st.inodes| == |st'.inodes|
    && (forall j :: 0 <= j < |st.inodes| && j != i ==> st'.inodes[j] == st.inodes[j])
    && st'.inodes[i].(addrs := []) == st.inodes[i].(addrs := [])
    && forall t :: Ptr(st, t) != 0 ==> Ptr(st', t) == Ptr(st, t)
  }

  /** What bmap may do for inode i: give it new blocks without changing any file's bytes. */
  ghost predicate Grown(st: State, st': State, i: nat)
  {
    Kept(st, st', i) && SameFiles(st, st')
  }

  lemma KeptTrans(a: State, b: State, c: State, i: nat)
    requires Kept(a, b, i) && Kept(b, c, i)
    ensures Kept(a, c, i)
  {
  }

  lemma GrownTrans(a: State, b: State, c: State, i: nat)
    requires Grown(a, b, i) && Grown(b, c, i)
    ensures Grown(a, c, i)
  {
    forall j: nat ensures SameFile(a, c, j) {
      assert SameFile(a, b, j) && SameFile(b, c, j);
    }
  }

  lemma KeptMapped(st: State, st': State, i: nat, j: nat, n: nat)
    requires Kept(st, st', i) && MappedTo(st, j, n)
    ensures MappedTo(st', j, n)
  {
  }

  lemma MappedExtend(st: State, i: nat, off: nat, m: nat, n: nat)
    requires MappedTo(st, i, n) && off <= n
    requires 0 < m && off % BSIZE + m <= BSIZE && Ptr(st, FileSlot(i, off / BSIZE)) != 0
    ensures MappedTo(st, i, if n < off + m then off + m else n)
  {
    forall bn: nat | bn * BSIZE < off + m ensures Ptr(st, FileSlot(i, bn)) != 0 {
      if bn * BSIZE >= off {
        assert bn == off / BSIZE;
      }
    }
  }

  /** Every block that a slot has gained was logged. */
  ghost predicate GainsLogged(st: State, st': State, logged: set<nat>)
  {
    forall t :: Ptr(st', t) != Ptr(st, t) ==> Ptr(st', t) == 0 || Ptr(st', t) in logged
  }

  /** Every data block, except perhaps block a, and every free-map block that differs between the
      states was logged, and so was every block that a slot has gained. */
  ghost predicate RecordedBut(l: Layout, st: State, st': State, logged: set<nat>, a: nat)
  {
    && |st.data| == |st'.data|
    && (forall c: nat :: c < |st.data| && c != a && st'.data[c] != st.data[c] ==> c in logged)
    && (forall c: nat :: InUse(st', c) != InUse(st, c) ==> c / BPB + l.bmapStart in logged)
    && GainsLogged(st, st', logged)
  }

  /** The same without exception. */
  ghost predicate Recorded(l: Layout, st: State, st': State, logged: set<nat>)
  {
    && |st.data| == |st'.data|
    && (forall c: nat :: c < |st.data| && st'.data[c] != st.data[c] ==> c in logged)
    && (forall c: nat :: InUse(st', c) != InUse(st, c) ==> c / BPB + l.bmapStart in logged)
    && GainsLogged(st, st', logged)
  }

  lemma RecordedTrans(l: Layout, a: State, b: State, c: State, x: set<nat>, y: set<nat>)
    requires Recorded(l, a, b, x) && Recorded(l, b, c, y) && x <= y
    ensures Recorded(l, a, c, y)
  {
  }

  lemma RecordedButTrans(l: Layout, a: State, b: State, c: State, x: set<nat>, y: set<nat>, e: nat)
    requires Recorded(l, a, b, x) && RecordedBut(l, b, c, y, e) && x <= y
    ensures RecordedBut(l, a, c, y, e) && (e in y ==> Recorded(l, a, c, y))
  {
  }

  lemma RecordedIsBut(l: Layout, a: State, b: State, x: set<nat>, e: nat)
    requires Recorded(l, a, b, x)
    ensures RecordedBut(l, a, b, x, e)
  {
  }

  /** Allocating block b into a slot that lives in the inode itself. */
  lemma HangAddr(l: Layout, st: State, owner: map<nat, Slot>, i: nat, k: nat, b: nat, logged: set<nat>)
    requires Owned(l, st, owner) && i < |st.inodes| && k <= NDIRECT && Addr(st, i, k) == 0
    requires b < l.size && !InUse(st, b) && b in logged && b / BPB + l.bmapStart in logged
    ensures var st' := SetAddr(Allocated(st, b), i, k, b);
            && Owned(l, st', owner[b := if k < NDIRECT then Direct(i, k) else Indirect(i)])
            && Grown(st, st', i) && Recorded(l, st, st', logged)
  {
    var mid := Allocated(st, b);
    var st' := SetAddr(mid, i, k, b);
    var t := if k < NDIRECT then Direct(i, k) else Indirect(i);
    AllocatedSlots(l, st, owner, b);
    if k < NDIRECT {
      SetDirectSlots(l, mid, i, k, b);
    } else {
      SetIndirectSlots(l, mid, i, b);
    }
    assert SlotSet(st, st', t, b);
    assert forall c: nat :: InUse(st', c) == InUse(mid, c);
    OwnedAdd(l, st, st', owner, t, b);
    GrowKeepsFiles(l, st, st', owner, t, b, 0);
  }

  /** Allocating block b into an entry of the indirect block. */
  lemma HangEntry(l: Layout, st: State, owner: map<nat, Slot>, i: nat, j: nat, b: nat, logged: set<nat>)
    requires Owned(l, st, owner) && i < |st.inodes| && j < NINDIRECT
    requires Addr(st, i, NDIRECT) != 0 && Ptr(st, Entry(i, j)) == 0
    requires b < l.size && !InUse(st, b) && b in logged && b / BPB + l.bmapStart in logged
    requires Addr(st, i, NDIRECT) in logged
    ensures var st' := SetCell(Allocated(st, b), Addr(st, i, NDIRECT), j, b);
            && Owned(l, st', owner[b := Entry(i, j)])
            && Grown(st, st', i) && Recorded(l, st, st', logged) && Ptr(st', Entry(i, j)) == b
  {
    var mid := Allocated(st, b);
    var t := Entry(i, j);
    var ib := Addr(st, i, NDIRECT);
    assert Ptr(st, Indirect(i)) == ib;
    AllocatedSlots(l, st, owner, b);
    LinkedSame(l, st, mid, owner);
    SetEntrySlots(l, mid, owner, i, j, b);
    var st' := SetCell(mid, ib, j, b);
    assert SlotSet(st, st', t, b);
    assert forall c: nat :: InUse(st', c) == InUse(mid, c);
    OwnedAdd(l, st, st', owner, t, b);
    GrowKeepsFiles(l, st, st', owner, t, b, ib);
  }

  /** bmap followed by the copy into the block it returned. */
  lemma WriteAfterMap(l: Layout, st: State, mid: State, owner: map<nat, Slot>, i: nat, off: nat, s: seq<nat>)
    requires Grown(st, mid, i) && Owned(l, mid, owner)
    requires off % BSIZE + |s| <= BSIZE && Ptr(mid, FileSlot(i, off / BSIZE)) != 0
    ensures var st' := Chunk(mid, i, off, s);
            && Owned(l, st', owner) && Kept(st, st', i) && Spliced(st, st', i, off, s)
            && Ptr(st', FileSlot(i, off / BSIZE)) == Ptr(mid, FileSlot(i, off / BSIZE)) < |mid.data|
  {
    ChunkOwned(l, mid, owner, i, off, s);
    ChunkBytes(l, mid, owner, i, off, s);
    SplicedNothing(st, mid, i, off);
    SplicedTrans(st, mid, Chunk(mid, i, off, s), i, off, [], s);
    assert [] + s == s;
  }

  /** Overwriting part of a file's block records everything but that block, and all once it is logged. */
  lemma RecordedWrite(l: Layout, st: State, mid: State, owner: map<nat, Slot>, i: nat, off: nat, s: seq<nat>,
                      logged: set<nat>)
    requires Recorded(l, st, mid, logged) && Owned(l, mid, owner) && off % BSIZE + |s| <= BSIZE
    requires Ptr(mid, FileSlot(i, off / BSIZE)) != 0
    ensures var a := Ptr(mid, FileSlot(i, off / BSIZE));
            var st' := Chunk(mid, i, off, s);
            && RecordedBut(l, st, st', logged, a) && Recorded(l, st, st', logged + {a})
            && (a in logged ==> Recorded(l, st, st', logged)) && (s == [] ==> Recorded(l, st, st', logged))
  {
    var a := Ptr(mid, FileSlot(i, off / BSIZE));
    var st' := Chunk(mid, i, off, s);
    ChunkLinked(l, mid, owner, i, off, s);
    assert forall c: nat :: InUse(st', c) == InUse(mid, c);
    if s == [] {
      OverwriteNone(mid.data[a], off % BSIZE);
      assert st'.data == mid.data;
    }
  }

  lemma OverwriteNone(b: Bytes, at: nat)
    ensures Overwrite(b, at, []) == b
  {
  }

  // ---------------------------------------------------------------------
  // Truncation

  /** Freeing the block in one of inode i's own address slots and clearing the slot. */
  lemma DropAddr(l: Layout, st: State, owner: map<nat, Slot>, i: nat, k: nat)
    requires Owned(l, st, owner) && i < |st.inodes| && k < NDIRECT && Addr(st, i, k) != 0
    ensures Addr(st, i, k) < l.size && InUse(st, Addr(st, i, k))
    ensures var st' := SetAddr(Freed(st, Addr(st, i, k)), i, k, 0);
            && Owned(l, st', owner - {Addr(st, i, k)}) && SlotSet(st, st', Direct(i, k), 0)
            && Addr(st, i, k) in owner && owner[Addr(st, i, k)] == Direct(i, k)
  {
    var b := Addr(st, i, k);
    var mid := Freed(st, b);
    assert Ptr(st, Direct(i, k)) == b;
    FreedSlots(l, st, b);
    SetDirectSlots(l, mid, i, k, 0);
    var st' := SetAddr(mid, i, k, 0);
    assert forall c: nat :: InUse(st', c) == InUse(mid, c);
    OwnedRemove(l, st, st', owner, Direct(i, k), b);
  }

  /** Ownership while itrunc walks the indirect block of inode i: entries below n have been freed
      but still hold their block numbers. */
  ghost predicate Draining(l: Layout, st: State, owner: map<nat, Slot>, i: nat, n: nat)
  {
    && Shaped(l, st)
    && (forall t :: Ptr(st, t) != 0 && !(t.Entry? && t.i == i && t.j < n) ==>
          Ptr(st, t) in owner && owner[Ptr(st, t)] == t)
    && (forall b :: b in owner ==> l.nmeta <= b < l.size && Ptr(st, owner[b]) == b
                                   && !(owner[b].Entry? && owner[b].i == i && owner[b].j < n))
    && (forall b: nat :: b < l.size ==> (InUse(st, b) <==> b < l.nmeta || b in owner))
  }

  lemma DrainEntry(l: Layout, st: State, owner: map<nat, Slot>, i: nat, n: nat)
    requires Draining(l, st, owner, i, n)
    ensures var b := Ptr(st, Entry(i, n));
            && (b == 0 ==> Draining(l, st, owner, i, n + 1))
            && (b != 0 ==> b < l.size && InUse(st, b) && b in owner && owner[b] == Entry(i, n)
                           && SameSlots(st, Freed(st, b)) && Draining(l, Freed(st, b), owner - {b}, i, n + 1))
  {
    var b := Ptr(st, Entry(i, n));
    if b != 0 {
      FreedSlots(l, st, b);
    }
  }

  /** Once every entry is freed, freeing the indirect block itself leaves inode i with nothing. */
  lemma DropIndirect(l: Layout, st: State, owner: map<nat, Slot>, i: nat)
    requires Draining(l, st, owner, i, NINDIRECT) && i < |st.inodes| && Addr(st, i, NDIRECT) != 0
    ensures var b := Addr(st, i, NDIRECT);
            var st' := SetAddr(Freed(st, b), i, NDIRECT, 0);
            && b < l.size && InUse(st, b) && b in owner && owner[b] == Indirect(i)
            && Owned(l, st', owner - {b})
            && forall t :: Ptr(st', t) == if t.i == i && !t.Direct? then 0 else Ptr(st, t)
  {
    var b := Addr(st, i, NDIRECT);
    var st' := SetAddr(Freed(st, b), i, NDIRECT, 0);
    assert Ptr(st, Indirect(i)) == b;
    FreedSlots(l, st, b);
    DroppedSlots(st, Freed(st, b), i);
    assert forall c: nat :: InUse(st', c) == InUse(Freed(st, b), c);
    DrainedOwned(l, st, st', owner, i);
  }

  lemma DroppedSlots(st: State, mid: State, i: nat)
    requires SameSlots(st, mid)
    ensures forall t :: Ptr(SetAddr(mid, i, NDIRECT, 0), t) == if t.i == i && !t.Direct? then 0 else Ptr(st, t)
  {
    var st' := SetAddr(mid, i, NDIRECT, 0);
    forall t ensures Ptr(st', t) == if t.i == i && !t.Direct? then 0 else Ptr(st, t) {
      assert Ptr(mid, t) == Ptr(st, t);
    }
  }

  lemma DrainedOwned(l: Layout, st: State, st': State, owner: map<nat, Slot>, i: nat)
    requires Draining(l, st, owner, i, NINDIRECT) && Shaped(l, st') && Ptr(st, Indirect(i)) != 0
    requires forall t :: Ptr(st', t) == if t.i == i && !t.Direct? then 0 else Ptr(st, t)
    requires forall c: nat :: InUse(st', c) == (c != Ptr(st, Indirect(i)) && InUse(st, c))
    ensures Owned(l, st', owner - {Ptr(st, Indirect(i))})
  {
    hide InUse;
    var b := Ptr(st, Indirect(i));
    forall c | c in owner && c != b ensures Ptr(st', owner[c]) == c {
      var t := owner[c];
      assert Ptr(st, t) == c;
      assert t.Entry? ==> t.j < NINDIRECT;
    }
  }

  /** Files whose slots and data blocks are untouched are untouched. */
  lemma SameFileFrame(st: State, st': State, i: nat)
    requires st'.data == st.data && forall t: Slot :: t.i == i ==> Ptr(st', t) == Ptr(st, t)
    ensures SameFile(st, st', i)
  {
    forall k: nat ensures ByteAt(st', i, k) == ByteAt(st, i, k) {
      assert FileSlot(i, k / BSIZE).i == i;
    }
  }

  /** Inode i owns nothing. */
  ghost predicate Empty(st: State, i: nat)
  {
    forall t: Slot :: t.i == i ==> Ptr(st, t) == 0
  }

  /** Owning nothing is a property of an inode's own addresses. */
  lemma EmptyKept(st: State, st': State, j: nat)
    requires Empty(st, j) && j < |st.inodes| == |st'.inodes| && st'.inodes[j] == st.inodes[j]
    ensures Empty(st', j)
  {
    forall t: Slot | t.i == j ensures Ptr(st', t) == 0 {
      assert Ptr(st, Indirect(j)) == 0 && Ptr(st, t) == 0;
    }
  }

  lemma OwnedShape(l: Layout, st: State, owner: map<nat, Slot>)
    requires Owned(l, st, owner)
    ensures Shaped(l, st) && InUse(st, 0)
  {
  }

  lemma OwnedBound(l: Layout, st: State, owner: map<nat, Slot>, t: Slot)
    requires Owned(l, st, owner)
    ensures Ptr(st, t) != 0 ==> l.nmeta <= Ptr(st, t) < l.size
  {
  }

  lemma Unchanged(l: Layout, st: State, i: nat, logged: set<nat>)
    requires i < |st.inodes|
    ensures Grown(st, st, i) && Recorded(l, st, st, logged)
  {
  }

  /** The first n blocks of the free map. */
  function MapBlocks(l: Layout, n: nat): (r: set<nat>)
    ensures |r| <= n
  {
    if n == 0 then {} else MapBlocks(l, n - 1) + {n - 1 + l.bmapStart}
  }

  lemma {:induction false} MapBlocksBound(l: Layout, n: nat, b: nat)
    requires b in MapBlocks(l, n)
    ensures l.bmapStart <= b < l.bmapStart + n
    decreases n
  {
    if b in MapBlocks(l, n - 1) {
      MapBlocksBound(l, n - 1, b);
    }
  }

  lemma {:induction false} InMapBlocks(l: Layout, n: nat, k: nat)
    requires k < n
    ensures k + l.bmapStart in MapBlocks(l, n)
    decreases n
  {
    if k < n - 1 {
      InMapBlocks(l, n - 1, k);
    }
  }

  /** How many blocks the free map has. */
  function MapSize(l: Layout): nat
  {
    (l.size + BPB - 1) / BPB
  }
}
