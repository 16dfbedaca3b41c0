/** The bound on what one filewrite transaction logs is reached: a disk on which a full chunk, started
    inside the last direct block, logs MAXOPBLOCKS blocks. */
module LogBound {
  import opened Base
  import opened FsBytes
  import opened FsState
  import opened Fs
  import opened FileIO

  const GROUPS: nat := 13
  /** A layout with a free map of GROUPS blocks; the metadata leaves one block of the first group. */
  const WIDE: Layout := Layout(GROUPS * BPB, BPB - 1, 33, 546)
  /** Where the chunk starts: inside direct block 11. */
  const INSIDE: nat := (NDIRECT - 1) * BSIZE + 512

  /** One block of every group is free. */
  predicate LastOfGroup(b: nat)
  {
    b % BPB == BPB - 1
  }

  /** The block in direct slot k of inode i. */
  function WideBlock(i: nat, k: nat): nat
  {
    if 1 <= i && k < NDIRECT && !LastOfGroup(BPB + NDIRECT * (i - 1) + k) then BPB + NDIRECT * (i - 1) + k else 0
  }

  function WideInode(i: nat): Inode
  {
    if i == 0 then FreshInode(0)
    else Inode(2, 1, if i == 1 then INSIDE else 0, seq(NDIRECT + 1, k requires 0 <= k => WideBlock(i, k)))
  }

  /** All files use direct blocks only, and every block holds zeroes. */
  function WideState(): State
  {
    State(seq(GROUPS * BPB / 8, q requires 0 <= q => seq(8, r requires 0 <= r => !LastOfGroup(8 * q + r))),
          seq(GROUPS * BPB, _ => ZeroBlock()),
          seq(BPB + 1, i requires 0 <= i => WideInode(i)))
  }

  function WideOwner(): map<nat, Slot>
  {
    map b: nat | BPB <= b < GROUPS * BPB && !LastOfGroup(b) :: Direct(1 + (b - BPB) / NDIRECT, (b - BPB) % NDIRECT)
  }

  lemma WideSlot(i: nat, k: nat)
    requires WideBlock(i, k) != 0
    ensures var b := WideBlock(i, k); b >= BPB && (b - BPB) / NDIRECT == i - 1 && (b - BPB) % NDIRECT == k
  {
  }

  lemma WidePtr(t: Slot)
    ensures Ptr(WideState(), t) == if t.Direct? && t.i <= BPB then WideBlock(t.i, t.k) else 0
  {
    var st := WideState();
    assert forall k: nat :: Addr(st, t.i, k) == if t.i <= BPB then WideBlock(t.i, k) else 0;
  }

  lemma WideInUse(b: nat)
    requires b < GROUPS * BPB
    ensures InUse(WideState(), b) <==> !LastOfGroup(b)
  {
    assert b == 8 * (b / 8) + b % 8;
  }

  lemma WideLinked()
    ensures Linked(WIDE, WideState(), WideOwner())
  {
    hide WideBlock, Ptr;
    var st, owner := WideState(), WideOwner();
    forall t | Ptr(st, t) != 0 ensures Ptr(st, t) in owner && owner[Ptr(st, t)] == t {
      WidePtr(t);
      WideInside(t.i, t.k);
    }
    forall b | b in owner ensures WIDE.nmeta <= b < WIDE.size && Ptr(st, owner[b]) == b {
      WidePtr(owner[b]);
      WideBack(b);
    }
  }

  lemma WideInside(i: nat, k: nat)
    requires WideBlock(i, k) != 0 && i <= BPB
    ensures var b := WideBlock(i, k); b in WideOwner() && WideOwner()[b] == Direct(i, k)
  {
    WideSlot(i, k);
  }

  lemma WideBack(b: nat)
    requires b in WideOwner()
    ensures WideOwner()[b].i <= BPB && WideBlock(WideOwner()[b].i, WideOwner()[b].k) == b
  {
    assert NDIRECT * ((b - BPB) / NDIRECT) + (b - BPB) % NDIRECT == b - BPB;
  }

  lemma WideMountable()
    ensures Mountable(WIDE, WideState(), WideOwner())
  {
    hide Linked, InUse, WideBlock, Ptr;
    var st, owner := WideState(), WideOwner();
    WideLinked();
    forall b: nat | b < WIDE.size ensures InUse(st, b) <==> b < WIDE.nmeta || b in owner {
      WideInUse(b);
      assert b < BPB ==> (LastOfGroup(b) <==> b == BPB - 1);
    }
    forall i: nat | i < |st.inodes| ensures NoHoles(st, i) {
      if i == 1 {
        forall bn: nat | bn * BSIZE < INSIDE ensures Ptr(st, FileSlot(i, bn)) != 0 {
          WidePtr(FileSlot(i, bn));
          WideFirst(bn);
        }
      }
    }
    forall t: Slot | t.i == 0 ensures Ptr(st, t) == 0 {
      WidePtr(t);
      WideNone(t);
    }
  }

  lemma WideFirst(k: nat)
    requires k < NDIRECT
    ensures WideBlock(1, k) != 0
  {
  }

  lemma WideNone(t: Slot)
    ensures t.Direct? ==> WideBlock(0, t.k) == 0
  {
  }

  // ---------------------------------------------------------------------
  // Counting what the write logged

  lemma Distinct(a: nat, b: nat, c: nat, d: nat)
    requires a != b && a != c && a != d && b != c && b != d && c != d
    ensures |{a, b, c, d}| == 4
  {
    assert {a, b, c, d} == {a, b, c} + {d};
    assert {a, b, c} == {a, b} + {c};
  }

  lemma Disjoint(a: set<nat>, b: set<nat>)
    requires a !! b
    ensures |a + b| == |a| + |b|
  {
  }

  /** A block written with a non-zero byte was logged, for it held zeroes before. */
  lemma DataLogged(l: Layout, st0: State, st: State, owner: map<nat, Slot>, logged: set<nat>, i: nat, k: nat)
    requires Recorded(l, st0, st, logged) && Owned(l, st, owner)
    requires forall b: nat :: b < |st0.data| ==> st0.data[b] == ZeroBlock()
    requires ByteAt(st, i, k) != 0
    ensures Ptr(st, FileSlot(i, k / BSIZE)) in logged && Ptr(st, FileSlot(i, k / BSIZE)) != 0
  {
  }

  /** A block with a pointer in it was logged. */
  lemma IndirectLogged(l: Layout, st0: State, st: State, owner: map<nat, Slot>, logged: set<nat>, i: nat, j: nat)
    requires Recorded(l, st0, st, logged) && Owned(l, st, owner)
    requires forall b: nat :: b < |st0.data| ==> st0.data[b] == ZeroBlock()
    requires Ptr(st, Entry(i, j)) != 0
    ensures Ptr(st, Indirect(i)) in logged && Ptr(st, Indirect(i)) != 0
  {
    ZeroWord(j);
  }

  /** A slot that was empty holds a block that was free, and the block's free-map block was logged. */
  lemma MapLogged(l: Layout, st0: State, st: State, owner0: map<nat, Slot>, owner: map<nat, Slot>, logged: set<nat>,
                  t: Slot)
    requires Recorded(l, st0, st, logged) && Owned(l, st0, owner0) && Owned(l, st, owner) && SlotsKept(st0, st)
    requires Ptr(st0, t) == 0 && Ptr(st, t) != 0
    ensures !InUse(st0, Ptr(st, t)) && Ptr(st, t) / BPB + l.bmapStart in logged
    ensures l.nmeta <= Ptr(st, t) < l.size
  {
    hide InUse;
  }

  lemma Apart(l: Layout, st: State, owner: map<nat, Slot>, t: Slot, u: Slot)
    requires Owned(l, st, owner) && t != u && Ptr(st, t) != 0
    ensures Ptr(st, t) != Ptr(st, u)
  {
  }

  /** The write went past the direct blocks of inode i, which had no indirect block, over all-zero
      data on a disk with at most one free block for each free-map block. */
  ghost predicate Stretched(l: Layout, st0: State, st: State, owner0: map<nat, Slot>, owner: map<nat, Slot>, i: nat,
                            logged: set<nat>)
  {
    && Recorded(l, st0, st, logged) && Owned(l, st0, owner0) && Owned(l, st, owner) && SlotsKept(st0, st)
    && (forall b: nat :: b < |st0.data| ==> st0.data[b] == ZeroBlock())
    && Ptr(st0, Indirect(i)) == 0
    && (forall k: nat :: INSIDE <= k < INSIDE + MAXCHUNK ==> ByteAt(st, i, k) != 0)
    && (forall b: nat, c: nat :: b < c < l.size && !InUse(st0, b) && !InUse(st0, c) ==> b / BPB != c / BPB)
    && i / IPB + l.inodeStart in logged && i / IPB + l.inodeStart < l.bmapStart
    && (forall b: nat :: b < l.size ==> b / BPB + l.bmapStart < l.nmeta)
  }

  /** The four data blocks and the indirect block. */
  lemma FiveData(l: Layout, st0: State, st: State, owner0: map<nat, Slot>, owner: map<nat, Slot>, i: nat,
                 logged: set<nat>)
    returns (d: set<nat>)
    requires Stretched(l, st0, st, owner0, owner, i, logged)
    ensures |d| == 5 && d <= logged && forall b :: b in d ==> b >= l.nmeta
    ensures forall bn: nat :: NDIRECT <= bn < NDIRECT + 3 ==> Ptr(st, FileSlot(i, bn)) != 0
    ensures Ptr(st, Indirect(i)) != 0
  {
    hide Owned, Recorded, Ptr, ByteAt, InUse, SlotsKept;
    var n := NDIRECT - 1;
    forall bn: nat | n <= bn < n + 4 ensures Ptr(st, FileSlot(i, bn)) in logged && Ptr(st, FileSlot(i, bn)) >= l.nmeta
                                             && Ptr(st, FileSlot(i, bn)) != 0 {
      var k := if bn == n then INSIDE else bn * BSIZE;
      DataLogged(l, st0, st, owner, logged, i, k);
      OwnedBound(l, st, owner, FileSlot(i, bn));
    }
    assert Ptr(st, FileSlot(i, NDIRECT)) != 0;
    IndirectLogged(l, st0, st, owner, logged, i, 0);
    OwnedBound(l, st, owner, Indirect(i));
    var a, b, c, e, ib := Ptr(st, FileSlot(i, n)), Ptr(st, FileSlot(i, n + 1)), Ptr(st, FileSlot(i, n + 2)),
                          Ptr(st, FileSlot(i, n + 3)), Ptr(st, Indirect(i));
    Apart(l, st, owner, FileSlot(i, n), FileSlot(i, n + 1));
    Apart(l, st, owner, FileSlot(i, n), FileSlot(i, n + 2));
    Apart(l, st, owner, FileSlot(i, n), FileSlot(i, n + 3));
    Apart(l, st, owner, FileSlot(i, n + 1), FileSlot(i, n + 2));
    Apart(l, st, owner, FileSlot(i, n + 1), FileSlot(i, n + 3));
    Apart(l, st, owner, FileSlot(i, n + 2), FileSlot(i, n + 3));
    Distinct(a, b, c, e);
    forall bn: nat | n <= bn < n + 4 ensures Ptr(st, FileSlot(i, bn)) != ib {
      Apart(l, st, owner, Indirect(i), FileSlot(i, bn));
    }
    d := {a, b, c, e} + {ib};
    Disjoint({a, b, c, e}, {ib});
  }

  /** The free-map block of a newly filled slot. */
  lemma NewMap(l: Layout, st0: State, st: State, owner0: map<nat, Slot>, owner: map<nat, Slot>, i: nat,
               logged: set<nat>,
               t: Slot, u: Slot)
    requires Stretched(l, st0, st, owner0, owner, i, logged) && t != u
    requires Ptr(st, t) != 0 && Ptr(st, u) != 0 && t.i == i == u.i && !t.Direct? && !u.Direct?
    ensures var m := Ptr(st, t) / BPB + l.bmapStart;
            m in logged && l.bmapStart <= m < l.nmeta && m != Ptr(st, u) / BPB + l.bmapStart
  {
    hide Owned, Recorded, InUse, SlotsKept, ByteAt;
    assert Ptr(st0, t) == 0 && Ptr(st0, u) == 0;
    hide Ptr;
    MapLogged(l, st0, st, owner0, owner, logged, t);
    MapLogged(l, st0, st, owner0, owner, logged, u);
    Apart(l, st, owner, t, u);
    var b, c := Ptr(st, t), Ptr(st, u);
    assert !InUse(st0, b) && !InUse(st0, c);
  }

  lemma FourMaps(l: Layout, st0: State, st: State, owner0: map<nat, Slot>, owner: map<nat, Slot>, i: nat,
                 logged: set<nat>)
    returns (m: set<nat>)
    requires Stretched(l, st0, st, owner0, owner, i, logged) && Ptr(st, Indirect(i)) != 0
    requires forall bn: nat :: NDIRECT <= bn < NDIRECT + 3 ==> Ptr(st, FileSlot(i, bn)) != 0
    ensures |m| == 4 && m <= logged && forall b :: b in m ==> l.bmapStart <= b < l.nmeta
  {
    hide Stretched, Ptr;
    var t, u, v, w := Indirect(i), FileSlot(i, NDIRECT), FileSlot(i, NDIRECT + 1), FileSlot(i, NDIRECT + 2);
    NewMap(l, st0, st, owner0, owner, i, logged, t, u);
    NewMap(l, st0, st, owner0, owner, i, logged, t, v);
    NewMap(l, st0, st, owner0, owner, i, logged, u, v);
    NewMap(l, st0, st, owner0, owner, i, logged, v, w);
    NewMap(l, st0, st, owner0, owner, i, logged, w, t);
    NewMap(l, st0, st, owner0, owner, i, logged, w, u);
    var a, b, c, d := Ptr(st, t) / BPB, Ptr(st, u) / BPB, Ptr(st, v) / BPB, Ptr(st, w) / BPB;
    Distinct(a + l.bmapStart, b + l.bmapStart, c + l.bmapStart, d + l.bmapStart);
    m := {a + l.bmapStart, b + l.bmapStart, c + l.bmapStart, d + l.bmapStart};
  }

  /** Four data blocks, the indirect block, a free-map block for each of the four new blocks, and the
      inode's block. */
  lemma TenLogged(l: Layout, st0: State, st: State, owner0: map<nat, Slot>, owner: map<nat, Slot>, i: nat,
                  logged: set<nat>)
    requires Stretched(l, st0, st, owner0, owner, i, logged)
    ensures |logged| >= 10
  {
    hide Owned, Recorded, Ptr, ByteAt, InUse, SlotsKept;
    var d := FiveData(l, st0, st, owner0, owner, i, logged);
    var m := FourMaps(l, st0, st, owner0, owner, i, logged);
    var ino := i / IPB + l.inodeStart;
    Disjoint(d, m);
    Disjoint(d + m, {ino});
    SubsetBound(d + m + {ino}, logged);
  }

  /** Filling this disk up would log every free-map block. */
  lemma {:induction false} FullLogsAll(st: State, logged: set<nat>, n: nat)
    requires Recorded(WIDE, WideState(), st, logged) && n <= GROUPS
    requires forall c: nat :: c < WIDE.size ==> InUse(st, c)
    ensures MapBlocks(WIDE, n) <= logged && |MapBlocks(WIDE, n)| == n
    ensures forall b :: b in MapBlocks(WIDE, n) ==> b < n + WIDE.bmapStart
  {
    hide WideState, InUse;
    if n > 0 {
      FullLogsAll(st, logged, n - 1);
      var b := (n - 1) * BPB + BPB - 1;
      WideInUse(b);
      assert b / BPB == n - 1;
      Disjoint(MapBlocks(WIDE, n - 1), {n - 1 + WIDE.bmapStart});
    }
  }

  lemma WideStretched(st: State, owner: map<nat, Slot>, s: seq<nat>, avail: nat, logged: set<nat>)
    requires WriteEffect(WIDE, WideState(), st, 1, INSIDE, s, |s|, |s|, avail, logged) && avail >= |s| == MAXCHUNK
    requires Owned(WIDE, st, owner) && 1 / IPB + WIDE.inodeStart in logged && forall k :: 0 <= k < |s| ==> s[k] != 0
    ensures Stretched(WIDE, WideState(), st, WideOwner(), owner, 1, logged)
  {
    hide Owned, Recorded, ByteAt, InUse, SlotsKept;
    WideMountable();
    WidePtr(Indirect(1));
    hide Ptr;
    assert s[..|s|] == s;
    var st0 := WideState();
    forall b: nat, c: nat | b < c < WIDE.size && !InUse(st0, b) && !InUse(st0, c) ensures b / BPB != c / BPB {
      WideInUse(b);
      WideInUse(c);
    }
  }

  /** Writing a full chunk at INSIDE uses the reservation of a transaction up to the last slot. */
  method TightWrite(s: seq<nat>) returns (fs: FileSystem, r: int)
    requires |s| == MAXCHUNK && forall k :: 0 <= k < |s| ==> s[k] != 0
    ensures fs.l == WIDE && r == |s| && |fs.logged| == MAXOPBLOCKS
  {
    hide Owned, NoHoles, Empty, WriteEffect, Stretched, WideInode, Recorded;
    WideMountable();
    assert Owned(WIDE, WideState(), WideOwner());
    fs := new FileSystem.Mount(WIDE, WideState(), WideOwner());
    assert fs.inodes[1].size == INSIDE by { WideSize(); }
    ghost var touched;
    r, touched := fs.Writei(1, INSIDE, s, |s|);
    ChunkFitsReservation(INSIDE, |s|);
    WideWhole(fs.St(), s, r, touched, fs.logged);
    WideStretched(fs.St(), fs.owner, s, |s|, fs.logged);
    TenLogged(WIDE, WideState(), fs.St(), WideOwner(), fs.owner, 1, fs.logged);
  }

  lemma WideSize()
    ensures |WideState().inodes| == BPB + 1 && WideState().inodes[1].size == INSIDE
  {
  }

  lemma WideWhole(st: State, s: seq<nat>, r: nat, touched: nat, logged: set<nat>)
    requires WriteEffect(WIDE, WideState(), st, 1, INSIDE, s, r, touched, |s|, logged) && |logged| <= MAXOPBLOCKS
    ensures r == touched == |s|
  {
    hide Recorded, InUse;
    if r < |s| {
      FullLogsAll(st, logged, GROUPS);
      SubsetBound(MapBlocks(WIDE, GROUPS), logged);
    }
  }
}
