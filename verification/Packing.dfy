/**
 * The blocks of the disk: how inodes, the free map and data are laid out in them, and the way back from
 * the blocks to a file system.
 */
module Packing {
  import opened Disk
  import opened RedoLog
  import opened FsBytes
  import opened FsState
  import opened Fs
  import opened FsSafe
  import opened FlatFiles
  import opened CrashFs
  import FsRuns

  /** A dinode is 64 bytes, 16 words: type and major number, minor number and link count, size, 13 addresses. */
  const INODE_WORDS: nat := 16
  const SECTOR_BYTES: nat := 512

  // ---------------------------------------------------------------------
  // Inodes

  function InodeWord(n: Inode, k: nat): int
  {
    if k == 0 then n.typ
    else if k == 1 then 65536 * n.nlink
    else if k == 2 then n.size
    else if k - 3 < |n.addrs| then n.addrs[k - 3]
    else 0
  }

  /** Word k of the half block whose first inode is i. */
  function InodesWord(st: State, i: nat, k: nat): int
  {
    var j := i + k / INODE_WORDS;
    if j < |st.inodes| then InodeWord(st.inodes[j], k % INODE_WORDS) else 0
  }

  function PackInodes(st: State, i: nat): (r: Sector)
    ensures |r.words| == SECTOR_WORDS
    ensures forall k :: 0 <= k < SECTOR_WORDS ==> r.words[k] == InodesWord(st, i, k)
  {
    Sector(seq(SECTOR_WORDS, k requires 0 <= k => InodesWord(st, i, k)))
  }

  function WordAt(s: Sector, k: nat): int
  {
    if k < |s.words| then s.words[k] else 0
  }

  function Nat(x: int): nat
  {
    if x < 0 then 0 else x
  }

  function Nats(x: seq<int>): (r: seq<nat>)
    ensures |r| == |x| && forall k :: 0 <= k < |x| ==> r[k] == Nat(x[k])
  {
    seq(|x|, k requires 0 <= k < |x| => Nat(x[k]))
  }

  function AddrsIn(s: Sector, k: nat): (r: seq<nat>)
    ensures |r| == NDIRECT + 1 && forall j: nat :: j < |r| ==> r[j] == Nat(WordAt(s, k + j))
  {
    Nats(seq(NDIRECT + 1, j requires 0 <= j => WordAt(s, k + j)))
  }

  /** The inode in the 16 words from k on. */
  function UnpackInode(s: Sector, k: nat): (r: Inode)
    ensures |r.addrs| == NDIRECT + 1
  {
    Inode(WordAt(s, k), WordAt(s, k + 1) / 65536, Nat(WordAt(s, k + 2)), AddrsIn(s, k + 3))
  }

  /** Inode i as the disk has it. */
  function InodeOn(l: Layout, d: Image, i: nat): (r: Inode)
    ensures |r.addrs| == NDIRECT + 1
  {
    var b := l.inodeStart + i / IPB;
    var s := if b < |d| then d[b].Half(i % IPB >= IPB / 2) else Sector([]);
    UnpackInode(s, i % (IPB / 2) * INODE_WORDS)
  }

  lemma WordBack(st: State, i: nat, j: nat, k: nat)
    requires j < IPB / 2 && i + j < |st.inodes| && k < INODE_WORDS
    ensures WordAt(PackInodes(st, i), j * INODE_WORDS + k) == InodeWord(st.inodes[i + j], k)
  {
    assert (j * INODE_WORDS + k) / INODE_WORDS == j && (j * INODE_WORDS + k) % INODE_WORDS == k;
  }

  /** Where the fields of inode j of a sector stand: the type in the lower half of word 0, the link count in the
      upper half of word 1, the size in word 2 and the addresses from word 3 on. */
  lemma InodePlaces(st: State, i: nat, j: nat, k: nat)
    requires j < IPB / 2 && i + j < |st.inodes| && |st.inodes[i + j].addrs| == NDIRECT + 1 && k <= NDIRECT
    ensures var ws, n := PackInodes(st, i).words, st.inodes[i + j];
            && ws[16 * j] == n.typ && ws[16 * j + 1] == 0x1_0000 * n.nlink && ws[16 * j + 2] == n.size
            && ws[16 * j + 3 + k] == n.addrs[k]
  {
    hide PackInodes;
    WordBack(st, i, j, 0);
    WordBack(st, i, j, 1);
    WordBack(st, i, j, 2);
    WordBack(st, i, j, k + 3);
  }

  lemma InodeBack(st: State, i: nat, j: nat)
    requires j < IPB / 2 && i + j < |st.inodes| && |st.inodes[i + j].addrs| == NDIRECT + 1
    ensures UnpackInode(PackInodes(st, i), j * INODE_WORDS) == st.inodes[i + j]
  {
    hide WordAt;
    var s, n := PackInodes(st, i), st.inodes[i + j];
    WordBack(st, i, j, 0);
    WordBack(st, i, j, 1);
    WordBack(st, i, j, 2);
    var r := UnpackInode(s, j * INODE_WORDS);
    forall m: nat | m < NDIRECT + 1 ensures r.addrs[m] == n.addrs[m] {
      WordBack(st, i, j, m + 3);
    }
  }

  // ---------------------------------------------------------------------
  // The free map

  /** Bits as a number, the first one lowest. */
  function PackBits(q: Bits): nat
  {
    if |q| == 0 then 0 else (if q[0] then 1 else 0) + 2 * PackBits(q[1..])
  }

  function UnpackBits(v: int, n: nat): (r: Bits)
    ensures |r| == n
    decreases n
  {
    if n == 0 then [] else [v % 2 == 1] + UnpackBits(v / 2, n - 1)
  }

  lemma {:induction false} BitsBack(q: Bits)
    ensures UnpackBits(PackBits(q), |q|) == q
    decreases |q|
  {
    if |q| > 0 {
      BitsBack(q[1..]);
      assert PackBits(q) / 2 == PackBits(q[1..]);
    }
  }

  lemma {:induction false} LowBit(q: Bits)
    requires q != []
    ensures PackBits(q) % 2 == 1 <==> q[0]
    ensures PackBits(q) / 2 == PackBits(q[1..])
  {
  }

  lemma Quarters(v: nat)
    ensures v / 4 == v / 2 / 2 && v / 8 == v / 4 / 2 && v / 16 == v / 4 / 4
    ensures v / 32 == v / 16 / 2 && v / 64 == v / 16 / 4 && v / 128 == v / 16 / 8
  {
  }

  lemma {:induction false} TwoBits(q: Bits)
    requires |q| >= 2
    ensures var v := PackBits(q);
            (v % 2 == 1 <==> q[0]) && (v / 2 % 2 == 1 <==> q[1]) && v / 4 == PackBits(q[2..])
  {
    hide PackBits;
    LowBit(q);
    LowBit(q[1..]);
    Quarters(PackBits(q));
    assert q[1..][1..] == q[2..];
  }

  lemma {:induction false} FourBits(q: Bits)
    requires |q| >= 4
    ensures var v := PackBits(q);
            && (v % 2 == 1 <==> q[0]) && (v / 2 % 2 == 1 <==> q[1])
            && (v / 4 % 2 == 1 <==> q[2]) && (v / 8 % 2 == 1 <==> q[3])
            && v / 16 == PackBits(q[4..])
  {
    hide PackBits;
    TwoBits(q);
    TwoBits(q[2..]);
    Quarters(PackBits(q));
    assert q[2..][2..] == q[4..];
  }

  /** Bit k of the byte is bit k of the list: the one that the mask 1 << k selects. */
  lemma {:induction false} BitPlaces(q: Bits)
    requires |q| == 8
    ensures var v := PackBits(q);
            && (v % 2 == 1 <==> q[0]) && (v / 2 % 2 == 1 <==> q[1])
            && (v / 4 % 2 == 1 <==> q[2]) && (v / 8 % 2 == 1 <==> q[3])
            && (v / 16 % 2 == 1 <==> q[4]) && (v / 32 % 2 == 1 <==> q[5])
            && (v / 64 % 2 == 1 <==> q[6]) && (v / 128 % 2 == 1 <==> q[7])
  {
    hide PackBits;
    FourBits(q);
    FourBits(q[4..]);
    Quarters(PackBits(q));
  }

  /** The bits of blocks c, c + 1, ... c + 7. */
  function EightBits(st: State, c: nat): (r: Bits)
    ensures |r| == 8 && forall k :: 0 <= k < 8 ==> r[k] == InUse(st, c + k)
  {
    seq(8, k requires 0 <= k => InUse(st, c + k))
  }

  function PackMap(st: State, c: nat): (r: Sector)
    ensures |r.words| == SECTOR_BYTES
    ensures forall k :: 0 <= k < SECTOR_BYTES ==> r.words[k] == PackBits(EightBits(st, c + 8 * k))
  {
    Sector(seq(SECTOR_BYTES, k requires 0 <= k => PackBits(EightBits(st, c + 8 * k))))
  }

  /** Byte q of the free map as the disk has it. */
  function MapByteOn(l: Layout, d: Image, q: nat): (r: Bits)
    ensures |r| == 8
  {
    var b := l.bmapStart + q / BSIZE;
    var s := if b < |d| then d[b].Half(q % BSIZE >= SECTOR_BYTES) else Sector([]);
    UnpackBits(WordAt(s, q % SECTOR_BYTES), 8)
  }

  // ---------------------------------------------------------------------
  // Blocks

  function Take(x: Bytes): (r: Bytes)
    ensures r + Drop(x) == x
  {
    if |x| <= SECTOR_BYTES then x else x[..SECTOR_BYTES]
  }

  function Drop(x: Bytes): Bytes
  {
    if |x| <= SECTOR_BYTES then [] else x[SECTOR_BYTES..]
  }

  /** What block b of the disk holds. */
  function Pack(l: Layout, st: State, b: int): Block
  {
    if l.inodeStart <= b < l.bmapStart then
      var i := (b - l.inodeStart) * IPB;
      Block(PackInodes(st, i), PackInodes(st, i + IPB / 2))
    else if l.bmapStart <= b < l.nmeta then
      var c := (b - l.bmapStart) * BPB;
      Block(PackMap(st, c), PackMap(st, c + BPB / 2))
    else if l.nmeta <= b < l.size && 0 <= b < |st.data| then
      Block(Sector(Take(st.data[b])), Sector(Drop(st.data[b])))
    else
      Block(Sector([]), Sector([]))
  }

  /** Block b as the disk has it; the file system's own metadata is no data. */
  function DataOn(l: Layout, d: Image, b: nat): Bytes
  {
    if l.nmeta <= b < |d| then Nats(d[b].lo.words + d[b].hi.words) else ZeroBlock()
  }

  /** The file system found on a disk. */
  function Unpack(l: Layout, ninodes: nat, d: Image): (r: State)
    ensures |r.inodes| == ninodes && forall i: nat :: i < ninodes ==> r.inodes[i] == InodeOn(l, d, i)
    ensures |r.bitmap| == MapSize(l) * BSIZE && forall q: nat :: q < |r.bitmap| ==> r.bitmap[q] == MapByteOn(l, d, q)
    ensures |r.data| == l.size && forall b: nat :: b < l.size ==> r.data[b] == DataOn(l, d, b)
  {
    State(seq(MapSize(l) * BSIZE, q requires 0 <= q => MapByteOn(l, d, q)),
          seq(l.size, b requires 0 <= b => DataOn(l, d, b)),
          seq(ninodes, i requires 0 <= i => InodeOn(l, d, i)))
  }

  // ---------------------------------------------------------------------
  // A block depends only on what is stored in it

  lemma InodesLocal(l: Layout, st: State, st': State, b: int)
    requires SamePart(l, st, st', b) && l.inodeStart <= b < l.bmapStart
    ensures Pack(l, st, b) == Pack(l, st', b)
  {
    var i := (b - l.inodeStart) * IPB;
    forall k: nat | k < SECTOR_WORDS
      ensures InodesWord(st, i, k) == InodesWord(st', i, k)
      ensures InodesWord(st, i + IPB / 2, k) == InodesWord(st', i + IPB / 2, k)
    {
      assert (i + k / INODE_WORDS) / IPB == b - l.inodeStart;
      assert (i + IPB / 2 + k / INODE_WORDS) / IPB == b - l.inodeStart;
    }
    assert PackInodes(st, i).words == PackInodes(st', i).words;
    assert PackInodes(st, i + IPB / 2).words == PackInodes(st', i + IPB / 2).words;
  }

  lemma MapLocal(l: Layout, st: State, st': State, b: int, c: nat)
    requires SamePart(l, st, st', b) && l.bmapStart <= b < l.nmeta
    requires c == (b - l.bmapStart) * BPB || c == (b - l.bmapStart) * BPB + BPB / 2
    ensures PackMap(st, c) == PackMap(st', c)
  {
    hide InUse;
    forall k: nat | k < SECTOR_BYTES ensures EightBits(st, c + 8 * k) == EightBits(st', c + 8 * k) {
      forall x: nat | c + 8 * k <= x < c + 8 * k + 8 ensures InUse(st, x) == InUse(st', x) {
        assert x / BPB == b - l.bmapStart;
      }
    }
    assert PackMap(st, c).words == PackMap(st', c).words;
  }

  function Layouter(l: Layout): (State, int) -> Block
  {
    (st, b) => Pack(l, st, b)
  }

  lemma MapBlockLocal(l: Layout, st: State, st': State, b: int)
    requires SamePart(l, st, st', b) && l.bmapStart <= b < l.nmeta && !(l.inodeStart <= b < l.bmapStart)
    ensures Pack(l, st, b) == Pack(l, st', b)
  {
    hide SamePart, PackMap;
    MapLocal(l, st, st', b, (b - l.bmapStart) * BPB);
    MapLocal(l, st, st', b, (b - l.bmapStart) * BPB + BPB / 2);
  }

  lemma DataLocal(l: Layout, st: State, st': State, b: int)
    requires SamePart(l, st, st', b) && !(l.inodeStart <= b < l.bmapStart) && !(l.bmapStart <= b < l.nmeta)
    ensures Pack(l, st, b) == Pack(l, st', b)
  {
  }

  lemma PackIsLocal(l: Layout)
    ensures Local(l, Layouter(l))
  {
    hide SamePart, Pack;
    forall st, st', b | SamePart(l, st, st', b) ensures Pack(l, st, b) == Pack(l, st', b) {
      if l.inodeStart <= b < l.bmapStart {
        InodesLocal(l, st, st', b);
      } else if l.bmapStart <= b < l.nmeta {
        MapBlockLocal(l, st, st', b);
      } else {
        DataLocal(l, st, st', b);
      }
    }
  }

  // ---------------------------------------------------------------------
  // The way back

  lemma InodeBlock(l: Layout, g: Geometry, d: Image, st: State, b: int, second: bool)
    requires StandsFor(g, d, Layouter(l), st) && LaidOut(l, g, |st.inodes|) && l.inodeStart <= b < l.bmapStart
    ensures b < |d| && d[b].Half(second) == PackInodes(st, (b - l.inodeStart) * IPB + if second then IPB / 2 else 0)
  {
    hide PackInodes;
    assert IsHome(g, b);
    assert d[b] == Pack(l, st, b);
  }

  lemma MapBlock(l: Layout, g: Geometry, d: Image, st: State, b: int, second: bool)
    requires StandsFor(g, d, Layouter(l), st) && LaidOut(l, g, |st.inodes|) && l.bmapStart <= b < l.nmeta
    ensures b < |d| && d[b].Half(second) == PackMap(st, (b - l.bmapStart) * BPB + if second then BPB / 2 else 0)
  {
    hide PackMap;
    assert IsHome(g, b);
    assert d[b] == Pack(l, st, b);
  }

  lemma InodePlace(i: nat, n: nat)
    requires i < n
    ensures i / IPB <= n / IPB
    ensures i == i / IPB * IPB + (if i % IPB >= IPB / 2 then IPB / 2 else 0) + i % (IPB / 2)
  {
    var c, r := i / IPB, i % IPB;
    assert i == IPB * c + r;
    if r >= 8 {
      Remainder8(2 * c + 1, r - 8);
    } else {
      Remainder8(2 * c, r);
    }
  }

  lemma Remainder8(c: nat, r: nat)
    requires r < 8
    ensures (8 * c + r) % 8 == r
  {
  }

  lemma Remainder512(c: nat, r: nat)
    requires r < 512
    ensures (512 * c + r) % 512 == r
  {
  }

  lemma InodesBack(l: Layout, g: Geometry, d: Image, st: State, i: nat)
    requires StandsFor(g, d, Layouter(l), st) && LaidOut(l, g, |st.inodes|) && Shaped(l, st) && i < |st.inodes|
    ensures InodeOn(l, d, i) == st.inodes[i]
  {
    hide StandsFor, PackInodes, UnpackInode, LaidOut;
    var b, m := l.inodeStart + i / IPB, i % (IPB / 2);
    InodePlace(i, |st.inodes|);
    assert b < l.bmapStart by { InodesEnd(l, g, |st.inodes|); }
    InodeBlock(l, g, d, st, b, i % IPB >= IPB / 2);
    InodeBack(st, i - m, m);
  }

  lemma InodesEnd(l: Layout, g: Geometry, ninodes: nat)
    requires LaidOut(l, g, ninodes)
    ensures l.inodeStart + ninodes / IPB < l.bmapStart
  {
  }

  lemma BytePlace(l: Layout, q: nat)
    requires q < MapSize(l) * BSIZE
    ensures q / BSIZE < MapSize(l)
    ensures 8 * q == q / BSIZE * BPB + (if q % BSIZE >= SECTOR_BYTES then BPB / 2 else 0) + 8 * (q % SECTOR_BYTES)
  {
    hide MapSize;
    var c, r := q / BSIZE, q % BSIZE;
    assert q == BSIZE * c + r;
    if r >= SECTOR_BYTES {
      Remainder512(2 * c + 1, r - SECTOR_BYTES);
    } else {
      Remainder512(2 * c, r);
    }
  }

  lemma MapBack(l: Layout, g: Geometry, d: Image, st: State, q: nat)
    requires StandsFor(g, d, Layouter(l), st) && LaidOut(l, g, |st.inodes|) && q < MapSize(l) * BSIZE
    ensures MapByteOn(l, d, q) == EightBits(st, 8 * q)
  {
    hide StandsFor, PackMap, EightBits, UnpackBits, PackBits, MapSize;
    BytePlace(l, q);
    MapBlock(l, g, d, st, l.bmapStart + q / BSIZE, q % BSIZE >= SECTOR_BYTES);
    BitsBack(EightBits(st, 8 * q));
  }

  lemma DataBack(l: Layout, g: Geometry, d: Image, st: State, b: nat)
    requires StandsFor(g, d, Layouter(l), st) && LaidOut(l, g, |st.inodes|) && l.nmeta <= b < l.size <= |st.data|
    ensures DataOn(l, d, b) == st.data[b]
  {
    assert IsHome(g, b);
    assert d[b] == Pack(l, st, b);
    assert d[b].lo.words + d[b].hi.words == st.data[b];
  }

  /** The same inodes, the same free map and the same data blocks. */
  ghost predicate Same(l: Layout, st: State, st': State)
  {
    && st'.inodes == st.inodes && (forall c: nat :: c < l.size ==> InUse(st', c) == InUse(st, c))
    && |st.data| == |st'.data| && forall b: nat :: l.nmeta <= b < |st.data| ==> st'.data[b] == st.data[b]
  }

  lemma UnpackSame(l: Layout, g: Geometry, d: Image, st: State)
    requires StandsFor(g, d, Layouter(l), st) && LaidOut(l, g, |st.inodes|) && Shaped(l, st)
    ensures Same(l, st, Unpack(l, |st.inodes|, d)) && Shaped(l, Unpack(l, |st.inodes|, d))
  {
    hide StandsFor, LaidOut, InodeOn, MapByteOn, DataOn;
    var st' := Unpack(l, |st.inodes|, d);
    forall i: nat | i < |st.inodes| ensures st'.inodes[i] == st.inodes[i] {
      InodesBack(l, g, d, st, i);
    }
    forall c: nat | c < l.size ensures InUse(st', c) == InUse(st, c) {
      MapReach(l, c);
      MapBack(l, g, d, st, c / 8);
      assert c == 8 * (c / 8) + c % 8;
    }
    forall b: nat | b < l.size ensures |st'.data[b]| == BSIZE && (b >= l.nmeta ==> st'.data[b] == st.data[b]) {
      if b >= l.nmeta {
        DataBack(l, g, d, st, b);
      } else {
        assert DataOn(l, d, b) == ZeroBlock() by { NoData(l, d, b); }
      }
    }
    MapReach(l, 0);
  }

  lemma NoData(l: Layout, d: Image, b: nat)
    requires b < l.nmeta
    ensures DataOn(l, d, b) == ZeroBlock()
  {
  }

  lemma MapReach(l: Layout, c: nat)
    ensures c < l.size ==> c / 8 < MapSize(l) * BSIZE
    ensures l.size <= 8 * (MapSize(l) * BSIZE)
  {
  }

  /** A disk that stands for a consistent file system unpacks to a consistent one with the same files. */
  lemma UnpackFiles(l: Layout, g: Geometry, d: Image, st: State, owner: map<nat, Slot>)
    requires StandsFor(g, d, Layouter(l), st) && LaidOut(l, g, |st.inodes|) && Mountable(l, st, owner)
    ensures var st' := Unpack(l, |st.inodes|, d);
            Mountable(l, st', owner) && FsRuns.View(st') == FsRuns.View(st)
  {
    OwnedShape(l, st, owner);
    UnpackSame(l, g, d, st);
    SameIsMountable(l, st, Unpack(l, |st.inodes|, d), owner);
  }

  lemma SameIsMountable(l: Layout, st: State, st': State, owner: map<nat, Slot>)
    requires Same(l, st, st') && Shaped(l, st') && Mountable(l, st, owner)
    ensures Mountable(l, st', owner) && FsRuns.View(st') == FsRuns.View(st)
  {
    SameSlotsToo(l, st, st', owner);
    hide Ptr, InUse, Shaped;
    assert Linked(l, st', owner) by { LinkedSame(l, st, st', owner); }
    forall i: nat | i < |st'.inodes| ensures NoHoles(st', i) && FsRuns.View(st')[i] == FsRuns.View(st)[i] {
      assert NoHoles(st, i);
      SameBytes(l, st, st', owner, i);
      FsRuns.SameContent(st, st', i);
    }
  }

  lemma SameSlotsToo(l: Layout, st: State, st': State, owner: map<nat, Slot>)
    requires Same(l, st, st') && Owned(l, st, owner)
    ensures SameSlots(st, st')
  {
    forall t ensures Ptr(st', t) == Ptr(st, t) {
      if t.Entry? {
        assert Addr(st, t.i, NDIRECT) == Ptr(st, Indirect(t.i));
      }
    }
  }

  lemma SameBytes(l: Layout, st: State, st': State, owner: map<nat, Slot>, i: nat)
    requires Same(l, st, st') && Owned(l, st, owner) && SameSlots(st, st')
    ensures SameFile(st, st', i)
  {
    forall k: nat ensures ByteAt(st', i, k) == ByteAt(st, i, k) {
      OwnedBound(l, st, owner, FileSlot(i, k / BSIZE));
    }
  }

  /** What is found on the disk is consistent and has the files committed at this stop. */
  ghost predicate Found(l: Layout, p: FsRuns.Stop, d: Image)
  {
    var st := Unpack(l, |p.st.inodes|, d);
    Mountable(l, st, p.owner) && FsRuns.View(st) == p.files.safe
  }

  /** Power fails after n sectors of the run, recovery is cut off as often as cuts says, and then finds the
      stop after the operations whose header was on the disk. */
  ghost predicate Survives(l: Layout, g: Geometry, d: Image, trail: seq<FsRuns.Stop>, cs: seq<Commit>, n: nat,
                           cuts: seq<nat>)
  {
    && GoodCommits(g, cs) && n <= |AllSectors(g, cs)| && Durable(g, cs, n) < |trail|
    && var e := PutAll(d, AllSectors(g, cs)[..n]);
       && GoodDisk(g, e) && GoodDisk(g, Reboots(g, e, cuts))
       && Found(l, trail[Durable(g, cs, n)], Recovered(g, Reboots(g, e, cuts)))
  }

  /**
   * Power fails after any sector of any run, recovery may itself be cut off any number of times, and the
   * recovered disk is read back: what is found is a consistent file system, and its files are those that
   * the flat file system had committed after the operations whose header was on the disk.
   */
  lemma FilesAfterPowerFailure(l: Layout, g: Geometry, d: Image, trail: seq<FsRuns.Stop>, ops: seq<Op>,
                               outs: seq<Outcome>, cs: seq<Commit>, n: nat, cuts: seq<nat>)
    requires FsRuns.IsTrail(l, trail, ops, outs) && LaidOut(l, g, |trail[0].st.inodes|)
    requires forall k :: 0 <= k < |ops| ==> OneTransaction(l, ops[k])
    requires Holds(g, d, Layouter(l), Saved(trail[0].st, trail[0].safe)) && Header(g, d) == []
    requires CommitsOf(g, Layouter(l), trail, cs) && (GoodCommits(g, cs) ==> n <= |AllSectors(g, cs)|)
    ensures Survives(l, g, d, trail, cs, n, cuts)
  {
    hide Holds, FsRuns.StepOk, FsRuns.StopOk, OneTransaction, CommitsOf, StandsFor, Mountable, LaidOut;
    PackIsLocal(l);
    PowerFailure(l, g, Layouter(l), d, trail, ops, outs, cs, n, cuts);
    var k := Durable(g, cs, n);
    var p := trail[k];
    var e := Recovered(g, Reboots(g, PutAll(d, AllSectors(g, cs)[..n]), cuts));
    SameCount(l, trail, ops, outs, k);
    UnpackFiles(l, g, e, Saved(p.st, p.safe), p.owner);
  }
}
