/** The on-disk redo log, seen as the sector writes that commit and recovery issue,
    and the proof that a crash after any of them is atomic. */
module RedoLog {
  import opened Disk

  const LOGBLOCKS: nat := 30
  const SECTOR_WORDS: nat := 128

  /** The superblock fields the log depends on. */
  datatype Geometry = Geometry(logStart: nat, size: nat)

  ghost predicate Shape(g: Geometry, d: Image)
  {
    g.logStart + LOGBLOCKS < g.size == |d| && |d[g.logStart].lo.words| == SECTOR_WORDS
  }

  predicate IsHome(g: Geometry, b: int)
  {
    0 <= b < g.size && !(g.logStart <= b <= g.logStart + LOGBLOCKS)
  }

  ghost predicate GoodList(g: Geometry, bl: seq<int>)
  {
    |bl| <= LOGBLOCKS && forall i :: 0 <= i < |bl| ==> IsHome(g, bl[i])
  }

  /** The header is words 0..30 of its block, 124 bytes, all in the first sector. */
  function HeaderN(g: Geometry, d: Image): int
    requires g.logStart < |d| && |d[g.logStart].lo.words| == SECTOR_WORDS
  {
    d[g.logStart].lo.words[0]
  }

  function Header(g: Geometry, d: Image): seq<int>
    requires g.logStart < |d| && |d[g.logStart].lo.words| == SECTOR_WORDS
    requires 0 <= HeaderN(g, d) <= LOGBLOCKS
  {
    d[g.logStart].lo.words[1..1 + HeaderN(g, d)]
  }

  /** The blocks stored in the log slots the header counts. */
  function LogSlots(g: Geometry, d: Image): seq<Block>
    requires g.logStart + LOGBLOCKS < |d| && |d[g.logStart].lo.words| == SECTOR_WORDS
    requires 0 <= HeaderN(g, d) <= LOGBLOCKS
  {
    d[g.logStart + 1..g.logStart + 1 + HeaderN(g, d)]
  }

  ghost predicate GoodDisk(g: Geometry, d: Image)
  {
    Shape(g, d) && 0 <= HeaderN(g, d) <= LOGBLOCKS && GoodList(g, Header(g, d))
  }

  /** The last slot of a header list that names block b, or -1. */
  function SlotOf(bl: seq<int>, b: int): (i: int)
    ensures -1 <= i < |bl|
    ensures i == -1 <==> b !in bl
    ensures i >= 0 ==> bl[i] == b
  {
    if |bl| == 0 then -1
    else if bl[|bl| - 1] == b then |bl| - 1
    else SlotOf(bl[..|bl| - 1], b)
  }

  /** What home block b holds once recovery has replayed the log found on d. */
  ghost function Look(g: Geometry, d: Image, b: int): Block
    requires GoodDisk(g, d) && IsHome(g, b)
  {
    var i := SlotOf(Header(g, d), b);
    if i < 0 then d[b] else d[g.logStart + 1 + i]
  }

  ghost predicate SameHome(g: Geometry, d: Image, e: Image)
    requires GoodDisk(g, d) && GoodDisk(g, e)
  {
    forall b :: IsHome(g, b) ==> Look(g, d, b) == Look(g, e, b)
  }

  /** Every home block already holds, in place, what recovery would produce. */
  ghost predicate Installed(g: Geometry, d: Image)
    requires GoodDisk(g, d)
  {
    forall b :: IsHome(g, b) ==> d[b] == Look(g, d, b)
  }

  /** The header block written by write_head: the buffer's old words survive past the list. */
  function HeadBlock(prev: Block, bl: seq<int>): Block
    requires |bl| <= LOGBLOCKS && |prev.lo.words| == SECTOR_WORDS
  {
    prev.(lo := Sector([|bl|] + bl + prev.lo.words[1 + |bl|..]))
  }

  /** Log slots 0..|contents| receive the given blocks. */
  function LogWrites(g: Geometry, contents: seq<Block>): (r: seq<SectorWrite>)
    ensures |r| == 2 * |contents|
    ensures forall w :: w in r ==> g.logStart < w.block <= g.logStart + |contents|
  {
    if |contents| == 0 then []
    else
      var n := |contents| - 1;
      LogWrites(g, contents[..n]) + BlockWrites(g.logStart + 1 + n, contents[n])
  }

  function InstallWrites(bl: seq<int>, contents: seq<Block>): (r: seq<SectorWrite>)
    requires |bl| == |contents|
    ensures |r| == 2 * |bl|
    ensures forall w :: w in r ==> w.block in bl
  {
    if |bl| == 0 then []
    else
      var n := |bl| - 1;
      InstallWrites(bl[..n], contents[..n]) + BlockWrites(bl[n], contents[n])
  }

  function Gather(v: Image, bl: seq<int>): (r: seq<Block>)
    requires forall i :: 0 <= i < |bl| ==> 0 <= bl[i] < |v|
    ensures |r| == |bl|
  {
    seq(|bl|, i requires 0 <= i < |bl| => v[bl[i]])
  }

  /** All sector writes of commit(), in order: log blocks, header, home blocks, header. */
  ghost function CommitWrites(g: Geometry, v: Image, bl: seq<int>): (r: seq<SectorWrite>)
    requires Shape(g, v) && GoodList(g, bl)
    ensures |r| == 4 * |bl| + 4
  {
    var h := HeadBlock(v[g.logStart], bl);
    LogWrites(g, Gather(v, bl)) + (BlockWrites(g.logStart, h)
    + (InstallWrites(bl, Gather(v, bl)) + BlockWrites(g.logStart, HeadBlock(h, []))))
  }

  /** All sector writes of recover_from_log() started on disk d. */
  ghost function RecoveryWrites(g: Geometry, d: Image): (r: seq<SectorWrite>)
    requires GoodDisk(g, d)
    ensures |r| == 2 * HeaderN(g, d) + 2
  {
    InstallWrites(Header(g, d), LogSlots(g, d))
    + BlockWrites(g.logStart, HeadBlock(d[g.logStart], []))
  }

  // ---------------------------------------------------------------------
  // Runs of writes that recovery cannot see

  /** A write that does not change what recovery produces: into the home area for a
      block the log overrides, into a log slot while the log is empty, or into the
      header's second sector. */
  ghost predicate Invisible(g: Geometry, bl: seq<int>, w: SectorWrite)
  {
    || (w.block in bl && IsHome(g, w.block))
    || (bl == [] && g.logStart < w.block <= g.logStart + LOGBLOCKS)
    || (w.block == g.logStart && w.second)
  }

  lemma InvisiblePut(g: Geometry, d: Image, w: SectorWrite)
    requires GoodDisk(g, d) && Invisible(g, Header(g, d), w)
    ensures GoodDisk(g, Put(d, w)) && Header(g, Put(d, w)) == Header(g, d)
    ensures SameHome(g, d, Put(d, w))
  {
    var e := Put(d, w);
    assert e[g.logStart].lo == d[g.logStart].lo;
    forall b | IsHome(g, b) ensures Look(g, d, b) == Look(g, e, b) {
      var i := SlotOf(Header(g, d), b);
      assert Header(g, e) == Header(g, d);
    }
  }

  lemma {:induction false} InvisibleRun(g: Geometry, d: Image, ws: seq<SectorWrite>)
    requires GoodDisk(g, d) && forall w :: w in ws ==> Invisible(g, Header(g, d), w)
    ensures GoodDisk(g, PutAll(d, ws)) && Header(g, PutAll(d, ws)) == Header(g, d)
    ensures SameHome(g, d, PutAll(d, ws))
    decreases |ws|
  {
    if |ws| > 0 {
      InvisibleRun(g, d, ws[..|ws| - 1]);
      InvisiblePut(g, PutAll(d, ws[..|ws| - 1]), ws[|ws| - 1]);
    }
  }

  /** The header's first sector takes effect as one command. */
  lemma HeadPut(g: Geometry, d: Image, prev: Block, bl: seq<int>)
    requires Shape(g, d) && GoodList(g, bl) && |prev.lo.words| == SECTOR_WORDS
    ensures var e := Put(d, SectorWrite(g.logStart, false, HeadBlock(prev, bl).lo));
            && GoodDisk(g, e) && Header(g, e) == bl
            && forall b :: 0 <= b < |d| && b != g.logStart ==> e[b] == d[b]
  {
    var e := Put(d, SectorWrite(g.logStart, false, HeadBlock(prev, bl).lo));
    assert e[g.logStart].lo.words[1..1 + |bl|] == bl;
  }

  // ---------------------------------------------------------------------
  // Installing and clearing, interrupted anywhere

  lemma {:induction false} InstallEffect(d: Image, bl: seq<int>, contents: seq<Block>, b: int)
    requires |bl| == |contents| && 0 <= b < |d|
    ensures PutAll(d, InstallWrites(bl, contents))[b]
            == if b in bl then contents[SlotOf(bl, b)] else d[b]
    decreases |bl|
  {
    if |bl| > 0 {
      var n := |bl| - 1;
      InstallEffect(d, bl[..n], contents[..n], b);
      PutAllAppend(d, InstallWrites(bl[..n], contents[..n]), BlockWrites(bl[n], contents[n]));
      var m := PutAll(d, InstallWrites(bl[..n], contents[..n]));
      assert PutAll(m, BlockWrites(bl[n], contents[n]))[b] == if b == bl[n] then contents[n] else m[b] by {
        if 0 <= bl[n] < |d| {
          PutBlock(m, bl[n], contents[n]);
        } else {
          PutOutside(m, bl[n], contents[n]);
        }
      }
      assert bl == bl[..n] + [bl[n]];
    }
  }

  lemma PutOutside(d: Image, b: int, data: Block)
    requires !(0 <= b < |d|)
    ensures PutAll(d, BlockWrites(b, data)) == d
  {
    PutBlockPrefix(d, b, data);
  }

  lemma InstallPrefix(g: Geometry, d: Image, contents: seq<Block>, k: nat)
    requires GoodDisk(g, d) && |contents| == HeaderN(g, d) && k <= 2 * |contents|
    ensures var e := PutAll(d, InstallWrites(Header(g, d), contents)[..k]);
            GoodDisk(g, e) && Header(g, e) == Header(g, d) && SameHome(g, d, e)
  {
    var ws := InstallWrites(Header(g, d), contents)[..k];
    forall w | w in ws ensures Invisible(g, Header(g, d), w) {
      assert w in InstallWrites(Header(g, d), contents);
    }
    InvisibleRun(g, d, ws);
  }

  lemma InstalledAt(g: Geometry, d: Image, b: int)
    requires GoodDisk(g, d) && IsHome(g, b)
    ensures PutAll(d, InstallWrites(Header(g, d), LogSlots(g, d)))[b] == Look(g, d, b)
  {
    hide PutAll, InstallWrites;
    InstallEffect(d, Header(g, d), LogSlots(g, d), b);
  }

  lemma InstallDone(g: Geometry, d: Image, contents: seq<Block>)
    requires GoodDisk(g, d) && contents == LogSlots(g, d)
    ensures var e := PutAll(d, InstallWrites(Header(g, d), contents));
            && GoodDisk(g, e) && Header(g, e) == Header(g, d) && SameHome(g, d, e)
            && Installed(g, e)
  {
    var ws := InstallWrites(Header(g, d), contents);
    var e := PutAll(d, ws);
    assert ws[..|ws|] == ws;
    InstallPrefix(g, d, contents, |ws|);
    forall b | IsHome(g, b) ensures e[b] == Look(g, e, b) {
      InstalledAt(g, d, b);
    }
  }

  /** Clearing the header is invisible once everything is installed. */
  lemma ClearPrefix(g: Geometry, d: Image, prev: Block, k: nat)
    requires GoodDisk(g, d) && Installed(g, d) && |prev.lo.words| == SECTOR_WORDS && k <= 2
    ensures var e := PutAll(d, BlockWrites(g.logStart, HeadBlock(prev, []))[..k]);
            && GoodDisk(g, e) && SameHome(g, d, e)
            && (k == 2 ==> Header(g, e) == [])
  {
    var ws := BlockWrites(g.logStart, HeadBlock(prev, []));
    HeadPut(g, d, prev, []);
    var e1 := Put(d, ws[0]);
    assert SameHome(g, d, e1);
    InvisiblePut(g, e1, ws[1]);
    assert SameHome(g, d, Put(e1, ws[1]));
    PutBlockPrefix(d, g.logStart, HeadBlock(prev, []));
  }

  /** Installing then clearing, stopped after k sector writes. */
  lemma FinishPrefix(g: Geometry, d: Image, contents: seq<Block>, prev: Block, k: nat)
    requires GoodDisk(g, d) && contents == LogSlots(g, d)
    requires |prev.lo.words| == SECTOR_WORDS && k <= 2 * HeaderN(g, d) + 2
    ensures var ws := InstallWrites(Header(g, d), contents) + BlockWrites(g.logStart, HeadBlock(prev, []));
            var e := PutAll(d, ws[..k]);
            && GoodDisk(g, e) && SameHome(g, d, e)
            && (k == |ws| ==> Header(g, e) == [])
  {
    var ins := InstallWrites(Header(g, d), contents);
    var us := BlockWrites(g.logStart, HeadBlock(prev, []));
    PutAllPrefix(d, ins, us, k);
    if k <= |ins| {
      InstallPrefix(g, d, contents, k);
    } else {
      InstallDone(g, d, contents);
      ClearPrefix(g, PutAll(d, ins), prev, k - |ins|);
    }
  }

  /** Recovery stopped after any number of sector writes preserves what recovery would
      produce, and a completed recovery has produced it in place and emptied the log. */
  lemma RecoveryPrefix(g: Geometry, d: Image, k: nat)
    requires GoodDisk(g, d) && k <= |RecoveryWrites(g, d)|
    ensures var e := PutAll(d, RecoveryWrites(g, d)[..k]);
            && GoodDisk(g, e) && SameHome(g, d, e)
            && (k == |RecoveryWrites(g, d)| ==> Header(g, e) == [])
  {
    FinishPrefix(g, d, LogSlots(g, d), d[g.logStart], k);
  }

  /** The disk after a sequence of reboots, each of whose recoveries is cut short after
      the given number of sector writes. */
  ghost function Reboots(g: Geometry, d: Image, cuts: seq<nat>): Image
    requires GoodDisk(g, d)
    decreases |cuts|
  {
    if |cuts| == 0 then d
    else
      var ws := RecoveryWrites(g, d);
      var k := if cuts[0] <= |ws| then cuts[0] else |ws|;
      RecoveryPrefix(g, d, k);
      Reboots(g, PutAll(d, ws[..k]), cuts[1..])
  }

  ghost function Recovered(g: Geometry, d: Image): Image
    requires GoodDisk(g, d)
  {
    PutAll(d, RecoveryWrites(g, d))
  }

  /** However often recovery itself crashes, the final recovery produces the same home area. */
  lemma {:induction false} RebootsRecover(g: Geometry, d: Image, cuts: seq<nat>)
    requires GoodDisk(g, d)
    ensures GoodDisk(g, Reboots(g, d, cuts))
    ensures var r := Recovered(g, Reboots(g, d, cuts));
            && GoodDisk(g, r) && Header(g, r) == []
            && forall b :: IsHome(g, b) ==> r[b] == Look(g, d, b)
    decreases |cuts|
  {
    var ws := RecoveryWrites(g, d);
    if |cuts| == 0 {
      assert ws[..|ws|] == ws;
      RecoveryPrefix(g, d, |ws|);
    } else {
      var k := if cuts[0] <= |ws| then cuts[0] else |ws|;
      RecoveryPrefix(g, d, k);
      RebootsRecover(g, PutAll(d, ws[..k]), cuts[1..]);
    }
  }

  // ---------------------------------------------------------------------
  // Commit

  /** Home block b after transaction bl with cache contents v. */
  function After(d: Image, v: Image, bl: seq<int>, b: int): Block
    requires 0 <= b < |d| == |v|
  {
    if b in bl then v[b] else d[b]
  }

  lemma {:induction false} LogEffect(g: Geometry, d: Image, contents: seq<Block>)
    requires g.logStart + |contents| < |d|
    ensures var e := PutAll(d, LogWrites(g, contents));
            && e[g.logStart + 1..g.logStart + 1 + |contents|] == contents
            && forall b :: 0 <= b < |d| && !(g.logStart < b <= g.logStart + |contents|) ==> e[b] == d[b]
    decreases |contents|
  {
    hide PutAll;
    PutAllNone(d);
    if |contents| > 0 {
      var n := |contents| - 1;
      LogEffect(g, d, contents[..n]);
      var ws := LogWrites(g, contents[..n]);
      PutAllAppend(d, ws, BlockWrites(g.logStart + 1 + n, contents[n]));
      var m := PutAll(d, ws);
      PutBlock(m, g.logStart + 1 + n, contents[n]);
      var e := m[g.logStart + 1 + n := contents[n]];
      assert e[g.logStart + 1..g.logStart + 1 + |contents|]
          == m[g.logStart + 1..g.logStart + 1 + n] + [contents[n]];
    }
  }

  /** Disk m has the transaction's blocks in its log slots; c is m with the header's first
      sector written. */
  ghost predicate Committed(g: Geometry, d: Image, v: Image, bl: seq<int>, c: Image)
    requires Shape(g, d) && Shape(g, v) && GoodList(g, bl)
  {
    && GoodDisk(g, c) && Header(g, c) == bl && LogSlots(g, c) == Gather(v, bl)
    && forall b :: IsHome(g, b) ==> c[b] == d[b]
  }

  lemma CommittedLook(g: Geometry, d: Image, v: Image, bl: seq<int>, c: Image, b: int)
    requires Shape(g, d) && Shape(g, v) && GoodList(g, bl) && Committed(g, d, v, bl, c)
    requires IsHome(g, b)
    ensures Look(g, c, b) == After(d, v, bl, b)
  {
    var i := SlotOf(bl, b);
    if i >= 0 {
      assert LogSlots(g, c)[i] == v[bl[i]];
    }
  }

  /** The header's first sector is the commit point. */
  lemma CommitPoint(g: Geometry, d: Image, v: Image, bl: seq<int>)
    requires Shape(g, d) && Shape(g, v) && GoodList(g, bl)
    ensures Committed(g, d, v, bl, Put(PutAll(d, LogWrites(g, Gather(v, bl))),
                                       BlockWrites(g.logStart, HeadBlock(v[g.logStart], bl))[0]))
  {
    hide PutAll, LogWrites, SlotOf;
    var m := PutAll(d, LogWrites(g, Gather(v, bl)));
    LogEffect(g, d, Gather(v, bl));
    HeadPut(g, m, v[g.logStart], bl);
    var e := Put(m, BlockWrites(g.logStart, HeadBlock(v[g.logStart], bl))[0]);
    assert HeaderN(g, e) == |Header(g, e)| == |bl|;
    assert LogSlots(g, e) == m[g.logStart + 1..g.logStart + 1 + |bl|];
    forall b | IsHome(g, b) ensures e[b] == d[b] {
      assert m[b] == d[b];
    }
  }

  lemma SecondHalf(g: Geometry, c: Image, data: Sector)
    requires GoodDisk(g, c)
    ensures var c2 := Put(c, SectorWrite(g.logStart, true, data));
            && GoodDisk(g, c2) && Header(g, c2) == Header(g, c) && LogSlots(g, c2) == LogSlots(g, c)
            && SameHome(g, c, c2)
  {
    InvisiblePut(g, c, SectorWrite(g.logStart, true, data));
  }

  lemma AfterHead(m: Image, b: int, h: Block, fin: seq<SectorWrite>, k: nat)
    requires 1 <= k <= |fin| + 2
    ensures var c := Put(m, SectorWrite(b, false, h.lo));
            PutAll(m, (BlockWrites(b, h) + fin)[..k])
            == if k == 1 then c else PutAll(Put(c, SectorWrite(b, true, h.hi)), fin[..k - 2])
  {
    PutAllPrefix(m, BlockWrites(b, h), fin, k);
    PutBlockPrefix(m, b, h);
    assert fin[..0] == [];
  }

  /** The rest of commit, stopped after k sector writes that include the commit point c. */
  lemma CommittedPrefix(g: Geometry, m: Image, h: Block, c: Image, fin: seq<SectorWrite>, k: nat)
    requires |h.lo.words| == SECTOR_WORDS && GoodDisk(g, c)
    requires c == Put(m, SectorWrite(g.logStart, false, h.lo))
    requires fin == InstallWrites(Header(g, c), LogSlots(g, c)) + BlockWrites(g.logStart, HeadBlock(h, []))
    requires 1 <= k <= |fin| + 2
    ensures var e := PutAll(m, (BlockWrites(g.logStart, h) + fin)[..k]);
            && GoodDisk(g, e) && SameHome(g, c, e)
            && (k == |fin| + 2 ==> Header(g, e) == [])
  {
    hide PutAll, InstallWrites, Look, SlotOf;
    AfterHead(m, g.logStart, h, fin, k);
    if k >= 2 {
      SecondHalf(g, c, h.hi);
      var c2 := Put(c, SectorWrite(g.logStart, true, h.hi));
      FinishPrefix(g, c2, LogSlots(g, c), h, k - 2);
      SameHomeTrans(g, c, c2, PutAll(c2, fin[..k - 2]));
    }
  }

  lemma SameHomeTrans(g: Geometry, a: Image, b: Image, c: Image)
    requires GoodDisk(g, a) && GoodDisk(g, b) && GoodDisk(g, c)
    requires SameHome(g, a, b) && SameHome(g, b, c)
    ensures SameHome(g, a, c)
  {
  }

  /** Commit stopped after k sector writes: nothing before the commit point, everything from
      it on, and after the last write the log is empty again. */
  lemma CommitPrefix(g: Geometry, d: Image, v: Image, bl: seq<int>, k: nat)
    requires GoodDisk(g, d) && Header(g, d) == [] && Shape(g, v) && GoodList(g, bl)
    requires k <= |CommitWrites(g, v, bl)|
    ensures var e := PutAll(d, CommitWrites(g, v, bl)[..k]);
            && GoodDisk(g, e)
            && (k <= 2 * |bl| ==> Header(g, e) == [] && SameHome(g, d, e))
            && (k > 2 * |bl| ==> forall b :: IsHome(g, b) ==> Look(g, e, b) == After(d, v, bl, b))
            && (k == |CommitWrites(g, v, bl)| ==> Header(g, e) == [])
  {
    var ws := LogWrites(g, Gather(v, bl));
    var h := HeadBlock(v[g.logStart], bl);
    var fin := InstallWrites(bl, Gather(v, bl)) + BlockWrites(g.logStart, HeadBlock(h, []));
    PutAllPrefix(d, ws, BlockWrites(g.logStart, h) + fin, k);
    if k <= |ws| {
      forall w | w in ws[..k] ensures Invisible(g, Header(g, d), w) {
        assert w in ws;
      }
      InvisibleRun(g, d, ws[..k]);
    } else {
      CommitPoint(g, d, v, bl);
      var c := Put(PutAll(d, ws), BlockWrites(g.logStart, h)[0]);
      CommittedPrefix(g, PutAll(d, ws), h, c, fin, k - |ws|);
      forall b | IsHome(g, b) ensures Look(g, c, b) == After(d, v, bl, b) {
        CommittedLook(g, d, v, bl, c, b);
      }
    }
  }

  /** Crash atomicity.  Stop commit after any sector write, reboot any number of times with
      recovery itself stopped after any sector write, and let one recovery finish: all home
      blocks hold their old contents or all hold their new ones, decided solely by whether
      the header's first sector had been written. */
  lemma CrashAtomicity(g: Geometry, d: Image, v: Image, bl: seq<int>, k: nat, cuts: seq<nat>)
    requires GoodDisk(g, d) && Header(g, d) == [] && Shape(g, v) && GoodList(g, bl)
    requires k <= |CommitWrites(g, v, bl)|
    ensures GoodDisk(g, PutAll(d, CommitWrites(g, v, bl)[..k]))
    ensures GoodDisk(g, Reboots(g, PutAll(d, CommitWrites(g, v, bl)[..k]), cuts))
    ensures var r := Recovered(g, Reboots(g, PutAll(d, CommitWrites(g, v, bl)[..k]), cuts));
            && GoodDisk(g, r) && Header(g, r) == []
            && (k <= 2 * |bl| ==> forall b :: IsHome(g, b) ==> r[b] == d[b])
            && (k > 2 * |bl| ==> forall b :: IsHome(g, b) ==> r[b] == After(d, v, bl, b))
  {
    CommitPrefix(g, d, v, bl, k);
    RebootsRecover(g, PutAll(d, CommitWrites(g, v, bl)[..k]), cuts);
  }
}
