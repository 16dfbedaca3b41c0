/** The in-memory half of the log: log_lh, log_outstanding, log_committing, and the
    procedures that update them and drive the device. */
module Log {
  import opened Disk
  import opened RedoLog
  import opened LogRuns

  /** The history t extended by the first i writes of write_log. */
  function LogTrace(t: Trace, g: Geometry, contents: seq<Block>, i: nat): Trace
    requires i <= |contents|
  {
    if i == 0 then t else Then(LogTrace(t, g, contents, i - 1), g.logStart + i, contents[i - 1])
  }

  /** The history t extended by the first i writes of install_trans. */
  function InstallTrace(t: Trace, bl: seq<int>, contents: seq<Block>, i: nat): Trace
    requires i <= |bl| == |contents|
  {
    if i == 0 then t else Then(InstallTrace(t, bl, contents, i - 1), bl[i - 1], contents[i - 1])
  }

  /** The cache v after the first i rounds of write_log. */
  function LogView(v: Image, g: Geometry, contents: seq<Block>, i: nat): (r: Image)
    requires i <= |contents| && g.logStart + |contents| < |v|
    ensures |r| == |v|
  {
    if i == 0 then v else LogView(v, g, contents, i - 1)[g.logStart + i := contents[i - 1]]
  }

  /** The cache v after the first i rounds of install_trans. */
  function InstallView(v: Image, bl: seq<int>, contents: seq<Block>, i: nat): (r: Image)
    requires i <= |bl| == |contents| && forall j :: 0 <= j < |bl| ==> 0 <= bl[j] < |v|
    ensures |r| == |v|
  {
    if i == 0 then v else InstallView(v, bl, contents, i - 1)[bl[i - 1] := contents[i - 1]]
  }

  /** The history t extended by a commit of the blocks bl of the cache v. */
  ghost function CommitHistory(t: Trace, g: Geometry, v: Image, bl: seq<int>): Trace
    requires Shape(g, v) && GoodList(g, bl)
  {
    var h := HeadBlock(v[g.logStart], bl);
    var logged := Then(LogTrace(t, g, Gather(v, bl), |bl|), g.logStart, h);
    Then(InstallTrace(logged, bl, Gather(v, bl), |bl|), g.logStart, HeadBlock(h, []))
  }

  /** The history t extended by a recovery of disk d. */
  ghost function RecoveryHistory(t: Trace, g: Geometry, d: Image): Trace
    requires GoodDisk(g, d)
  {
    Then(InstallTrace(t, Header(g, d), LogSlots(g, d), HeaderN(g, d)),
         g.logStart, HeadBlock(d[g.logStart], []))
  }

  ghost predicate Distinct(bl: seq<int>)
  {
    forall i, j :: 0 <= i < j < |bl| ==> bl[i] != bl[j]
  }

  function Blocks(bl: seq<int>): set<int>
  {
    set b | b in bl
  }

  class RedoLogger {
    const g: Geometry
    const dev: Device
    /** The disk as seen through the buffer cache: what bread returns. */
    var view: Image
    var n: nat
    var block: seq<int>
    var outstanding: nat
    var committing: bool
    /** The blocks whose buffers the log keeps pinned in the cache. */
    var pins: set<int>

    ghost predicate Valid()
      reads this, dev
    {
      && Shape(g, view) && |dev.sectors| == g.size
      && |block| == LOGBLOCKS && n <= LOGBLOCKS
      && GoodList(g, Pending())
    }

    /** Between operations: the cache differs from the disk only in logged blocks, which
        are pinned, and the log on disk is empty. */
    ghost predicate Settled()
      reads this, dev
    {
      && Valid()
      && GoodDisk(g, dev.sectors) && Header(g, dev.sectors) == []
      && Distinct(Pending()) && pins == Blocks(Pending()) && InSync(pins)
    }

    /** The cache agrees with the disk outside the given blocks. */
    ghost predicate InSync(dirty: set<int>)
      reads this, dev
    {
      |view| == |dev.sectors| && forall b :: 0 <= b < |view| && b !in dirty ==> view[b] == dev.sectors[b]
    }

    function Pending(): seq<int>
      reads this
      requires n <= |block|
    {
      block[..n]
    }

    /** A freshly booted machine: an empty cache over the given disk. */
    constructor (g: Geometry, dev: Device)
      requires Shape(g, dev.sectors)
      ensures this.g == g && this.dev == dev && Valid() && view == dev.sectors
      ensures n == 0 && outstanding == 0 && !committing && pins == {}
    {
      this.g := g;
      this.dev := dev;
      view := dev.sectors;
      n := 0;
      block := seq(LOGBLOCKS, _ => 0);
      outstanding := 0;
      committing := false;
      pins := {};
    }

    /** Copy one cached block over another and write it out: bread, bread, memmove, bwrite. */
    method CopyOut(from: int, to: int)
      requires |view| == |dev.sectors| && 0 <= from < |view| && 0 <= to < |view|
      modifies `view, dev
      ensures view == old(view)[to := old(view)[from]]
      ensures dev.trace == Then(old(dev.trace), to, old(view)[from])
      ensures dev.sectors == old(dev.sectors)[to := old(view)[from]]
    {
      view := view[to := view[from]];
      ghost var commands := dev.WriteBlock(to, view[to]);
    }

    /** write_log: copy each logged block from the cache to its log slot. */
    method WriteLog()
      requires Valid() && InSync(pins)
      modifies `view, dev
      ensures Valid()
      ensures dev.trace == LogTrace(old(dev.trace), g, Gather(old(view), Pending()), n)
      ensures view == LogView(old(view), g, Gather(old(view), Pending()), n)
      ensures InSync(pins)
    {
      ghost var log := Pending();
      ghost var contents := Gather(view, log);
      for tail := 0 to n
        invariant |view| == |dev.sectors| == g.size
        invariant dev.trace == LogTrace(old(dev.trace), g, contents, tail)
        invariant view == LogView(old(view), g, contents, tail)
        invariant InSync(pins)
      {
        assert IsHome(g, log[tail]);
        LogViewAt(old(view), g, contents, tail, log[tail]);
        CopyOut(block[tail], g.logStart + tail + 1);
      }
      LogViewAt(old(view), g, contents, n, g.logStart);
    }

    /** write_head: store the in-memory header into the header block and write it. */
    method WriteHead()
      requires Valid()
      modifies `view, dev
      ensures Valid()
      ensures view == old(view)[g.logStart := HeadBlock(old(view)[g.logStart], Pending())]
      ensures dev.trace == Then(old(dev.trace), g.logStart, view[g.logStart])
      ensures dev.sectors == old(dev.sectors)[g.logStart := view[g.logStart]]
    {
      var words := view[g.logStart].lo.words;
      words := words[0 := n];
      for i := 0 to n
        invariant |words| == SECTOR_WORDS && words[0] == n
        invariant forall j :: 0 <= j < i ==> words[1 + j] == block[j]
        invariant forall j :: 1 + i <= j < SECTOR_WORDS ==> words[j] == view[g.logStart].lo.words[j]
      {
        words := words[1 + i := block[i]];
      }
      assert words == [n] + Pending() + view[g.logStart].lo.words[1 + n..];
      view := view[g.logStart := view[g.logStart].(lo := Sector(words))];
      ghost var commands := dev.WriteBlock(g.logStart, view[g.logStart]);
    }

    /** One round of install_trans's loop. */
    method InstallOne(tail: nat, recovering: bool)
      requires |view| == |dev.sectors| == g.size && g.logStart + LOGBLOCKS < g.size
      requires tail < n <= LOGBLOCKS == |block| && 0 <= block[tail] < g.size && InSync(pins)
      modifies `view, `pins, dev
      ensures view == old(view)[block[tail] := old(view)[g.logStart + tail + 1]]
      ensures dev.trace == Then(old(dev.trace), block[tail], old(view)[g.logStart + tail + 1])
      ensures pins == if recovering then old(pins) else old(pins) - {block[tail]}
      ensures InSync(pins)
    {
      CopyOut(g.logStart + tail + 1, block[tail]);
      if !recovering {
        pins := pins - {block[tail]};
      }
    }

    /** install_trans: copy each log slot to its home block; unpin when not recovering. */
    method InstallTrans(recovering: bool, ghost contents: seq<Block>)
      requires Valid() && InSync(pins) && pins == if recovering then {} else Blocks(Pending())
      requires recovering || Distinct(Pending())
      requires |contents| == n && forall i :: 0 <= i < n ==> view[g.logStart + 1 + i] == contents[i]
      modifies `view, `pins, dev
      ensures Valid()
      ensures dev.trace == InstallTrace(old(dev.trace), Pending(), contents, n)
      ensures view == InstallView(old(view), Pending(), contents, n)
      ensures pins == {} && InSync(pins)
    {
      ghost var log := Pending();
      assert log[0..] == log;
      for tail := 0 to n
        invariant |view| == |dev.sectors| == g.size
        invariant dev.trace == InstallTrace(old(dev.trace), log, contents, tail)
        invariant view == InstallView(old(view), log, contents, tail)
        invariant InSync(pins) && pins == if recovering then {} else Blocks(log[tail..])
      {
        assert IsHome(g, log[tail]);
        InstallViewFrame(g, old(view), log, contents, tail, g.logStart + tail + 1);
        if !recovering {
          Unpin(log, tail);
        }
        InstallOne(tail, recovering);
      }
      InstallViewFrame(g, old(view), log, contents, n, g.logStart);
    }

    /** The common tail of commit and recovery: install, then erase the header. */
    method Finish(recovering: bool, ghost contents: seq<Block>)
      requires Valid() && InSync(pins) && pins == if recovering then {} else Blocks(Pending())
      requires recovering || Distinct(Pending())
      requires |contents| == n && forall i :: 0 <= i < n ==> view[g.logStart + 1 + i] == contents[i]
      modifies `view, `n, `pins, dev
      ensures Valid() && n == 0 && InSync({}) && GoodDisk(g, view) && Header(g, view) == []
      ensures dev.trace == Then(InstallTrace(old(dev.trace), old(Pending()), contents, old(n)),
                                g.logStart, HeadBlock(old(view)[g.logStart], []))
      ensures view == InstallView(old(view), old(Pending()), contents, old(n))
                        [g.logStart := HeadBlock(old(view)[g.logStart], [])]
      ensures pins == {}
    {
      InstallTrans(recovering, contents);
      InstallViewFrame(g, old(view), Pending(), contents, n, g.logStart);
      n := 0;
      WriteHead();
      EmptyHead(g, view, old(view)[g.logStart]);
    }

    /** write_log and write_head: everything up to and including the commit point. */
    method WriteTransaction()
      requires Settled()
      modifies `view, dev
      ensures Valid() && InSync(pins)
      ensures dev.trace == Then(LogTrace(old(dev.trace), g, Gather(old(view), Pending()), n),
                                g.logStart, HeadBlock(old(view)[g.logStart], Pending()))
      ensures view == LogView(old(view), g, Gather(old(view), Pending()), n)
                        [g.logStart := HeadBlock(old(view)[g.logStart], Pending())]
    {
      WriteLog();
      LogViewAt(old(view), g, Gather(old(view), Pending()), n, g.logStart);
      WriteHead();
    }

    /** commit: exactly the sector writes that CrashAtomicity speaks about. */
    method Commit()
      requires Settled()
      modifies `view, `n, `pins, dev
      ensures Settled() && n == 0
      ensures dev.trace == if old(n) > 0 then CommitHistory(old(dev.trace), g, old(view), old(Pending()))
                           else old(dev.trace)
      ensures forall b :: IsHome(g, b) ==> view[b] == old(view)[b]
    {
      if n > 0 {
        CommitViews(g, view, Pending());
        ghost var contents := Gather(view, Pending());
        WriteTransaction();
        Finish(false, contents);
        SyncedDisk(g, view, dev.sectors);
      }
    }

    /** read_head: load the header block into memory. */
    method ReadHead()
      requires GoodDisk(g, view) && |block| == LOGBLOCKS
      modifies `n, `block
      ensures |block| == LOGBLOCKS && n <= LOGBLOCKS && Pending() == Header(g, view)
    {
      var words := view[g.logStart].lo.words;
      n := words[0];
      for i := 0 to n
        invariant n == words[0] && |block| == LOGBLOCKS
        invariant forall j :: 0 <= j < i ==> block[j] == words[1 + j]
      {
        block := block[i := words[1 + i]];
      }
      assert Pending() == words[1..1 + n];
    }

    /** recover_from_log, on a freshly booted machine. */
    method RecoverFromLog()
      requires GoodDisk(g, view) && |block| == LOGBLOCKS && view == dev.sectors && pins == {}
      modifies `view, `n, `block, `pins, dev
      ensures Valid() && n == 0 && view == dev.sectors && pins == {}
      ensures GoodDisk(g, view) && Header(g, view) == []
      ensures dev.trace == RecoveryHistory(old(dev.trace), g, old(view))
      ensures forall b :: IsHome(g, b) ==> view[b] == Look(g, old(view), b)
    {
      ReadHead();
      Finish(true, LogSlots(g, view));
      RecoveredViews(g, old(view));
    }

    /** One pass of begin_op's loop: whether the caller is admitted, rather than put to sleep. */
    method BeginOp() returns (admitted: bool)
      requires Settled()
      modifies `outstanding
      ensures admitted == Admits(Pending(), old(outstanding), committing)
      ensures outstanding == old(outstanding) + if admitted then 1 else 0
    {
      if committing {
        admitted := false;
      } else if n + (outstanding + 1) * MAXOPBLOCKS > LOGBLOCKS {
        admitted := false;
      } else {
        outstanding := outstanding + 1;
        admitted := true;
      }
    }

    /** end_op: the last call out commits. */
    method EndOp() returns (committed: bool)
      requires Settled() && outstanding > 0 && !committing
      modifies `outstanding, `committing, `view, `n, `pins, dev
      ensures Settled() && !committing && outstanding == old(outstanding) - 1
      ensures committed == (outstanding == 0)
      ensures !committed ==> view == old(view) && n == old(n) && pins == old(pins)
                             && dev.sectors == old(dev.sectors) && dev.trace == old(dev.trace)
      ensures committed ==>
                n == 0 && pins == {} && forall b :: IsHome(g, b) ==> dev.sectors[b] == view[b] == old(view)[b]
    {
      outstanding := outstanding - 1;
      committed := false;
      if outstanding == 0 {
        committed := true;
        committing := true;
        Commit();
        committing := false;
      }
    }

    /** log_write on a buffer the caller has filled with data. */
    method LogWrite(b: nat, data: Block) returns (outcome: Outcome)
      requires Settled() && IsHome(g, b) && b < g.size
      modifies `view, `n, `block, `pins
      ensures outcome == LogOutcome(old(Pending()), outstanding)
      ensures outcome == Logged ==> Settled() && view == old(view)[b := data]
                                    && Pending() == Absorb(old(Pending()), b)
    {
      if n >= LOGBLOCKS {
        return TooBig;
      }
      if outstanding < 1 {
        return OutsideTransaction;
      }
      ghost var log := Pending();
      view := view[b := data];
      var i := 0;
      while i < n && block[i] != b
        invariant 0 <= i <= n && b !in block[..i]
      {
        i := i + 1;
      }
      assert i < n <==> b in log;
      block := block[i := b];
      if i == n {
        pins := pins + {b};
        n := n + 1;
      }
      AbsorbKeeps(g, log, b);
      assert Pending() == Absorb(log, b);
      return Logged;
    }
  }

  lemma AbsorbKeeps(g: Geometry, lh: seq<int>, b: int)
    requires GoodList(g, lh) && |lh| < LOGBLOCKS && IsHome(g, b)
    requires Distinct(lh)
    ensures GoodList(g, Absorb(lh, b)) && Distinct(Absorb(lh, b))
    ensures Blocks(Absorb(lh, b)) == Blocks(lh) + {b}
  {
  }

  /** The block writes of commit are, sector by sector, the writes whose every prefix
      CrashAtomicity covers. */
  lemma CommitCommands(t: Trace, g: Geometry, v: Image, bl: seq<int>)
    requires Shape(g, v) && GoodList(g, bl)
    ensures Commands(CommitHistory(t, g, v, bl)) == Commands(t) + CommitWrites(g, v, bl)
  {
    hide LogTrace, InstallTrace, LogWrites, InstallWrites;
    var contents := Gather(v, bl);
    var h := HeadBlock(v[g.logStart], bl);
    var logged := Then(LogTrace(t, g, contents, |bl|), g.logStart, h);
    LogCommands(t, g, contents, |bl|);
    InstallCommands(logged, bl, contents, |bl|);
    assert contents[..|bl|] == contents && bl[..|bl|] == bl;
    Regroup(Commands(t), LogWrites(g, contents), BlockWrites(g.logStart, h),
            InstallWrites(bl, contents), BlockWrites(g.logStart, HeadBlock(h, [])));
  }

  lemma RecoveryCommands(t: Trace, g: Geometry, d: Image)
    requires GoodDisk(g, d)
    ensures Commands(RecoveryHistory(t, g, d)) == Commands(t) + RecoveryWrites(g, d)
  {
    var bl, contents := Header(g, d), LogSlots(g, d);
    InstallCommands(t, bl, contents, |bl|);
    assert contents[..|bl|] == contents && bl[..|bl|] == bl;
  }

  lemma {:induction false} LogCommands(t: Trace, g: Geometry, contents: seq<Block>, i: nat)
    requires i <= |contents|
    ensures Commands(LogTrace(t, g, contents, i)) == Commands(t) + LogWrites(g, contents[..i])
    decreases i
  {
    if i > 0 {
      LogCommands(t, g, contents, i - 1);
      assert contents[..i][..i - 1] == contents[..i - 1];
    }
  }

  lemma {:induction false} InstallCommands(t: Trace, bl: seq<int>, contents: seq<Block>, i: nat)
    requires i <= |bl| == |contents|
    ensures Commands(InstallTrace(t, bl, contents, i)) == Commands(t) + InstallWrites(bl[..i], contents[..i])
    decreases i
  {
    if i > 0 {
      InstallCommands(t, bl, contents, i - 1);
      assert contents[..i][..i - 1] == contents[..i - 1] && bl[..i][..i - 1] == bl[..i - 1];
    }
  }

  lemma Regroup<T>(p: seq<T>, a: seq<T>, b: seq<T>, c: seq<T>, d: seq<T>)
    ensures p + a + b + c + d == p + (a + (b + (c + d)))
  {
  }

  /** Each slot holds exactly one pin, because absorption keeps the slots distinct. */
  lemma Unpin(bl: seq<int>, i: nat)
    requires i < |bl| && Distinct(bl)
    ensures bl[i] in Blocks(bl[i..]) && Blocks(bl[i + 1..]) == Blocks(bl[i..]) - {bl[i]}
  {
    assert bl[i..][0] == bl[i];
    assert bl[i..] == [bl[i]] + bl[i + 1..];
    assert bl[i] !in bl[i + 1..];
  }

  lemma InLogNotHome(g: Geometry, bl: seq<int>, b: int)
    requires GoodList(g, bl) && !IsHome(g, b)
    ensures b !in bl
  {
  }

  lemma {:induction false} LogViewAt(v: Image, g: Geometry, contents: seq<Block>, i: nat, b: int)
    requires i <= |contents| && g.logStart + |contents| < |v| && 0 <= b < |v|
    ensures LogView(v, g, contents, i)[b]
            == if g.logStart < b <= g.logStart + i then contents[b - g.logStart - 1] else v[b]
    decreases i
  {
    if i > 0 {
      LogViewAt(v, g, contents, i - 1, b);
    }
  }

  lemma {:induction false} InstallViewAt(v: Image, bl: seq<int>, contents: seq<Block>, i: nat, b: int)
    requires i <= |bl| == |contents| && forall j :: 0 <= j < |bl| ==> 0 <= bl[j] < |v|
    requires 0 <= b < |v|
    ensures InstallView(v, bl, contents, i)[b]
            == if b in bl[..i] then contents[SlotOf(bl[..i], b)] else v[b]
    decreases i
  {
    if i > 0 {
      InstallViewAt(v, bl, contents, i - 1, b);
      assert bl[..i][..i - 1] == bl[..i - 1];
      assert bl[..i] == bl[..i - 1] + [bl[i - 1]];
    }
  }

  lemma InstallViewFrame(g: Geometry, v: Image, bl: seq<int>, contents: seq<Block>, i: nat, b: int)
    requires GoodList(g, bl) && i <= |bl| == |contents| && |v| == g.size && 0 <= b < |v| && !IsHome(g, b)
    ensures InstallView(v, bl, contents, i)[b] == v[b]
  {
    InstallViewAt(v, bl, contents, i, b);
    InLogNotHome(g, bl[..i], b);
  }

  /** What the stages of commit leave in the cache. */
  lemma CommitViews(g: Geometry, v: Image, bl: seq<int>)
    requires Shape(g, v) && GoodList(g, bl)
    ensures var contents := Gather(v, bl);
            var v1 := LogView(v, g, contents, |bl|);
            var v2 := v1[g.logStart := HeadBlock(v[g.logStart], bl)];
            && v1[g.logStart] == v[g.logStart]
            && (forall i :: 0 <= i < |bl| ==> v2[g.logStart + 1 + i] == contents[i])
            && forall b :: IsHome(g, b) ==> InstallView(v2, bl, contents, |bl|)[b] == v[b]
  {
    var contents := Gather(v, bl);
    var v1 := LogView(v, g, contents, |bl|);
    var v2 := v1[g.logStart := HeadBlock(v[g.logStart], bl)];
    forall b | 0 <= b < |v|
      ensures v1[b] == if g.logStart < b <= g.logStart + |bl| then contents[b - g.logStart - 1] else v[b]
    {
      LogViewAt(v, g, contents, |bl|, b);
    }
    assert bl[..|bl|] == bl;
    forall b | IsHome(g, b) ensures InstallView(v2, bl, contents, |bl|)[b] == v[b] {
      InstallViewAt(v2, bl, contents, |bl|, b);
    }
  }

  lemma RecoveredViews(g: Geometry, v: Image)
    requires GoodDisk(g, v)
    ensures forall b :: IsHome(g, b) ==>
              InstallView(v, Header(g, v), LogSlots(g, v), HeaderN(g, v))[b] == Look(g, v, b)
  {
    var bl := Header(g, v);
    assert bl[..|bl|] == bl;
    forall b | IsHome(g, b) ensures InstallView(v, bl, LogSlots(g, v), |bl|)[b] == Look(g, v, b) {
      InstallViewAt(v, bl, LogSlots(g, v), |bl|, b);
    }
  }

  lemma SyncedDisk(g: Geometry, v: Image, d: Image)
    requires GoodDisk(g, v) && Header(g, v) == [] && |d| == |v| && forall b :: 0 <= b < |v| ==> v[b] == d[b]
    ensures v == d && GoodDisk(g, d) && Header(g, d) == []
  {
  }

  lemma EmptyHead(g: Geometry, d: Image, prev: Block)
    requires g.logStart + LOGBLOCKS < g.size == |d| && |prev.lo.words| == SECTOR_WORDS
    requires d[g.logStart] == HeadBlock(prev, [])
    ensures GoodDisk(g, d) && Header(g, d) == []
  {
  }
}
