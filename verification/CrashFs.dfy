/**
 * Files and the log together: a run of file operations, each in its own transaction, that loses power
 * after any sector write leaves a disk that stands for the file system after a prefix of the run.
 *
 * `enc` is how a state of the file system is laid out in blocks. Nothing is asked of it but that a
 * block depends only on the inodes, free-map bits or data stored in it.
 */
module CrashFs {
  import opened Base
  import opened Disk
  import opened RedoLog
  import opened FsBytes
  import opened FsState
  import opened Fs
  import opened FsSafe
  import opened FlatFiles
  import FileIO
  import FsRuns

  /** What is stored in block `b` is the same in both states. */
  ghost predicate SamePart(l: Layout, st: State, st': State, b: int) {
    && (l.inodeStart <= b < l.bmapStart ==>
          && |st.inodes| == |st'.inodes|
          && forall i: nat :: i < |st.inodes| && i / IPB + l.inodeStart == b ==> st.inodes[i] == st'.inodes[i])
    && (l.bmapStart <= b < l.nmeta ==>
          forall c: nat :: c / BPB + l.bmapStart == b ==> InUse(st, c) == InUse(st', c))
    && (l.nmeta <= b < l.size ==> b < |st.data| && b < |st'.data| && st.data[b] == st'.data[b])
  }

  ghost predicate Local(l: Layout, enc: (State, int) -> Block) {
    forall st, st', b :: SamePart(l, st, st', b) ==> enc(st, b) == enc(st', b)
  }

  /** The home blocks of the disk are the layout of the state. */
  ghost predicate StandsFor(g: Geometry, d: Image, enc: (State, int) -> Block, st: State) {
    forall b :: IsHome(g, b) ==> b < |d| && d[b] == enc(st, b)
  }

  /** Recovering the disk would give the layout of the state. */
  ghost predicate Holds(g: Geometry, d: Image, enc: (State, int) -> Block, st: State) {
    GoodDisk(g, d) && forall b :: IsHome(g, b) ==> Look(g, d, b) == enc(st, b)
  }

  /** The file system's metadata and data lie behind the log, in this order. */
  ghost predicate LaidOut(l: Layout, g: Geometry, ninodes: nat) {
    && g.logStart + LOGBLOCKS < l.inodeStart && l.inodeStart + ninodes / IPB < l.bmapStart
    && l.bmapStart + MapSize(l) <= l.nmeta <= l.size == g.size
  }

  /** A commit: the cache and the list of blocks in the header. */
  datatype Commit = Commit(view: Image, bl: seq<int>)

  /** The commit of a transaction that logged these blocks on the way to state st: each block is listed
      once and the cache holds its new contents. */
  ghost predicate IsCommit(g: Geometry, enc: (State, int) -> Block, st: State, logged: set<nat>, c: Commit) {
    && Shape(g, c.view) && (forall i, j :: 0 <= i < j < |c.bl| ==> c.bl[i] != c.bl[j])
    && (forall b :: b in c.bl ==> b >= 0) && (forall b: nat :: b in c.bl <==> b in logged)
    && forall b :: b in c.bl && b < |c.view| ==> c.view[b] == enc(st, b)
  }

  /** Every block that a step changes is among those it logged. */
  lemma ChangesAreLogged(l: Layout, st: State, st': State, logged: set<nat>, b: nat)
    requires FsRuns.ChangesLogged(l, st, st', logged) && b !in logged && l.size <= |st.data|
    ensures SamePart(l, st, st', b)
  {
    hide Bit;
  }

  /** A list without repetitions is no longer than the set of its members. */
  lemma {:induction false} ListBound(bl: seq<int>, logged: set<nat>)
    requires forall i, j :: 0 <= i < j < |bl| ==> bl[i] != bl[j]
    requires forall b :: b in bl ==> b >= 0 && b in logged
    ensures |bl| <= |logged|
    decreases |bl|
  {
    if |bl| > 0 {
      var n := |bl| - 1;
      assert bl[n] in bl;
      var last: nat := bl[n];
      forall b | b in bl[..n] ensures b >= 0 && b in logged - {last} {
        var i :| 0 <= i < n && bl[i] == b;
        assert bl[i] in bl;
      }
      ListBound(bl[..n], logged - {last});
    }
  }

  /** The blocks of a transaction fit the header and none of them lies in the log. */
  lemma CommitIsGood(l: Layout, g: Geometry, enc: (State, int) -> Block, st: State, ninodes: nat, logged: set<nat>,
                     c: Commit)
    requires LaidOut(l, g, ninodes) && FsRuns.LoggedInPlace(l, ninodes, logged) && |logged| <= LOGBLOCKS
    requires IsCommit(g, enc, st, logged, c)
    ensures GoodList(g, c.bl)
  {
    ListBound(c.bl, logged);
    forall i | 0 <= i < |c.bl| ensures IsHome(g, c.bl[i]) {
      assert c.bl[i] in c.bl;
      var b: nat := c.bl[i];
    }
  }

  /** One transaction cut off after any sector of its commit has happened completely or not at all. */
  lemma CrashedStep(l: Layout, g: Geometry, enc: (State, int) -> Block, st: State, st': State, logged: set<nat>,
                    d: Image,
                    c: Commit, k: nat)
    requires Local(l, enc) && l.size <= |st.data| && FsRuns.ChangesLogged(l, st, st', logged)
    requires Holds(g, d, enc, st) && Header(g, d) == [] && IsCommit(g, enc, st', logged, c) && GoodList(g, c.bl)
    requires k <= |CommitWrites(g, c.view, c.bl)|
    ensures var e := PutAll(d, CommitWrites(g, c.view, c.bl)[..k]);
            && Holds(g, e, enc, if k <= 2 * |c.bl| then st else st')
            && (k == |CommitWrites(g, c.view, c.bl)| ==> Header(g, e) == [])
  {
    CommitPrefix(g, d, c.view, c.bl, k);
    hide CommitWrites, PutAll, SamePart, FsRuns.ChangesLogged;
    var e := PutAll(d, CommitWrites(g, c.view, c.bl)[..k]);
    forall b | IsHome(g, b) ensures Look(g, e, b) == enc(if k <= 2 * |c.bl| then st else st', b) {
      assert Look(g, d, b) == d[b];
      if k > 2 * |c.bl| && b !in c.bl {
        ChangesAreLogged(l, st, st', logged, b);
      }
    }
  }

  /** A transaction that logged nothing changes nothing on the disk. */
  lemma QuietStep(l: Layout, g: Geometry, enc: (State, int) -> Block, st: State, st': State, d: Image)
    requires Local(l, enc) && l.size <= |st.data| && FsRuns.ChangesLogged(l, st, st', {}) && Holds(g, d, enc, st)
    ensures Holds(g, d, enc, st')
  {
    hide SamePart, FsRuns.ChangesLogged;
    forall b | IsHome(g, b) ensures enc(st, b) == enc(st', b) {
      ChangesAreLogged(l, st, st', {}, b);
    }
  }

  // ---------------------------------------------------------------------
  // Whole runs

  /** The sectors that end_op writes for a commit: none if nothing was logged. */
  ghost function Sectors(g: Geometry, c: Commit): seq<SectorWrite>
    requires Shape(g, c.view) && GoodList(g, c.bl)
  {
    if c.bl == [] then [] else CommitWrites(g, c.view, c.bl)
  }

  ghost predicate GoodCommits(g: Geometry, cs: seq<Commit>) {
    forall k :: 0 <= k < |cs| ==> Shape(g, cs[k].view) && GoodList(g, cs[k].bl)
  }

  /** All sectors of a run, in order. */
  ghost function AllSectors(g: Geometry, cs: seq<Commit>): seq<SectorWrite>
    requires GoodCommits(g, cs)
  {
    if |cs| == 0 then [] else Sectors(g, cs[0]) + AllSectors(g, cs[1..])
  }

  /** How many operations are durable once n sectors have been written: those whose header has reached
      the disk. */
  ghost function Durable(g: Geometry, cs: seq<Commit>, n: nat): (r: nat)
    requires GoodCommits(g, cs)
    ensures r <= |cs|
  {
    if |cs| == 0 then 0
    else
      var w := |Sectors(g, cs[0])|;
      if n < w then (if n <= 2 * |cs[0].bl| then 0 else 1) else 1 + Durable(g, cs[1..], n - w)
  }

  /** The states of a run, the blocks logged on the way to each, and the commits that write them. */
  ghost predicate Logged(l: Layout, g: Geometry, enc: (State, int) -> Block, sts: seq<State>, logs: seq<set<nat>>,
                         cs: seq<Commit>)
  {
    && |sts| == |logs| + 1 == |cs| + 1 && GoodCommits(g, cs)
    && forall k :: 0 <= k < |cs| ==>
         && l.size <= |sts[k].data| && FsRuns.ChangesLogged(l, sts[k], sts[k + 1], logs[k])
         && IsCommit(g, enc, sts[k + 1], logs[k], cs[k])
  }

  /** Power lost after n sectors of a run: the disk holds the state after the durable operations. */
  lemma {:induction false} CrashedRun(l: Layout, g: Geometry, enc: (State, int) -> Block, d: Image, sts: seq<State>,
                                      logs: seq<set<nat>>, cs: seq<Commit>, n: nat)
    requires Local(l, enc) && Logged(l, g, enc, sts, logs, cs) && Holds(g, d, enc, sts[0]) && Header(g, d) == []
    requires n <= |AllSectors(g, cs)|
    ensures Holds(g, PutAll(d, AllSectors(g, cs)[..n]), enc, sts[Durable(g, cs, n)])
    decreases |cs|
  {
    hide Local, Holds, IsCommit, CommitWrites, FsRuns.ChangesLogged;
    if |cs| == 0 {
      assert AllSectors(g, cs)[..n] == [];
    } else {
      var ws := Sectors(g, cs[0]);
      PutAllPrefix(d, ws, AllSectors(g, cs[1..]), n);
      FirstStep(l, g, enc, sts[0], sts[1], logs[0], d, cs[0], if n < |ws| then n else |ws|);
      assert ws[..|ws|] == ws;
      if n >= |ws| {
        LoggedRest(l, g, enc, sts, logs, cs);
        var rest := AllSectors(g, cs[1..]);
        CrashedRun(l, g, enc, PutAll(d, ws), sts[1..], logs[1..], cs[1..], n - |ws|);
        assert n == |ws| ==> rest[..n - |ws|] == [];
      }
    }
  }

  lemma LoggedRest(l: Layout, g: Geometry, enc: (State, int) -> Block, sts: seq<State>, logs: seq<set<nat>>,
                   cs: seq<Commit>)
    requires Logged(l, g, enc, sts, logs, cs) && |cs| > 0
    ensures Logged(l, g, enc, sts[1..], logs[1..], cs[1..])
  {
    hide IsCommit, FsRuns.ChangesLogged;
  }

  lemma FirstStep(l: Layout, g: Geometry, enc: (State, int) -> Block, st: State, st': State, logged: set<nat>, d: Image,
                  c: Commit, k: nat)
    requires Local(l, enc) && l.size <= |st.data| && FsRuns.ChangesLogged(l, st, st', logged)
    requires Holds(g, d, enc, st) && Header(g, d) == [] && IsCommit(g, enc, st', logged, c) && GoodList(g, c.bl)
    requires k <= |Sectors(g, c)|
    ensures var e := PutAll(d, Sectors(g, c)[..k]);
            && GoodDisk(g, e)
            && Holds(g, e, enc, if k < |Sectors(g, c)| && k <= 2 * |c.bl| then st else st')
            && (k == |Sectors(g, c)| ==> Header(g, e) == [])
  {
    if c.bl == [] {
      assert logged == {};
      QuietStep(l, g, enc, st, st', d);
      assert Sectors(g, c)[..k] == [];
    } else {
      CrashedStep(l, g, enc, st, st', logged, d, c, k);
    }
  }

  /** What recovery makes of a disk that holds a state, however often it is itself interrupted. */
  lemma HeldIsRecovered(g: Geometry, d: Image, enc: (State, int) -> Block, st: State, cuts: seq<nat>)
    requires Holds(g, d, enc, st)
    ensures GoodDisk(g, Reboots(g, d, cuts)) && StandsFor(g, Recovered(g, Reboots(g, d, cuts)), enc, st)
  {
    RebootsRecover(g, d, cuts);
  }

  /** The operation fits one transaction. */
  predicate OneTransaction(l: Layout, op: Op) {
    FsRuns.OpCost(l, op) <= FileIO.MAXOPBLOCKS
  }

  /** filewrite's chunks are such operations, and so is everything else on a disk of up to nine
      free-map blocks. */
  lemma ChunksAreTransactions(l: Layout, op: Op)
    requires if op.WriteOp? then |op.s| <= FileIO.MAXCHUNK else MapSize(l) < FileIO.MAXOPBLOCKS
    ensures OneTransaction(l, op)
  {
    if op.WriteOp? {
      FileIO.ChunkFitsReservation(op.off, |op.s|);
    }
  }

  /** So a filewrite cut off by a power failure has written a prefix of its chunks. */
  lemma FileWriteInTransactions(l: Layout, i: nat, off: nat, s: seq<nat>, avail: nat, ops: seq<Op>)
    requires FileIO.Chunks(i, off, s, avail, ops)
    ensures forall k :: 0 <= k < |ops| ==> OneTransaction(l, ops[k])
  {
    forall k | 0 <= k < |ops| ensures OneTransaction(l, ops[k]) {
      assert FileIO.IsChunk(i, off, s, avail, ops[k], k);
      ChunksAreTransactions(l, ops[k]);
    }
  }

  /** What the stops of a run have committed. */
  function TrailStates(trail: seq<FsRuns.Stop>): (r: seq<State>)
    ensures |r| == |trail| && forall k :: 0 <= k < |r| ==> r[k] == Saved(trail[k].st, trail[k].safe)
  {
    seq(|trail|, k requires 0 <= k < |trail| => Saved(trail[k].st, trail[k].safe))
  }

  function TrailLogs(trail: seq<FsRuns.Stop>): (r: seq<set<nat>>)
    requires |trail| > 0
    ensures |r| == |trail| - 1 && forall k :: 0 <= k < |r| ==> r[k] == trail[k + 1].logged
  {
    seq(|trail| - 1, k requires 0 <= k < |trail| - 1 => trail[k + 1].logged)
  }

  /** The commits of a run: one for each operation. */
  ghost predicate CommitsOf(g: Geometry, enc: (State, int) -> Block, trail: seq<FsRuns.Stop>, cs: seq<Commit>) {
    && |trail| == |cs| + 1
    && forall k :: 0 <= k < |cs| ==> IsCommit(g, enc, trail[k + 1].st, trail[k + 1].logged, cs[k])
  }

  lemma {:induction false} SameCount(l: Layout, trail: seq<FsRuns.Stop>, ops: seq<Op>,
                                     outs: seq<Outcome>, k: nat)
    requires FsRuns.IsTrail(l, trail, ops, outs) && k < |trail|
    requires forall j :: 0 <= j < |ops| ==> OneTransaction(l, ops[j])
    ensures |trail[k].st.inodes| == |trail[0].st.inodes|
  {
    hide FlatStep, FsRuns.LoggedInPlace, FsRuns.OpCost, FsRuns.StopOk, Recorded, FlatWrote, DiskFull;
    if k > 0 {
      SameCount(l, trail, ops, outs, k - 1);
      assert FsRuns.StepOk(l, trail[k - 1], ops[k - 1], outs[k - 1], trail[k]) && OneTransaction(l, ops[k - 1]);
    }
  }

  /** The cache has of every logged block what is committed. */
  lemma CommitsSaved(l: Layout, g: Geometry, enc: (State, int) -> Block, st: State, safe: seq<Bytes>, logged: set<nat>,
                     c: Commit)
    requires Local(l, enc) && IsCommit(g, enc, st, logged, c) && l.size <= |safe| == |st.data|
    requires forall b: nat :: b in logged && b < |safe| ==> safe[b] == st.data[b]
    ensures IsCommit(g, enc, Saved(st, safe), logged, c)
  {
    forall b | b in c.bl && b < |c.view| ensures c.view[b] == enc(Saved(st, safe), b) {
      var x: nat := b;
      assert x in logged;
      assert SamePart(l, st, Saved(st, safe), b);
    }
  }

  lemma TrailStep(l: Layout, g: Geometry, enc: (State, int) -> Block, trail: seq<FsRuns.Stop>, ops: seq<Op>,
                  outs: seq<Outcome>, cs: seq<Commit>, k: nat)
    requires Local(l, enc) && FsRuns.IsTrail(l, trail, ops, outs)
    requires forall j :: 0 <= j < |ops| ==> OneTransaction(l, ops[j])
    requires CommitsOf(g, enc, trail, cs) && LaidOut(l, g, |trail[0].st.inodes|) && k < |ops|
    ensures Shape(g, cs[k].view) && GoodList(g, cs[k].bl) && l.size <= |trail[k].safe|
    ensures FsRuns.ChangesLogged(l, Saved(trail[k].st, trail[k].safe), Saved(trail[k + 1].st, trail[k + 1].safe),
                                 trail[k + 1].logged)
    ensures IsCommit(g, enc, Saved(trail[k + 1].st, trail[k + 1].safe), trail[k + 1].logged, cs[k])
  {
    hide FlatStep, FsRuns.LoggedInPlace, FsRuns.OpCost, FsRuns.ChangesLogged, FsRuns.View, NoHoles, Empty, Ptr, Local,
         IsCommit;
    var p, q := trail[k], trail[k + 1];
    assert FsRuns.StepOk(l, p, ops[k], outs[k], q) && OneTransaction(l, ops[k]);
    assert FsRuns.StopOk(l, p) && FsRuns.StopOk(l, q);
    OwnedShape(l, p.st, p.owner);
    OwnedShape(l, q.st, q.owner);
    SameCount(l, trail, ops, outs, k);
    assert IsCommit(g, enc, q.st, q.logged, cs[k]);
    CommitIsGood(l, g, enc, q.st, |p.st.inodes|, q.logged, cs[k]);
    CommitsSaved(l, g, enc, q.st, q.safe, q.logged, cs[k]);
    assert Shape(g, cs[k].view) by { CommitShape(g, enc, q.st, q.logged, cs[k]); }
  }

  lemma CommitShape(g: Geometry, enc: (State, int) -> Block, st: State, logged: set<nat>, c: Commit)
    requires IsCommit(g, enc, st, logged, c)
    ensures Shape(g, c.view)
  {
  }

  lemma TrailLogged(l: Layout, g: Geometry, enc: (State, int) -> Block, trail: seq<FsRuns.Stop>, ops: seq<Op>,
                    outs: seq<Outcome>, cs: seq<Commit>)
    requires Local(l, enc) && FsRuns.IsTrail(l, trail, ops, outs)
    requires forall j :: 0 <= j < |ops| ==> OneTransaction(l, ops[j])
    requires CommitsOf(g, enc, trail, cs) && LaidOut(l, g, |trail[0].st.inodes|)
    ensures Logged(l, g, enc, TrailStates(trail), TrailLogs(trail), cs)
  {
    hide FsRuns.IsTrail, OneTransaction, IsCommit, FsRuns.ChangesLogged, LaidOut, Local;
    assert |trail| == |ops| + 1 by { TrailLength(l, trail, ops, outs); }
    forall k | 0 <= k < |cs|
      ensures Shape(g, cs[k].view) && GoodList(g, cs[k].bl) && l.size <= |trail[k].safe|
      ensures FsRuns.ChangesLogged(l, Saved(trail[k].st, trail[k].safe), Saved(trail[k + 1].st, trail[k + 1].safe),
                                   trail[k + 1].logged)
      ensures IsCommit(g, enc, Saved(trail[k + 1].st, trail[k + 1].safe), trail[k + 1].logged, cs[k])
    {
      TrailStep(l, g, enc, trail, ops, outs, cs, k);
    }
  }

  lemma TrailLength(l: Layout, trail: seq<FsRuns.Stop>, ops: seq<Op>, outs: seq<Outcome>)
    requires FsRuns.IsTrail(l, trail, ops, outs)
    ensures |trail| == |ops| + 1 == |outs| + 1
  {
  }

  /**
   * Power is lost after any number of sectors of any run of operations, and recovery is itself
   * interrupted any number of times. The disk then stands for what was committed after a prefix of the
   * run: the operations whose header had been written. That file system is consistent, and its files
   * are the committed files of the flat file system after the same prefix.
   */
  lemma PowerFailure(l: Layout, g: Geometry, enc: (State, int) -> Block, d: Image, trail: seq<FsRuns.Stop>,
                     ops: seq<Op>, outs: seq<Outcome>, cs: seq<Commit>, n: nat, cuts: seq<nat>)
    requires Local(l, enc) && FsRuns.IsTrail(l, trail, ops, outs) && LaidOut(l, g, |trail[0].st.inodes|)
    requires forall k :: 0 <= k < |ops| ==> OneTransaction(l, ops[k])
    requires Holds(g, d, enc, Saved(trail[0].st, trail[0].safe)) && Header(g, d) == [] && CommitsOf(g, enc, trail, cs)
    requires GoodCommits(g, cs) ==> n <= |AllSectors(g, cs)|
    ensures GoodCommits(g, cs)
    ensures var p := Durable(g, cs, n);
            var e := PutAll(d, AllSectors(g, cs)[..n]);
            && p <= |ops| && GoodDisk(g, e) && GoodDisk(g, Reboots(g, e, cuts))
            && Revived(l, g, enc, trail[p], Recovered(g, Reboots(g, e, cuts)))
            && FsRuns.IsTrail(l, trail[..p + 1], ops[..p], outs[..p])
  {
    hide Local, Holds, IsCommit, CommitWrites, FsRuns.ChangesLogged, FsRuns.StepOk, FsRuns.StopOk, OneTransaction,
         LaidOut, StandsFor, Mountable;
    TrailLogged(l, g, enc, trail, ops, outs, cs);
    CrashedRun(l, g, enc, d, TrailStates(trail), TrailLogs(trail), cs, n);
    var p := Durable(g, cs, n);
    var e := PutAll(d, AllSectors(g, cs)[..n]);
    var st := Saved(trail[p].st, trail[p].safe);
    assert Holds(g, e, enc, st);
    HeldIsRecovered(g, e, enc, st, cuts);
    assert GoodDisk(g, e) by { HeldIsGood(g, e, enc, st); }
    assert FsRuns.StopOk(l, trail[p]);
    SavedStop(l, trail[p]);
  }

  /** The disk stands for what had been committed at this stop, a consistent file system. */
  ghost predicate Revived(l: Layout, g: Geometry, enc: (State, int) -> Block, p: FsRuns.Stop, d: Image) {
    var st := Saved(p.st, p.safe);
    StandsFor(g, d, enc, st) && Mountable(l, st, p.owner) && FsRuns.View(st) == p.files.safe
  }

  lemma SavedStop(l: Layout, p: FsRuns.Stop)
    requires FsRuns.StopOk(l, p)
    ensures Mountable(l, Saved(p.st, p.safe), p.owner) && FsRuns.View(Saved(p.st, p.safe)) == p.files.safe
  {
    hide Mountable, BackedBy;
    BackedMountable(l, p.st, p.safe, p.owner);
  }

  lemma HeldIsGood(g: Geometry, d: Image, enc: (State, int) -> Block, st: State)
    requires Holds(g, d, enc, st)
    ensures GoodDisk(g, d)
  {
  }

  /** The first n blocks of a cache that has the layout of st over the log's blocks of base. */
  ghost function Over(g: Geometry, enc: (State, int) -> Block, st: State, base: Image, n: nat): (r: Image)
    requires n <= |base|
    ensures |r| == n && forall b :: 0 <= b < n ==> r[b] == if IsHome(g, b) then enc(st, b) else base[b]
  {
    if n == 0 then [] else Over(g, enc, st, base, n - 1) + [if IsHome(g, n - 1) then enc(st, n - 1) else base[n - 1]]
  }

  /** Such commits exist: the logged blocks in any order, over any cache that has the log's blocks. */
  lemma SomeCommit(g: Geometry, enc: (State, int) -> Block, st: State, logged: set<nat>,
                   base: Image) returns (c: Commit)
    requires Shape(g, base) && forall b :: b in logged ==> IsHome(g, b)
    ensures IsCommit(g, enc, st, logged, c)
  {
    var view := Over(g, enc, st, base, |base|);
    var bl := InSomeOrder(logged);
    c := Commit(view, bl);
    forall b | b in c.bl && b < |c.view| ensures c.view[b] == enc(st, b) {
      var x: nat := b;
      assert x in logged;
    }
  }

  lemma {:induction false} InSomeOrder(logged: set<nat>) returns (bl: seq<int>)
    ensures forall i, j :: 0 <= i < j < |bl| ==> bl[i] != bl[j]
    ensures (forall b :: b in bl ==> b >= 0) && forall b: nat :: b in bl <==> b in logged
    decreases |logged|
  {
    if logged == {} {
      bl := [];
    } else {
      var x :| x in logged;
      bl := InSomeOrder(logged - {x});
      bl := bl + [x];
    }
  }
}
