/** mkfs from its file list to the finished image, and the kernel running on that image. */
module FirstBoot {
  import opened FsBytes
  import opened FsState
  import opened Fs
  import opened Mkfs
  import opened FsSafe
  import opened FlatFiles
  import opened CrashFs
  import opened RedoLog
  import opened Packing
  import Disk
  import FileIO
  import FsRuns
  import LogBound

  const DIRSIZ: nat := 14
  const DIRENT: nat := 2 + DIRSIZ
  const T_DIR: int := 1
  const T_FILE: int := 2
  const ROOTINO: nat := 1

  /** A file named on mkfs's command line, its name already cut down to what the image will show. */
  datatype HostFile = HostFile(name: seq<nat>, bytes: seq<nat>)

  /** struct dirent: the inode number, low byte first, and the name padded with zeroes. */
  function DirEntry(inum: nat, name: seq<nat>): (r: seq<nat>)
    requires |name| <= DIRSIZ
    ensures |r| == DIRENT
  {
    [inum % 256, inum / 256] + name + seq(DIRSIZ - |name|, _ => 0)
  }

  predicate NamesFit(files: seq<HostFile>)
  {
    forall k :: 0 <= k < |files| ==> |files[k].name| <= DIRSIZ
  }

  /** The root directory: ".", ".." and the files in order, which get inodes 2, 3, ... */
  function RootEntries(files: seq<HostFile>): (r: seq<nat>)
    requires NamesFit(files)
    ensures |r| == DIRENT * (|files| + 2)
  {
    if |files| == 0 then DirEntry(ROOTINO, ['.' as nat]) + DirEntry(ROOTINO, ['.' as nat, '.' as nat])
    else RootEntries(files[..|files| - 1]) + DirEntry(|files| + 1, files[|files| - 1].name)
  }

  /** The blocks that the files take up. */
  function FileBlocks(files: seq<HostFile>): nat
  {
    if |files| == 0 then 0 else FileBlocks(files[..|files| - 1]) + BlocksFor(|files[|files| - 1].bytes|)
  }

  /** Metadata, root directory and files together. */
  function BlocksUsed(files: seq<HostFile>): nat
  {
    NMETA + BlocksFor(DIRENT * (|files| + 2)) + FileBlocks(files)
  }

  /** The files fit: no name and no file is too long and the image has the blocks for all of them. */
  predicate Fits(files: seq<HostFile>)
  {
    && NamesFit(files) && (forall k :: 0 <= k < |files| ==> |files[k].bytes| <= MAXFILE * BSIZE)
    && BlocksUsed(files) <= FSSIZE
  }

  lemma {:induction false} FitsPrefix(files: seq<HostFile>, n: nat)
    requires n <= |files|
    ensures BlocksUsed(files[..n]) <= BlocksUsed(files)
    ensures Fits(files) ==> Fits(files[..n])
    decreases |files| - n
  {
    if n == |files| {
      assert files[..n] == files;
    } else {
      assert files[..n + 1][..n] == files[..n];
      FitsPrefix(files, n + 1);
    }
  }

  /** The image under construction holds the root directory and the files so far. */
  ghost predicate HoldsFiles(st: State, files: seq<HostFile>)
    requires NamesFit(files)
  {
    && |files| + 2 <= |st.inodes| && st.inodes[ROOTINO].typ == T_DIR
    && Content(st, ROOTINO) == RootEntries(files)
    && forall k: nat :: k < |files| ==> HoldsFile(st, k + 2, files[k])
  }

  ghost predicate HoldsFile(st: State, i: nat, file: HostFile)
  {
    i < |st.inodes| && st.inodes[i].typ == T_FILE && Content(st, i) == file.bytes
  }

  lemma AppendedTwice(a: State, b: State, c: State, i: nat, x: seq<nat>, y: seq<nat>)
    requires Appended(a, b, i, x) && Appended(b, c, i, y)
    ensures Appended(a, c, i, x + y)
  {
    hide Content;
    assert Content(a, i) + x + y == Content(a, i) + (x + y);
  }

  lemma AppendedNothing(st: State, i: nat)
    requires i < |st.inodes|
    ensures Appended(st, st, i, [])
  {
    assert Content(st, i) + [] == Content(st, i);
  }

  /** mkfs's loop over one host file: a block's worth of bytes at a time. */
  method AppendFile(img: Image, inum: nat, bytes: seq<nat>) returns (ok: bool)
    requires img.Valid() && 0 < inum < img.freeinode && img.inodes[inum].size == 0
    modifies img
    ensures ok <==> |bytes| <= MAXFILE * BSIZE && old(img.freeblock) + BlocksFor(|bytes|) <= FSSIZE
    ensures ok ==> img.Valid() && img.freeinode == old(img.freeinode) && Appended(old(img.St()), img.St(), inum, bytes)
    ensures ok ==> img.freeblock == old(img.freeblock) + BlocksFor(|bytes|)
  {
    hide Building, Tidy, Appended, BlocksFor;
    ghost var st0 := img.St();
    assert BlocksFor(0) == 0 by { BlocksForNone(); }
    BuildingShape(ImageLayout(), st0, img.owner, img.freeblock);
    AppendedNothing(st0, inum);
    var done := 0;
    assert bytes[..0] == [];
    while done < |bytes|
      invariant done <= |bytes| && img.Valid() && img.freeinode == old(img.freeinode)
      invariant Appended(st0, img.St(), inum, bytes[..done]) && img.inodes[inum].size == done <= MAXFILE * BSIZE
      invariant img.freeblock == old(img.freeblock) + BlocksFor(done) <= FSSIZE
    {
      var cc := Min(|bytes| - done, BSIZE);
      ghost var st1 := img.St();
      var fits := img.IAppend(inum, bytes[done..done + cc]);
      BlocksForGrows(done + cc, |bytes|);
      if !fits {
        return false;
      }
      AppendedTwice(st0, st1, img.St(), inum, bytes[..done], bytes[done..done + cc]);
      AppendedShape(st1, img.St(), inum, bytes[done..done + cc]);
      BuildingShape(ImageLayout(), img.St(), img.owner, img.freeblock);
      assert bytes[..done] + bytes[done..done + cc] == bytes[..done + cc];
      done := done + cc;
    }
    assert bytes[..done] == bytes;
    ok := true;
  }

  lemma BlocksForNone()
    ensures BlocksFor(0) == 0
  {
  }

  lemma BlocksForGrows(m: nat, n: nat)
    requires m <= n
    ensures BlocksFor(m) <= BlocksFor(n)
  {
  }

  /** One round of mkfs's loop over its arguments. */
  method AddFile(img: Image, file: HostFile, ghost files: seq<HostFile>) returns (ok: bool)
    requires img.Valid() && img.freeinode == |files| + 2 < NINODES && NamesFit(files) && HoldsFiles(img.St(), files)
    requires img.freeblock == BlocksUsed(files)
    modifies img
    ensures ok <==> && |file.name| <= DIRSIZ && |file.bytes| <= MAXFILE * BSIZE
                    && BlocksUsed(files + [file]) <= FSSIZE
    ensures ok ==> && img.Valid() && img.freeinode == |files| + 3 && HoldsFiles(img.St(), files + [file])
                   && img.freeblock == BlocksUsed(files + [file])
  {
    hide Building, Tidy, Appended, Content, BlocksFor;
    assert (files + [file])[..|files|] == files;
    if |file.name| > DIRSIZ {
      return false;
    }
    ghost var st0 := img.St();
    var inum := img.IAlloc(T_FILE);
    ghost var st1 := img.St();
    assert inum == |files| + 2;
    assert |Content(st1, ROOTINO)| == img.inodes[ROOTINO].size;
    var entry := DirEntry(inum, file.name);
    assert img.inodes[ROOTINO].size == DIRENT * (|files| + 2);
    ok := img.IAppend(ROOTINO, entry);
    if !ok {
      return;
    }
    ghost var st2 := img.St();
    AppendedShape(st1, st2, ROOTINO, entry);
    assert BlocksFor(0) == 0 by { BlocksForNone(); }
    ok := AppendFile(img, inum, file.bytes);
    if ok {
      AddedFile(st0, st1, st2, img.St(), files, file);
    }
  }

  lemma AddedFile(st0: State, st1: State, st2: State, st3: State, files: seq<HostFile>, file: HostFile)
    requires NamesFit(files) && HoldsFiles(st0, files) && |file.name| <= DIRSIZ
    requires |files| + 2 < |st0.inodes| == |st1.inodes|
    requires st1.inodes == st0.inodes[|files| + 2 := st1.inodes[|files| + 2]] && st1.inodes[|files| + 2].typ == T_FILE
    requires forall j: nat :: j < |st0.inodes| && j != |files| + 2 ==> Content(st1, j) == Content(st0, j)
    requires Content(st1, |files| + 2) == []
    requires Appended(st1, st2, ROOTINO, DirEntry(|files| + 2, file.name))
    requires Appended(st2, st3, |files| + 2, file.bytes)
    ensures NamesFit(files + [file]) && HoldsFiles(st3, files + [file])
  {
    hide Content;
    var all := files + [file];
    assert all[..|files|] == files;
    assert RootEntries(all) == RootEntries(files) + DirEntry(|files| + 2, file.name);
    forall k: nat | k < |all| ensures HoldsFile(st3, k + 2, all[k]) {
      if k < |files| {
        assert HoldsFile(st0, k + 2, files[k]);
      } else {
        assert [] + file.bytes == file.bytes;
      }
    }
  }

  /** The start of mkfs's main: an empty image and the root directory with its first two entries. */
  method StartImage() returns (img: Image)
    ensures fresh(img) && img.Valid() && img.freeinode == 2 && HoldsFiles(img.St(), [])
    ensures img.freeblock == BlocksUsed([]) <= FSSIZE
  {
    hide Building, Tidy, Appended, BlocksFor, Content;
    img := new Image();
    var root := img.IAlloc(T_DIR);
    ghost var st1 := img.St();
    assert |Content(st1, root)| == 0;
    var dot := DirEntry(root, ['.' as nat]);
    assert BlocksFor(0) == 0 && BlocksFor(DIRENT) == 1 && BlocksFor(DIRENT * 2) == 1 by { FirstBlock(); }
    var ok := img.IAppend(root, dot);
    ghost var st2 := img.St();
    AppendedShape(st1, st2, root, dot);
    var dots := DirEntry(root, ['.' as nat, '.' as nat]);
    ok := img.IAppend(root, dots);
    AppendedShape(st2, img.St(), root, dots);
    DotsHeld(st1, st2, img.St());
  }

  /** The end of mkfs's main. */
  method EndImage(img: Image, ghost files: seq<HostFile>) returns (st: State)
    requires img.Valid() && img.freeinode == |files| + 2 && NamesFit(files) && HoldsFiles(img.St(), files)
    requires img.freeblock == BlocksUsed(files)
    ensures GoodImage(st, img.owner, files)
  {
    hide Building, Tidy, Content, BlocksFor, Owned, NoHoles, Empty, Ptr;
    st := img.Finish(ROOTINO);
    ImageOwnership(img.St(), st, img.owner, ROOTINO, img.freeblock);
    ImageNoHoles(img.St(), st, ROOTINO, img.freeblock);
    ImageFiles(img.St(), st, img.freeblock, files);
    FreeAreEmpty(st, img.freeinode);
  }

  /** mkfs: the root directory, then every file.  It finishes exactly when the files fit; the image
      then has exact block ownership and holds the root directory and the files. */
  method MakeImage(files: seq<HostFile>) returns (ok: bool, st: State, ghost owner: map<nat, Slot>)
    requires |files| + 2 <= NINODES
    ensures ok <==> Fits(files)
    ensures ok ==> GoodImage(st, owner, files)
  {
    hide Building, Tidy, HoldsFiles, BlocksUsed, GoodImage;
    owner, st := map[], State([], [], []);
    var img := StartImage();
    assert files[..0] == [];
    for i := 0 to |files|
      invariant img.Valid() && img.freeinode == i + 2 && Fits(files[..i]) && HoldsFiles(img.St(), files[..i])
      invariant img.freeblock == BlocksUsed(files[..i]) && fresh(img)
    {
      ok := AddFile(img, files[i], files[..i]);
      assert files[..i] + [files[i]] == files[..i + 1];
      FitsPrefix(files, i + 1);
      if !ok {
        return;
      }
    }
    assert files[..|files|] == files;
    ok, owner := true, img.owner;
    st := EndImage(img, files);
  }

  lemma FirstBlock()
    ensures BlocksFor(0) == 0 && BlocksFor(DIRENT) == 1 && BlocksFor(DIRENT * 2) == 1
  {
  }

  lemma DotsHeld(st1: State, st2: State, st3: State)
    requires Appended(st1, st2, ROOTINO, DirEntry(ROOTINO, ['.' as nat]))
    requires Appended(st2, st3, ROOTINO, DirEntry(ROOTINO, ['.' as nat, '.' as nat]))
    requires Content(st1, ROOTINO) == [] && st1.inodes[ROOTINO].typ == T_DIR
    ensures HoldsFiles(st3, [])
  {
    hide Content;
  }

  /** What mkfs promises about the image it finishes.  The root directory has a hole exactly when its
      entries fill whole blocks. */
  ghost predicate GoodImage(st: State, owner: map<nat, Slot>, files: seq<HostFile>)
  {
    && Owned(ImageLayout(), st, owner) && |st.inodes| == NINODES
    && NamesFit(files) && ImageHolds(st, files)
    && (forall i: nat :: i != ROOTINO ==> NoHoles(st, i))
    && (NoHoles(st, ROOTINO) <==> !FullRoot(files))
    && (FullRoot(files) ==> Ptr(st, FileSlot(ROOTINO, DIRENT * (|files| + 2) / BSIZE)) == 0)
    && (forall i: nat :: i < NINODES && st.inodes[i].typ == 0 ==> Empty(st, i))
    && (forall b: nat :: b < FSSIZE ==> (InUse(st, b) <==> b < BlocksUsed(files)))
  }

  /** The root directory's entries fill whole blocks. */
  predicate FullRoot(files: seq<HostFile>)
  {
    DIRENT * (|files| + 2) % BSIZE == 0
  }

  /** The files of the finished image; the root directory is padded with free entries. */
  ghost predicate ImageHolds(st: State, files: seq<HostFile>)
    requires NamesFit(files)
  {
    && |files| + 2 <= |st.inodes| && st.inodes[ROOTINO].typ == T_DIR
    && (var n := |RootEntries(files)|;
        Content(st, ROOTINO) == RootEntries(files) + seq((n / BSIZE + 1) * BSIZE - n, _ => 0))
    && forall k: nat :: k < |files| ==> HoldsFile(st, k + 2, files[k])
  }

  lemma ImageFiles(full: State, st: State, fb: nat, files: seq<HostFile>)
    requires NamesFit(files) && HoldsFiles(full, files) && Finished(full, st, ROOTINO, fb) && Tidy(full, ROOTINO)
    ensures ImageHolds(st, files)
  {
    hide ByteAt;
    FinishedSlots(full, st, ROOTINO, fb);
    var c, c' := Content(full, ROOTINO), Content(st, ROOTINO);
    assert SameFile(full, st, ROOTINO);
    forall k: nat | k < |c'| ensures c'[k] == if k < |c| then c[k] else 0 {
      assert c'[k] == ByteAt(st, ROOTINO, k) == ByteAt(full, ROOTINO, k);
    }
    assert c' == c + seq((|c| / BSIZE + 1) * BSIZE - |c|, _ => 0);
    forall k: nat | k < |files| ensures HoldsFile(st, k + 2, files[k]) {
      assert HoldsFile(full, k + 2, files[k]) && SameFile(full, st, k + 2);
      FsRuns.SameContent(full, st, k + 2);
    }
  }

  lemma FreeAreEmpty(st: State, freeinode: nat)
    requires forall i: nat :: i < |st.inodes| && (i == 0 || i >= freeinode) ==> st.inodes[i] == FreshInode(0)
    requires forall i: nat :: 0 < i < freeinode && i < |st.inodes| ==> st.inodes[i].typ != 0
    ensures forall i: nat :: i < |st.inodes| && st.inodes[i].typ == 0 ==> Empty(st, i)
  {
    forall i: nat | i < |st.inodes| && st.inodes[i].typ == 0 ensures Empty(st, i) {
      forall t: Slot | t.i == i ensures Ptr(st, t) == 0 {
        assert forall k: nat :: Addr(st, i, k) == 0;
      }
    }
  }

  // ---------------------------------------------------------------------
  // The kernel on the image

  /** mkfs, then any run of operations on its image.  Unless the root directory's entries fill whole
      blocks, everything that holds of runs on a consistent disk holds from the first boot on. */
  method BootAndRun(files: seq<HostFile>, ops: seq<Op>)
    returns (ok: bool, outs: seq<Outcome>, done: nat, ghost trail: seq<FsRuns.Stop>)
    requires |files| + 2 <= NINODES
    ensures ok <==> Fits(files) && !FullRoot(files)
    ensures ok ==> && done == |outs| <= |ops| && FsRuns.IsTrail(ImageLayout(), trail, ops[..done], outs)
                   && NamesFit(files) && ImageHolds(trail[0].st, files) && |trail[0].st.inodes| == NINODES
                   && trail[0].safe == trail[0].st.data
                   && (done < |ops| ==> !Allowed(trail[done].files.now, ops[done]))
  {
    hide Owned, NoHoles, Empty, ImageHolds, Fits, FsRuns.StepOk, Allowed, FsRuns.View;
    outs, done, trail := [], 0, [];
    var st;
    ghost var owner;
    ok, st, owner := MakeImage(files);
    if !ok {
      return;
    }
    ok := DIRENT * (|files| + 2) % BSIZE != 0;
    if ok {
      ImageIsLaidOut();
      var fs := new FileSystem.Mount(ImageLayout(), st, owner);
      outs, done, trail := FsRuns.Run(fs, ops);
    }
  }

  /** The image has the layout that crash safety asks for, and its free map is one block. */
  lemma ImageIsLaidOut()
    ensures LaidOut(ImageLayout(), LOG, NINODES) && MapSize(ImageLayout()) == 1
    ensures Ordered(ImageLayout(), NINODES)
  {
  }

  /** The disk that mkfs writes: an empty log, and everything else in its place. */
  function ImageDisk(st: State): (r: Disk.Image)
    ensures |r| == FSSIZE
    ensures forall b :: 0 <= b < FSSIZE ==>
              r[b] == if IsHome(LOG, b) then Pack(ImageLayout(), st, b) else ZeroSectors()
  {
    seq(FSSIZE, b requires 0 <= b => if IsHome(LOG, b) then Pack(ImageLayout(), st, b) else ZeroSectors())
  }

  function ZeroSectors(): Disk.Block
  {
    Disk.Block(Disk.Sector(seq(SECTOR_WORDS, _ => 0)), Disk.Sector(seq(SECTOR_WORDS, _ => 0)))
  }

  lemma ImageDiskHolds(st: State)
    ensures Holds(LOG, ImageDisk(st), Layouter(ImageLayout()), st) && Header(LOG, ImageDisk(st)) == []
  {
    hide Pack;
    var d := ImageDisk(st);
    assert d[LOG.logStart] == ZeroSectors();
    assert Header(LOG, d) == [];
  }

  /** Whatever the order of the blocks in the headers, wherever the power fails and however often recovery is
      cut off: what is found on the disk are the files committed after a prefix of the run. */
  ghost predicate SurvivesAll(d: Disk.Image, trail: seq<FsRuns.Stop>)
  {
    forall cs, n: nat, cuts | CommitsOf(LOG, Layouter(ImageLayout()), trail, cs)
                              && (GoodCommits(LOG, cs) ==> n <= |AllSectors(LOG, cs)|) ::
      Survives(ImageLayout(), LOG, d, trail, cs, n, cuts)
  }

  /** From mkfs's file list through any run of operations and a power failure.  Writes come in filewrite's
      chunks. */
  method BootRunAndCrash(files: seq<HostFile>, ops: seq<Op>)
    returns (ok: bool, outs: seq<Outcome>, done: nat, ghost trail: seq<FsRuns.Stop>, ghost cs: seq<Commit>)
    requires |files| + 2 <= NINODES
    requires forall k :: 0 <= k < |ops| && ops[k].WriteOp? ==> |ops[k].s| <= FileIO.MAXCHUNK
    ensures ok <==> Fits(files) && !FullRoot(files)
    ensures ok ==> && done == |outs| <= |ops| && FsRuns.IsTrail(ImageLayout(), trail, ops[..done], outs)
                   && NamesFit(files) && ImageHolds(trail[0].st, files)
                   && CommitsOf(LOG, Layouter(ImageLayout()), trail, cs) && SurvivesAll(ImageDisk(trail[0].st), trail)
  {
    hide ImageHolds, Fits, FsRuns.StepOk, FsRuns.StopOk, Allowed, CommitsOf, SurvivesAll, ImageDisk;
    ok, outs, done, trail := BootAndRun(files, ops);
    cs := [];
    if ok {
      cs := SomeCommits(trail, ops[..done], outs);
      CrashAnywhere(trail, ops[..done], outs);
    }
  }

  lemma CrashAnywhere(trail: seq<FsRuns.Stop>, ops: seq<Op>, outs: seq<Outcome>)
    requires FsRuns.IsTrail(ImageLayout(), trail, ops, outs) && |trail[0].st.inodes| == NINODES
    requires trail[0].safe == trail[0].st.data
    requires forall k :: 0 <= k < |ops| && ops[k].WriteOp? ==> |ops[k].s| <= FileIO.MAXCHUNK
    ensures SurvivesAll(ImageDisk(trail[0].st), trail)
  {
    hide FsRuns.StepOk, FsRuns.StopOk, CommitsOf, Survives, ImageDisk, Holds, OneTransaction;
    var l, st := ImageLayout(), trail[0].st;
    ImageIsLaidOut();
    ImageDiskHolds(st);
    assert Saved(st, trail[0].safe) == st;
    forall k | 0 <= k < |ops| ensures OneTransaction(l, ops[k]) {
      ChunksAreTransactions(l, ops[k]);
    }
    forall cs, n: nat, cuts | CommitsOf(LOG, Layouter(l), trail, cs)
                         && (GoodCommits(LOG, cs) ==> n <= |AllSectors(LOG, cs)|)
      ensures Survives(l, LOG, ImageDisk(st), trail, cs, n, cuts)
    {
      FilesAfterPowerFailure(l, LOG, ImageDisk(st), trail, ops, outs, cs, n, cuts);
    }
  }

  /** There are commits for every run. */
  lemma {:induction false} SomeCommits(trail: seq<FsRuns.Stop>, ops: seq<Op>,
                                       outs: seq<Outcome>) returns (cs: seq<Commit>)
    requires FsRuns.IsTrail(ImageLayout(), trail, ops, outs) && |trail[0].st.inodes| == NINODES
    ensures CommitsOf(LOG, Layouter(ImageLayout()), trail, cs)
    decreases |ops|
  {
    hide FsRuns.StepOk, FsRuns.StopOk, IsCommit, ImageDisk;
    cs := [];
    if |ops| > 0 {
      var n := |ops| - 1;
      cs := SomeCommits(trail[..n + 1], ops[..n], outs[..n]);
      var q := trail[n + 1];
      StepIsHome(trail, ops, outs, n);
      ImageDiskHolds(q.st);
      assert Shape(LOG, ImageDisk(q.st)) by { HeldIsGood(LOG, ImageDisk(q.st), Layouter(ImageLayout()), q.st); }
      var c := SomeCommit(LOG, Layouter(ImageLayout()), q.st, q.logged, ImageDisk(q.st));
      cs := cs + [c];
    }
  }

  lemma StepIsHome(trail: seq<FsRuns.Stop>, ops: seq<Op>, outs: seq<Outcome>, n: nat)
    requires FsRuns.IsTrail(ImageLayout(), trail, ops, outs) && |trail[0].st.inodes| == NINODES && n < |ops|
    ensures forall b :: b in trail[n + 1].logged ==> IsHome(LOG, b)
  {
    hide FsRuns.StopOk, FlatStep, FlatWrote, DiskFull, FsRuns.ChangesLogged;
    SameInodes(trail, ops, outs, n);
    assert FsRuns.StepOk(ImageLayout(), trail[n], ops[n], outs[n], trail[n + 1]);
  }

  lemma {:induction false} SameInodes(trail: seq<FsRuns.Stop>, ops: seq<Op>, outs: seq<Outcome>, k: nat)
    requires FsRuns.IsTrail(ImageLayout(), trail, ops, outs) && k < |trail|
    ensures |trail[k].st.inodes| == |trail[0].st.inodes|
  {
    hide FlatStep, FsRuns.LoggedInPlace, FsRuns.OpCost, FsRuns.StopOk, FlatWrote, DiskFull;
    if k > 0 {
      SameInodes(trail, ops, outs, k - 1);
      assert FsRuns.StepOk(ImageLayout(), trail[k - 1], ops[k - 1], outs[k - 1], trail[k]);
    }
  }

  // ---------------------------------------------------------------------
  // A full root directory

  /** dirlookup of a name that is not in a full root directory reads one entry too many: the directory's
      recorded size reaches into a block that it does not have.  readi then allocates that block, so that a
      read, which opens no transaction, calls log_write. */
  method ReadFullRoot(files: seq<HostFile>) returns (fs: FileSystem, r: ReadResult, ghost addr: nat)
    requires |files| + 2 <= NINODES && Fits(files) && FullRoot(files) && BlocksUsed(files) < FSSIZE
    ensures DIRENT * (|files| + 2) < |Content(fs.St(), ROOTINO)|
    ensures r == Read(seq(DIRENT, _ => 0))
    ensures addr == Ptr(fs.St(), FileSlot(ROOTINO, DIRENT * (|files| + 2) / BSIZE)) >= BlocksUsed(files)
    ensures addr / BPB + ImageLayout().bmapStart in fs.logged
  {
    hide Owned, NoHoles, Empty, Content, Filled, MappedFrom, DiskFull, Ptr, InUse, BlocksUsed, Fits;
    ghost var owner;
    var ok, st;
    ok, st, owner := MakeImage(files);
    fs := new FileSystem.Mount(ImageLayout(), st, owner);
    var off := DIRENT * (|files| + 2);
    ghost var bn := off / BSIZE;
    HoleAtEnd(st, files, bn);
    r := fs.Readi(ROOTINO, off, DIRENT, DIRENT);
    FilledSame(ImageLayout(), st, fs.St(), ROOTINO, fs.logged);
    assert !NoHoles(st, ROOTINO) && off % BSIZE == 0;
    HoleIsRead(st, fs.St(), owner, fs.owner, files, fs.logged, off, r);
    addr := Ptr(fs.St(), FileSlot(ROOTINO, bn));
  }

  /** What reading the hole at the end of the root directory does. */
  lemma HoleIsRead(st: State, st': State, owner: map<nat, Slot>, owner': map<nat, Slot>, files: seq<HostFile>,
                   logged: set<nat>, off: nat, r: ReadResult)
    requires GoodImage(st, owner, files) && FullRoot(files) && |files| + 2 <= NINODES
    requires off == DIRENT * (|files| + 2) && BlocksUsed(files) < FSSIZE
    requires Owned(ImageLayout(), st', owner') && Filled(ImageLayout(), st, st', ROOTINO, logged)
    requires r.Read? && |r.bytes| <= DIRENT && off + DIRENT <= |Content(st', ROOTINO)|
    requires r.bytes == Content(st', ROOTINO)[off..off + |r.bytes|]
    requires |r.bytes| < DIRENT ==> DiskFull(ImageLayout(), st') && |r.bytes| == 0 && st' == st
    requires MappedFrom(st', ROOTINO, off, off + |r.bytes|)
    ensures r == Read(seq(DIRENT, _ => 0))
    ensures var addr := Ptr(st', FileSlot(ROOTINO, off / BSIZE));
            addr >= BlocksUsed(files) && addr / BPB + ImageLayout().bmapStart in logged
  {
    hide Owned, NoHoles, Empty, Content, Filled, BlocksUsed, Ptr, InUse, ImageHolds;
    var l := ImageLayout();
    assert !InUse(st, BlocksUsed(files));
    assert |r.bytes| == DIRENT;
    FilledSame(l, st, st', ROOTINO, logged);
    PaddingIsZero(st, files, off);
    assert off / BSIZE * BSIZE == off;
    assert Recorded(l, st, st', logged) by { FilledRecorded(l, st, st', logged); }
    LogBound.MapLogged(l, st, st', owner, owner', logged, FileSlot(ROOTINO, off / BSIZE));
  }

  lemma FilledRecorded(l: Layout, st: State, st': State, logged: set<nat>)
    requires Filled(l, st, st', ROOTINO, logged)
    ensures Recorded(l, st, st', logged)
  {
    hide Grown, Recorded;
  }

  lemma PaddingIsZero(st: State, files: seq<HostFile>, off: nat)
    requires NamesFit(files) && ImageHolds(st, files) && FullRoot(files) && off == DIRENT * (|files| + 2)
    ensures off + DIRENT <= |Content(st, ROOTINO)| && Content(st, ROOTINO)[off..off + DIRENT] == seq(DIRENT, _ => 0)
  {
    hide Content, RootEntries;
  }

  lemma HoleAtEnd(st: State, files: seq<HostFile>, bn: nat)
    requires NamesFit(files) && ImageHolds(st, files) && FullRoot(files) && |files| + 2 <= NINODES
    requires bn == DIRENT * (|files| + 2) / BSIZE
    ensures bn < NDIRECT
    ensures |Content(st, ROOTINO)| == st.inodes[ROOTINO].size == DIRENT * (|files| + 2) + BSIZE
  {
  }

  /** Sixty-two empty files make the root directory full; fewer do not. */
  lemma {:induction false} SixtyTwoFiles(files: seq<HostFile>)
    requires |files| <= 62 && NamesFit(files) && forall k :: 0 <= k < |files| ==> files[k].bytes == []
    ensures Fits(files) && FileBlocks(files) == 0 && BlocksUsed(files) < FSSIZE
    ensures FullRoot(files) <==> |files| == 62
    decreases |files|
  {
    if |files| > 0 {
      SixtyTwoFiles(files[..|files| - 1]);
    }
  }

  /** n empty files with names of their own. */
  function EmptyFiles(n: nat): (r: seq<HostFile>)
    requires n <= 62
    ensures |r| == n && NamesFit(r) && forall k :: 0 <= k < n ==> r[k].bytes == []
    ensures forall k :: 0 <= k < n ==> r[k].name == ['f' as nat, '1' as nat + k]
  {
    if n == 0 then [] else EmptyFiles(n - 1) + [HostFile(['f' as nat, '0' as nat + n], [])]
  }

  /** So mkfs with 62 empty files of different names makes an image whose root directory has a hole. */
  lemma FullRootExists()
    ensures var files := EmptyFiles(62);
            && |files| + 2 <= NINODES && Fits(files) && FullRoot(files) && BlocksUsed(files) < FSSIZE
            && forall j, k :: 0 <= j < k < |files| ==> files[j].name != files[k].name
  {
    SixtyTwoFiles(EmptyFiles(62));
  }
}
