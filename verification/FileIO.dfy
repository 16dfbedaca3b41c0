/** Reading and writing an open file: filewrite cuts a write into transactions small enough for
    the log, fileread opens none. */
module FileIO {
  import opened FsBytes
  import opened FsState
  import opened Fs
  import opened FsSafe
  import opened FlatFiles
  import FsRuns
  import LogRuns

  const MAXOPBLOCKS: nat := LogRuns.MAXOPBLOCKS
  /** The most bytes filewrite puts into one transaction. */
  const MAXCHUNK: nat := ((MAXOPBLOCKS - 1 - 1 - 2) / 2) * BSIZE

  /** The reservation filewrite relies on: at any offset and for any number of free-map blocks,
      a chunk costs at most MAXOPBLOCKS log slots. */
  lemma ChunkFitsReservation(off: nat, n: nat)
    requires n <= MAXCHUNK
    ensures LogCost(off, n) <= MAXOPBLOCKS
  {
    if n > 0 {
      assert off + n - 1 < off + 3 * BSIZE;
      assert (off + n - 1) / BSIZE <= off / BSIZE + 3;
      if off % BSIZE == 0 {
        assert (off + n - 1) / BSIZE <= off / BSIZE + 2;
      }
    }
  }

  /** With one free-map block, as in the image that mkfs makes, a chunk logs at most seven blocks. */
  lemma ChunkWithOneMap(off: nat, n: nat)
    requires n <= MAXCHUNK
    ensures Rounds(off, n) + 1 + 2 <= 7
  {
    if n > 0 {
      assert (off + n - 1) / BSIZE <= off / BSIZE + 3;
    }
  }

  /** What a transaction logged, and the most blocks logged before any of its calls of log_write. */
  datatype Txn = Txn(logged: set<nat>, peak: nat)

  /** The transaction keeps to its reservation: whenever it calls log_write it has a slot left. */
  ghost predicate InReservation(t: Txn)
  {
    |t.logged| <= MAXOPBLOCKS && t.peak < MAXOPBLOCKS
  }

  /** Of the n requested bytes s, `done` were written as whole calls report it and `touched`
      reached the file. */
  ghost predicate Wrote(st0: State, st: State, i: nat, off: nat, s: seq<nat>, done: nat, touched: nat)
  {
    && i < |st0.inodes| == |st.inodes| && done <= touched <= |s|
    && (forall j :: 0 <= j < |st.inodes| && j != i ==> st.inodes[j] == st0.inodes[j])
    && st.inodes[i].(addrs := []) ==
       st0.inodes[i].(addrs := [], size := Max(st0.inodes[i].size, if done > 0 then off + done else 0))
    && Spliced(st0, st, i, off, s[..touched])
  }

  lemma WroteNothing(st: State, i: nat, off: nat, s: seq<nat>)
    requires i < |st.inodes|
    ensures Wrote(st, st, i, off, s, 0, 0)
  {
    assert s[..0] == [];
  }

  lemma WroteMore(l: Layout, st0: State, st1: State, st2: State, i: nat, off: nat, s: seq<nat>, done: nat, m: nat,
                  r: nat, touched: nat, avail: nat, logged: set<nat>)
    requires Wrote(st0, st1, i, off, s, done, done) && done + m <= |s|
    requires WriteEffect(l, st1, st2, i, off + done, s[done..done + m], r, touched, avail, logged)
    requires off <= st0.inodes[i].size
    ensures Wrote(st0, st2, i, off, s, done + r, done + touched)
  {
    hide Spliced, WriteStops, WriteRecorded, NoHoles;
    var piece := s[done..done + m][..touched];
    SplicedTrans(st0, st1, st2, i, off, s[..done], piece);
    assert s[..done] + piece == s[..done + touched];
  }

  lemma WroteSize(st0: State, st: State, i: nat, off: nat, s: seq<nat>, done: nat)
    requires Wrote(st0, st, i, off, s, done, done)
    ensures i < |st0.inodes| == |st.inodes|
    ensures st.inodes[i].size == Max(st0.inodes[i].size, if done > 0 then off + done else 0)
    ensures st.inodes[i].typ == st0.inodes[i].typ
  {
  }

  lemma WroteAll(st0: State, st: State, i: nat, off: nat, s: seq<nat>)
    requires Wrote(st0, st, i, off, s, |s|, |s|) && |s| > 0 && off <= st0.inodes[i].size
    ensures |Content(st0, i)| == st0.inodes[i].size && Content(st, i) == Splice(Content(st0, i), off, s)
  {
    assert s[..|s|] == s;
    SplicedContent(st0, st, i, off, s);
  }

  lemma EffectBound(l: Layout, st0: State, st: State, i: nat, off: nat, s: seq<nat>, r: nat, touched: nat,
                    avail: nat, logged: set<nat>)
    requires WriteEffect(l, st0, st, i, off, s, r, touched, avail, logged)
    ensures i < |st0.inodes| == |st.inodes| && st.inodes[i].typ == st0.inodes[i].typ && r <= avail
    ensures r <= touched <= |s| && |st.data| == |st0.data|
  {
  }

  lemma ShortWrite(l: Layout, st0: State, st: State, i: nat, off: nat, s: seq<nat>, r: nat, touched: nat,
                   avail: nat, logged: set<nat>)
    requires WriteEffect(l, st0, st, i, off, s, r, touched, avail, logged) && r < |s| <= avail
    ensures forall c: nat :: c < l.size ==> InUse(st, c)
  {
  }

  lemma SizeBound(l: Layout, st: State, i: nat)
    requires i < |st.inodes| && NoHoles(st, i)
    ensures st.inodes[i].size <= MAXFILE * BSIZE < U32
  {
  }

  class OpenFile {
    const fs: FileSystem
    const ip: nat
    const readable: bool
    const writable: bool
    var off: nat
    /** The transactions of the last filewrite. */
    ghost var transactions: seq<Txn>

    constructor (fs: FileSystem, ip: nat, readable: bool, writable: bool)
      ensures this.fs == fs && this.ip == ip && off == 0
    {
      this.fs, this.ip, this.readable, this.writable, this.off := fs, ip, readable, writable, 0;
      transactions := [];
    }

    ghost predicate Valid()
      reads this, fs
    {
      && fs.Valid() && BackedBy(fs.St(), fs.safe, fs.owner) && Ordered(fs.l, |fs.inodes|)
      && ip < |fs.inodes| && fs.inodes[ip].typ != 0 && off < U32
    }

    /** Where the file system stands in a run: what programs read and what is committed. */
    ghost function Now(): FsRuns.Stop
      reads this, fs
    {
      FsRuns.Stop(Flat(FsRuns.View(fs.St()), FsRuns.View(fs.Safe())), fs.St(), fs.safe, fs.owner, fs.logged)
    }

    /** fileread on an inode: no transaction, and nothing is logged or changed. */
    method FileRead(n: nat, room: nat) returns (r: int, bytes: seq<nat>)
      requires Valid() && n < U32
      modifies `off, fs`bitmap, fs`data, fs`inodes, fs`logged, fs`peak, fs`owner
      ensures Valid() && fs.St() == old(fs.St()) && fs.logged == old(fs.logged) && fs.peak == old(fs.peak)
      ensures !readable ==> r == -1
      ensures r > 0 ==> r == |bytes| && old(off) + r <= |Content(fs.St(), ip)|
                        && bytes == Content(fs.St(), ip)[old(off)..old(off) + r]
      ensures off == if r > 0 then old(off) + r else old(off)
      ensures readable && off + n < U32 && old(off) <= |Content(fs.St(), ip)| && n <= room ==>
                r == Min(n, |Content(fs.St(), ip)| - old(off))
    {
      hide Owned, NoHoles, Empty, Content, Ptr;
      r, bytes := -1, [];
      if !readable {
        return;
      }
      SizeBound(fs.l, fs.St(), ip);
      var res := fs.Readi(ip, off, n, room);
      match res
      case Fault =>
      case Read(b) =>
        r, bytes := |b|, b;
        if r > 0 {
          off := off + r;
        }
    }

    /** begin_op, writei at the file's offset, end_op: one step of a run of the flat file system, which commits
        exactly the blocks it logged. */
    method CommitChunk(s: seq<nat>, avail: nat) returns (r: int, ghost touched: nat)
      requires Valid() && |s| <= MAXCHUNK
      modifies fs
      ensures fs.Valid() && |fs.inodes| == old(|fs.inodes|) && fs.inodes[ip].typ == old(fs.inodes[ip].typ)
      ensures Rejected(old(fs.inodes[ip].size), off, |s|) <==> r == -1
      ensures r == -1 ==> fs.St() == old(fs.St())
      ensures r != -1 ==> 0 <= r <= touched <= |s| && r <= avail
                          && WriteEffect(fs.l, old(fs.St()), fs.St(), ip, off, s, r, touched, avail, fs.logged)
      ensures |fs.logged| <= LogCost(off, |s|) && fs.peak < LogCost(off, |s|)
      ensures |fs.logged| <= Rounds(off, |s|) + MapSize(fs.l) + 2
      ensures Committed(fs.St(), old(fs.safe), fs.safe, fs.logged) && FsRuns.StopOk(fs.l, Now())
      ensures FsRuns.StepOk(fs.l, old(Now()), WriteOp(ip, off, s, avail), Count(r), Now())
    {
      hide Owned, NoHoles, Empty, Content, Ptr, WriteEffect, Rounds, LoggedFor, LoggedSlots, BackedBy, Mountable,
           FsRuns.StepOk, FsRuns.StopOk, FsRuns.View, Committed, WriteEnd, MapSize, Ordered, Rejected;
      ghost var p := Now();
      StandsOk();
      FsRuns.StopShape(fs.l, p);
      fs.BeginOp();
      r, touched := fs.Writei(ip, off, s, avail);
      if r != -1 {
        EffectBound(fs.l, old(fs.St()), fs.St(), ip, off, s, r, touched, avail, fs.logged);
      }
      FsRuns.MountableIs(fs);
      ghost var ino := ip / IPB + fs.l.inodeStart;
      assert {} + {ino} == {ino};
      fs.EndOp();
      ghost var q := Now();
      FsRuns.CommittedIs(q.st, p.safe, q.safe, q.logged);
      if r == -1 {
        FsRuns.NothingWritten(fs.l, p, q, WriteOp(ip, off, s, avail));
      } else {
        FsRuns.WriteIsStep(fs.l, p, q, ip, off, s, r, touched, avail);
      }
    }

    /** One round of filewrite's loop. */
    method Transaction(s: seq<nat>, avail: nat) returns (r: int, ghost touched: nat)
      requires Valid() && |s| <= MAXCHUNK
      modifies this, fs
      ensures Valid() && |fs.inodes| == old(|fs.inodes|)
      ensures Rejected(old(fs.inodes[ip].size), old(off), |s|) <==> r == -1
      ensures r == -1 ==> fs.St() == old(fs.St()) && off == old(off)
      ensures r != -1 ==> 0 <= r <= touched <= |s| && r <= avail && off == old(off) + r
                          && WriteEffect(fs.l, old(fs.St()), fs.St(), ip, old(off), s, r, touched, avail, fs.logged)
      ensures forall b: nat :: b < |fs.safe| ==>
                b < |fs.data| && b < |old(fs.safe)|
                && fs.safe[b] == if b in fs.logged then fs.data[b] else old(fs.safe)[b]
      ensures FsRuns.StopOk(fs.l, Now())
      ensures FsRuns.StepOk(fs.l, old(Now()), WriteOp(ip, old(off), s, avail), Count(r), Now())
      ensures transactions == old(transactions) + [Txn(fs.logged, fs.peak)] && InReservation(Txn(fs.logged, fs.peak))
      ensures MapSize(fs.l) == 1 ==> |fs.logged| <= 7
    {
      hide Owned, NoHoles, Empty, Content, Ptr, WriteEffect, LogCost, Rounds, BackedBy, FsRuns.StepOk, FsRuns.StopOk,
           FsRuns.View, MapSize, Ordered, Mountable;
      SizeBound(fs.l, fs.St(), ip);
      ChunkFitsReservation(off, |s|);
      ChunkWithOneMap(off, |s|);
      r, touched := CommitChunk(s, avail);
      FsRuns.StopShape(fs.l, Now());
      transactions := transactions + [Txn(fs.logged, fs.peak)];
      if r > 0 {
        off := off + r;
      }
    }

    lemma StandsOk()
      requires Valid()
      ensures FsRuns.StopOk(fs.l, Now())
    {
      hide BackedBy, Mountable, FsRuns.View;
      FsRuns.MountableIs(fs);
    }

    /** filewrite on an inode.  It goes through `trail`, a run of the flat file system whose operations are the
        chunks of s. */
    method FileWrite(s: seq<nat>, avail: nat)
      returns (ret: int, ghost done: nat, ghost touched: nat, ghost trail: seq<FsRuns.Stop>, ghost ops: seq<Op>,
               ghost outs: seq<Outcome>)
      requires Valid() && |s| < U32
      modifies this, fs
      ensures Valid() && |fs.inodes| == old(|fs.inodes|)
      ensures !writable ==> ret == -1 && fs.St() == old(fs.St()) && fs.safe == old(fs.safe)
      ensures ret == |s| || ret == -1
      ensures writable ==> Wrote(old(fs.St()), fs.St(), ip, old(off), s, done, touched) && off == old(off) + done
      ensures writable && ret == |s| ==> done == touched == |s|
      ensures writable && ret == |s| && |s| > 0 ==>
                && old(off) <= |old(Content(fs.St(), ip))|
                && Content(fs.St(), ip) == Splice(old(Content(fs.St(), ip)), old(off), s)
      ensures writable && ret == |s| && FsRuns.Settled(old(Now()).files) ==>
                FsRuns.Settled(Now().files) && Content(fs.Safe(), ip) == Content(fs.St(), ip)
      ensures writable && ret == -1 && avail >= |s| && !Rejected(old(fs.inodes[ip].size), old(off), |s|) ==>
                forall c: nat :: c < fs.l.size ==> InUse(fs.St(), c)
      ensures Goes(fs.l, old(Now()), Now(), trail, ops, outs) && Chunks(ip, old(off), s, avail, ops)
      ensures forall t :: t in transactions ==> InReservation(t)
    {
      hide Owned, NoHoles, Empty, Content, Ptr, Wrote, InReservation, FsRuns.StopOk, FsRuns.View, BackedBy, Mountable,
           Ordered, FsRuns.Settled, Goes, Chunks, InProgress;
      transactions := [];
      ret, done, touched := -1, 0, 0;
      ghost var w := Progress(fs.St(), Now(), off, [Now()], [], []);
      StandsOk();
      Standing(fs.l, Now(), ip, off, s, avail);
      trail, ops, outs := w.trail, w.ops, w.outs;
      if !writable {
        return;
      }
      WroteNothing(fs.St(), ip, off, s);
      BeginsHere(w, s, avail);
      var i := 0;
      while i < |s|
        invariant i <= |s| && i <= avail && i == done == touched && off == w.off + i
        invariant Valid() && |fs.inodes| == |w.st.inodes| && ret == -1
        invariant w.st == old(fs.St()) && w.start == old(Now()) && w.off == old(off)
        invariant InProgress(w, s, avail, i) && (i > 0 ==> w.off <= w.st.inodes[ip].size)
        invariant forall t :: t in transactions ==> InReservation(t)
      {
        var n1 := Min(|s| - i, MAXCHUNK);
        var r, t, w' := Round(s, i, n1, avail, w);
        w := w';
        if r != -1 {
          done, touched := i + r, i + t;
        }
        if r != n1 {
          trail, ops, outs := w.trail, w.ops, w.outs;
          return;
        }
        i := i + n1;
      }
      Ended(w, s, avail);
      trail, ops, outs := w.trail, w.ops, w.outs;
      ret := |s|;
      SettledContent(Now(), ip);
    }

    /** filewrite after i bytes of s: what has happened to the file, and the run so far. */
    ghost predicate InProgress(w: Progress, s: seq<nat>, avail: nat, i: nat)
      reads this, fs
    {
      && Wrote(w.st, fs.St(), ip, w.off, s, i, i) && (i < |s| ==> i == |w.ops| * MAXCHUNK)
      && Goes(fs.l, w.start, Now(), w.trail, w.ops, w.outs) && Chunks(ip, w.off, s, avail, w.ops)
      && (FsRuns.Settled(w.start.files) ==> FsRuns.Settled(Now().files))
    }

    lemma BeginsHere(w: Progress, s: seq<nat>, avail: nat)
      requires Wrote(fs.St(), fs.St(), ip, off, s, 0, 0) && Chunks(ip, off, s, avail, [])
      requires w == Progress(fs.St(), Now(), off, [Now()], [], []) && Goes(fs.l, Now(), Now(), [Now()], [], [])
      ensures InProgress(w, s, avail, 0)
    {
      hide Wrote, Goes, Chunks, FsRuns.Settled, FsRuns.View;
    }

    lemma Ended(w: Progress, s: seq<nat>, avail: nat)
      requires InProgress(w, s, avail, |s|) && (|s| > 0 ==> ip < |w.st.inodes| && w.off <= w.st.inodes[ip].size)
      ensures Wrote(w.st, fs.St(), ip, w.off, s, |s|, |s|)
      ensures |s| > 0 ==> |Content(w.st, ip)| == w.st.inodes[ip].size
                          && Content(fs.St(), ip) == Splice(Content(w.st, ip), w.off, s)
      ensures Goes(fs.l, w.start, Now(), w.trail, w.ops, w.outs) && Chunks(ip, w.off, s, avail, w.ops)
      ensures FsRuns.Settled(w.start.files) ==> FsRuns.Settled(Now().files)
    {
      hide Wrote, Goes, Chunks, FsRuns.Settled, FsRuns.View, Content;
      if |s| > 0 {
        WroteAll(w.st, fs.St(), ip, w.off, s);
      }
    }

    /** One round: a transaction, and its place in the run. */
    method Round(s: seq<nat>, i: nat, n1: nat, avail: nat, ghost w: Progress)
      returns (r: int, ghost t: nat, ghost w': Progress)
      requires Valid() && i < |s| && i <= avail && n1 == Min(|s| - i, MAXCHUNK) && off == w.off + i
      requires InProgress(w, s, avail, i) && (i > 0 ==> ip < |w.st.inodes| && w.off <= w.st.inodes[ip].size)
      requires forall t :: t in transactions ==> InReservation(t)
      modifies this, fs
      ensures Valid() && |fs.inodes| == old(|fs.inodes|) && w' == w.(trail := w'.trail, ops := w'.ops, outs := w'.outs)
      ensures -1 <= r <= n1 && off == w.off + i + if r > 0 then r else 0
      ensures r == -1 ==> Wrote(w.st, fs.St(), ip, w.off, s, i, i)
      ensures r != -1 ==> r <= t <= n1 && i + r <= avail && ip < |w.st.inodes| && w.off <= w.st.inodes[ip].size
                          && Wrote(w.st, fs.St(), ip, w.off, s, i + r, i + t)
      ensures r == n1 ==> t == n1 && InProgress(w', s, avail, i + n1)
      ensures Goes(fs.l, w.start, Now(), w'.trail, w'.ops, w'.outs) && Chunks(ip, w.off, s, avail, w'.ops)
      ensures r == -1 && ip < |w.st.inodes| && avail >= |s| ==> Rejected(w.st.inodes[ip].size, w.off, |s|)
      ensures 0 <= r < n1 && avail >= |s| ==> forall c: nat :: c < fs.l.size ==> InUse(fs.St(), c)
      ensures forall t :: t in transactions ==> InReservation(t)
    {
      hide Owned, NoHoles, Empty, Content, Ptr, Wrote, WriteEffect, LogCost, InReservation, Committed, FsRuns.StopOk,
           FsRuns.StepOk, FsRuns.View, BackedBy, Mountable, Ordered, FsRuns.Settled, Goes, Chunks, SameStop;
      ghost var st1, p := fs.St(), Now();
      WroteSize(w.st, st1, ip, w.off, s, i);
      r, t := Transaction(s[i..i + n1], avail - i);
      ghost var op := WriteOp(ip, w.off + i, s[i..i + n1], avail - i);
      Extended(fs.l, w.start, p, w.trail, w.ops, w.outs, op, Count(r), Now());
      OneMore(ip, w.off, s, avail, w.ops, i);
      w' := w.(trail := w.trail + [Now()], ops := w.ops + [op], outs := w.outs + [Count(r)]);
      if r != -1 {
        WroteMore(fs.l, w.st, st1, fs.St(), ip, w.off, s, i, n1, r, t, avail - i, fs.logged);
        if r == n1 {
          FsRuns.StepSettlesWhole(fs.l, p, op, Count(r), Now());
        } else if avail >= |s| {
          ShortWrite(fs.l, st1, fs.St(), ip, w.off + i, s[i..i + n1], r, t, avail - i, fs.logged);
        }
      }
    }
  }

  /** Where a filewrite started, and the run it has gone through. */
  datatype Progress = Progress(st: State, start: FsRuns.Stop, off: nat, trail: seq<FsRuns.Stop>, ops: seq<Op>,
                               outs: seq<Outcome>)

  /** The operations are writes of the consecutive chunks of s, at consecutive offsets. */
  ghost predicate Chunks(i: nat, off: nat, s: seq<nat>, avail: nat, ops: seq<Op>)
  {
    forall k: nat :: k < |ops| ==> IsChunk(i, off, s, avail, ops[k], k)
  }

  ghost predicate IsChunk(i: nat, off: nat, s: seq<nat>, avail: nat, op: Op, k: nat)
  {
    var at := k * MAXCHUNK;
    at < |s| && at <= avail && op == WriteOp(i, off + at, s[at..Min(|s|, at + MAXCHUNK)], avail - at)
  }

  /** The stops differ at most in what the transaction before them logged. */
  ghost predicate SameStop(p: FsRuns.Stop, q: FsRuns.Stop)
  {
    p == q.(logged := p.logged)
  }

  /** The run of these operations goes from one stop to the other. */
  ghost predicate Goes(l: Layout, p: FsRuns.Stop, q: FsRuns.Stop, trail: seq<FsRuns.Stop>, ops: seq<Op>,
                       outs: seq<Outcome>)
  {
    FsRuns.IsTrail(l, trail, ops, outs) && trail[0] == p && SameStop(trail[|ops|], q)
  }

  lemma Standing(l: Layout, p: FsRuns.Stop, i: nat, off: nat, s: seq<nat>, avail: nat)
    requires FsRuns.StopOk(l, p)
    ensures Goes(l, p, p, [p], [], []) && Chunks(i, off, s, avail, [])
  {
    hide FsRuns.StopOk;
  }

  lemma SameStep(l: Layout, p: FsRuns.Stop, p': FsRuns.Stop, op: Op, out: Outcome, q: FsRuns.Stop)
    requires SameStop(p, p') && FsRuns.StepOk(l, p', op, out, q)
    ensures FsRuns.StepOk(l, p, op, out, q)
  {
    hide FlatStep, FsRuns.ChangesLogged, FsRuns.LoggedInPlace, DiskFull, FlatWrote;
  }

  lemma Extended(l: Layout, p: FsRuns.Stop, m: FsRuns.Stop, trail: seq<FsRuns.Stop>, ops: seq<Op>, outs: seq<Outcome>,
                 op: Op, out: Outcome, q: FsRuns.Stop)
    requires Goes(l, p, m, trail, ops, outs) && FsRuns.StepOk(l, m, op, out, q) && FsRuns.StopOk(l, q)
    ensures Goes(l, p, q, trail + [q], ops + [op], outs + [out])
  {
    hide FsRuns.StepOk, FsRuns.StopOk;
    SameStep(l, trail[|ops|], m, op, out, q);
    assert (ops + [op])[..|ops|] == ops && (ops + [op])[..|ops| + 1] == ops + [op];
    FsRuns.TrailSnoc(l, trail, ops + [op], outs, |ops|, out, q);
  }

  lemma OneMore(i: nat, off: nat, s: seq<nat>, avail: nat, ops: seq<Op>, at: nat)
    requires Chunks(i, off, s, avail, ops) && at == |ops| * MAXCHUNK < |s| && at <= avail
    ensures var n := Min(|s| - at, MAXCHUNK);
            Chunks(i, off, s, avail, ops + [WriteOp(i, off + at, s[at..at + n], avail - at)])
    ensures var n := Min(|s| - at, MAXCHUNK); at + n < |s| ==> at + n == (|ops| + 1) * MAXCHUNK
  {
    var op := WriteOp(i, off + at, s[at..at + Min(|s| - at, MAXCHUNK)], avail - at);
    assert IsChunk(i, off, s, avail, op, |ops|);
    hide IsChunk;
  }

  lemma SettledContent(p: FsRuns.Stop, i: nat)
    requires p.files == Flat(FsRuns.View(p.st), FsRuns.View(Saved(p.st, p.safe))) && i < |p.st.inodes|
    ensures FsRuns.Settled(p.files) ==> Content(Saved(p.st, p.safe), i) == Content(p.st, i)
  {
    hide Content;
    assert FsRuns.View(p.st)[i].bytes == Content(p.st, i);
    assert FsRuns.View(Saved(p.st, p.safe))[i].bytes == Content(Saved(p.st, p.safe), i);
  }
}
