/** Every run of the logging layer: begin_op, log_write and end_op of any number of
    system calls interleaved in any order, commits and recoveries advancing one sector
    write at a time, and crashes anywhere. */
module LogRuns {
  import opened Base
  import opened Disk
  import opened RedoLog

  const MAXOPBLOCKS: nat := 10

  /** An outstanding system call and how many log slots it has taken. */
  datatype Op = Op(id: nat, spent: nat)

  /** A block modification made by a system call. */
  datatype Write = Write(op: nat, block: int, data: Block)

  /** What the disk is busy with: the first `k` of the sector writes `ws`, issued on image `pre`. */
  datatype Phase =
    | Idle
    | Committing(pre: Image, ws: seq<SectorWrite>, k: nat)
    | Recovering(pre: Image, ws: seq<SectorWrite>, k: nat)

  /** `view` is the disk as seen through the buffer cache and `lh` the in-memory header.
      `writes` is the history of modifications and `mark` how many of them have reached
      the commit point. */
  datatype State = State(disk: Image, view: Image, lh: seq<int>, ops: seq<Op>, nextOp: nat,
                         phase: Phase, writes: seq<Write>, mark: nat)

  datatype Step =
    | BeginOp
    | LogWrite(i: nat, block: int, data: Block)
    | EndOp(i: nat)
    | SectorIO
    | CommitDone
    | Crash
    | RecoveryDone

  datatype Outcome = Logged | TooBig | OutsideTransaction

  /** log_write's checks, in its order: a full log is fatal before absorption is tried. */
  function LogOutcome(lh: seq<int>, outstanding: nat): Outcome
  {
    if |lh| >= LOGBLOCKS then TooBig
    else if outstanding < 1 then OutsideTransaction
    else Logged
  }

  /** Absorption: a block already in the header keeps its slot. */
  function Absorb(lh: seq<int>, b: int): seq<int>
  {
    if b in lh then lh else lh + [b]
  }

  /** begin_op does not sleep. */
  predicate Admits(lh: seq<int>, outstanding: nat, committing: bool)
  {
    !committing && |lh| + (outstanding + 1) * MAXOPBLOCKS <= LOGBLOCKS
  }

  function Unspent(ops: seq<Op>): int
  {
    if |ops| == 0 then 0 else Unspent(ops[..|ops| - 1]) + MAXOPBLOCKS - ops[|ops| - 1].spent
  }

  function Replay(init: Image, ws: seq<Write>): (r: Image)
    ensures |r| == |init|
  {
    if |ws| == 0 then init
    else
      var r := Replay(init, ws[..|ws| - 1]);
      var w := ws[|ws| - 1];
      if 0 <= w.block < |r| then r[w.block := w.data] else r
  }

  ghost predicate Enabled(g: Geometry, s: State, step: Step)
  {
    match step
    case BeginOp => s.phase.Idle? && Admits(s.lh, |s.ops|, false)
    case LogWrite(i, b, _) => s.phase.Idle? && i < |s.ops| && IsHome(g, b) && b < |s.view|
                              && s.ops[i].spent < MAXOPBLOCKS
    case EndOp(i) => s.phase.Idle? && i < |s.ops| && Shape(g, s.view) && GoodList(g, s.lh)
    case SectorIO => !s.phase.Idle? && s.phase.k < |s.phase.ws|
    case CommitDone => s.phase.Committing? && s.phase.k == |s.phase.ws|
    case Crash => GoodDisk(g, s.disk) && s.mark <= |s.writes|
    case RecoveryDone => s.phase.Recovering? && s.phase.k == |s.phase.ws|
  }

  ghost function Do(g: Geometry, s: State, step: Step): State
    requires Enabled(g, s, step)
  {
    match step
    case BeginOp => s.(ops := s.ops + [Op(s.nextOp, 0)], nextOp := s.nextOp + 1)
    case LogWrite(i, b, data) =>
      var charge := if b in s.lh then 0 else 1;
      s.(view := s.view[b := data],
         lh := Absorb(s.lh, b),
         ops := s.ops[i := s.ops[i].(spent := s.ops[i].spent + charge)],
         writes := s.writes + [Write(s.ops[i].id, b, data)])
    case EndOp(i) =>
      var rest := s.ops[..i] + s.ops[i + 1..];
      s.(ops := rest,
         phase := if rest == [] && s.lh != []
                  then Committing(s.disk, CommitWrites(g, s.view, s.lh), 0) else Idle)
    case SectorIO =>
      s.(disk := Put(s.disk, s.phase.ws[s.phase.k]),
         phase := s.phase.(k := s.phase.k + 1),
         mark := if s.phase.Committing? && s.phase.k == 2 * |s.lh| then |s.writes| else s.mark)
    case CommitDone => s.(lh := [], phase := Idle, view := Refreshed(g, s.view, s.disk))
    case Crash => s.(view := s.disk, lh := [], ops := [], writes := s.writes[..s.mark],
                     phase := Recovering(s.disk, RecoveryWrites(g, s.disk), 0))
    case RecoveryDone => s.(view := s.disk, phase := Idle)
  }

  /** commit() leaves its log and header buffers in the cache with what it wrote. */
  ghost function Refreshed(g: Geometry, view: Image, disk: Image): (r: Image)
    ensures |r| == |view|
  {
    seq(|view|, b requires 0 <= b < |view| => if IsHome(g, b) || b >= |disk| then view[b] else disk[b])
  }

  // ---------------------------------------------------------------------
  // The invariant

  ghost predicate OpsOk(s: State)
  {
    && (forall op :: op in s.ops ==> op.id < s.nextOp && op.spent <= MAXOPBLOCKS)
    && |s.lh| + Unspent(s.ops) <= LOGBLOCKS
  }

  /** No system call straddles the durable mark, and those before it have finished. */
  ghost predicate MarkOk(g: Geometry, s: State)
  {
    && s.mark <= |s.writes|
    && (forall j :: 0 <= j < |s.writes| ==> s.writes[j].op < s.nextOp && IsHome(g, s.writes[j].block))
    && (forall j, op :: 0 <= j < s.mark && op in s.ops ==> s.writes[j].op != op.id)
    && (forall j, k :: 0 <= j < s.mark <= k < |s.writes| ==> s.writes[j].op != s.writes[k].op)
  }

  ghost predicate ListOk(g: Geometry, s: State)
  {
    && GoodList(g, s.lh)
    && (forall i, j :: 0 <= i < j < |s.lh| ==> s.lh[i] != s.lh[j])
    && (s.lh == [] ==> s.mark == |s.writes|)
  }

  ghost predicate PhaseOk(g: Geometry, s: State)
    requires Shape(g, s.view) && Shape(g, s.disk)
  {
    match s.phase
    case Idle =>
      && GoodDisk(g, s.disk) && Header(g, s.disk) == []
      && ListOk(g, s)
      && (forall b :: IsHome(g, b) && b !in s.lh ==> s.view[b] == s.disk[b])
      && (s.ops == [] ==> s.lh == [])
    case Committing(pre, ws, k) =>
      && s.ops == []
      && (forall i, j :: 0 <= i < j < |s.lh| ==> s.lh[i] != s.lh[j])
      && CommitTrace(g, pre, s.view, s.lh, ws) && k <= |ws| && s.disk == PutAll(pre, ws[..k])
      && (forall b :: IsHome(g, b) && b !in s.lh ==> s.view[b] == pre[b])
      && (k > 2 * |s.lh| ==> s.mark == |s.writes|)
    case Recovering(pre, ws, k) =>
      && s.ops == [] && s.lh == [] && s.mark == |s.writes|
      && RecoveryTrace(g, pre, ws) && k <= |ws| && s.disk == PutAll(pre, ws[..k])
  }

  /** Every prefix of ws, applied to pre, is atomic for the transaction bl. */
  ghost predicate CommitTrace(g: Geometry, pre: Image, v: Image, bl: seq<int>, ws: seq<SectorWrite>)
  {
    && GoodDisk(g, pre) && Header(g, pre) == [] && |v| == g.size && GoodList(g, bl)
    && |ws| > 2 * |bl|
    && forall k :: 0 <= k <= |ws| ==> AllOrNothing(g, pre, v, bl, k, |ws|, PutAll(pre, ws[..k]))
  }

  ghost predicate AllOrNothing(g: Geometry, pre: Image, v: Image, bl: seq<int>, k: nat, n: nat, e: Image)
    requires GoodDisk(g, pre) && |v| == g.size
  {
    && GoodDisk(g, e) && (k == n ==> Header(g, e) == [])
    && forall b :: IsHome(g, b) ==> Look(g, e, b) == if k <= 2 * |bl| then pre[b] else After(pre, v, bl, b)
  }

  lemma CommitIsTrace(g: Geometry, pre: Image, v: Image, bl: seq<int>)
    requires GoodDisk(g, pre) && Header(g, pre) == [] && Shape(g, v) && GoodList(g, bl)
    ensures CommitTrace(g, pre, v, bl, CommitWrites(g, v, bl))
  {
    var ws := CommitWrites(g, v, bl);
    forall k | 0 <= k <= |ws| ensures AllOrNothing(g, pre, v, bl, k, |ws|, PutAll(pre, ws[..k])) {
      CommitPrefix(g, pre, v, bl, k);
    }
  }

  /** Every prefix of ws, applied to pre, preserves what pre recovers to. */
  ghost predicate RecoveryTrace(g: Geometry, pre: Image, ws: seq<SectorWrite>)
  {
    && GoodDisk(g, pre)
    && forall k :: 0 <= k <= |ws| ==> Preserves(g, pre, k, |ws|, PutAll(pre, ws[..k]))
  }

  ghost predicate Preserves(g: Geometry, pre: Image, k: nat, n: nat, e: Image)
    requires GoodDisk(g, pre)
  {
    GoodDisk(g, e) && SameHome(g, pre, e) && (k == n ==> Header(g, e) == [])
  }

  lemma RecoveryIsTrace(g: Geometry, pre: Image)
    requires GoodDisk(g, pre)
    ensures RecoveryTrace(g, pre, RecoveryWrites(g, pre))
  {
    var ws := RecoveryWrites(g, pre);
    forall k | 0 <= k <= |ws| ensures Preserves(g, pre, k, |ws|, PutAll(pre, ws[..k])) {
      RecoveryPrefix(g, pre, k);
    }
  }

  /** What a crash now would recover to is the replay of the durable part of the history. */
  ghost predicate DurableOk(g: Geometry, init: Image, s: State)
    requires GoodDisk(g, s.disk) && |init| == g.size && s.mark <= |s.writes|
  {
    forall b :: IsHome(g, b) ==> Look(g, s.disk, b) == Replay(init, s.writes[..s.mark])[b]
  }

  ghost predicate ViewOk(g: Geometry, init: Image, s: State)
    requires |s.view| == |init| == g.size
  {
    !s.phase.Recovering? ==> forall b :: IsHome(g, b) ==> s.view[b] == Replay(init, s.writes)[b]
  }

  ghost predicate Inv(g: Geometry, init: Image, s: State)
  {
    && |init| == g.size
    && GoodDisk(g, s.disk) && Shape(g, s.view)
    && OpsOk(s) && MarkOk(g, s) && PhaseOk(g, s)
    && DurableOk(g, init, s) && ViewOk(g, init, s)
  }

  /** The system starts by recovering whatever image it finds. */
  ghost predicate Boot(g: Geometry, init: Image, s: State)
  {
    && GoodDisk(g, s.disk) && |init| == g.size
    && (forall b :: IsHome(g, b) ==> init[b] == Look(g, s.disk, b))
    && s == State(s.disk, s.disk, [], [], 0, Recovering(s.disk, RecoveryWrites(g, s.disk), 0), [], 0)
  }

  // ---------------------------------------------------------------------
  // Each step keeps it

  lemma {:induction false} UnspentUpdate(ops: seq<Op>, i: nat, op: Op)
    requires i < |ops|
    ensures Unspent(ops[i := op]) == Unspent(ops) + ops[i].spent - op.spent
    decreases |ops|
  {
    var n := |ops| - 1;
    if i < n {
      UnspentUpdate(ops[..n], i, op);
      assert ops[i := op][..n] == ops[..n][i := op];
    } else {
      assert ops[i := op][..n] == ops[..n];
    }
  }

  lemma {:induction false} UnspentRemove(ops: seq<Op>, i: nat)
    requires i < |ops|
    ensures Unspent(ops[..i] + ops[i + 1..]) == Unspent(ops) - MAXOPBLOCKS + ops[i].spent
    decreases |ops|
  {
    var n := |ops| - 1;
    var rest := ops[..i] + ops[i + 1..];
    if i < n {
      UnspentRemove(ops[..n], i);
      assert rest[..n - 1] == ops[..n][..i] + ops[..n][i + 1..];
    } else {
      assert rest == ops[..n];
    }
  }

  lemma {:induction false} UnspentBound(ops: seq<Op>)
    requires forall op :: op in ops ==> op.spent <= MAXOPBLOCKS
    ensures 0 <= Unspent(ops) <= |ops| * MAXOPBLOCKS
    decreases |ops|
  {
    if |ops| > 0 {
      UnspentBound(ops[..|ops| - 1]);
    }
  }

  /** A call with a slot left always finds room: "too big a transaction" cannot happen to it. */
  lemma RoomToLog(s: State, i: nat)
    requires OpsOk(s) && i < |s.ops| && s.ops[i].spent < MAXOPBLOCKS
    ensures |s.lh| < LOGBLOCKS && LogOutcome(s.lh, |s.ops|) == Logged
  {
    UnspentUpdate(s.ops, i, s.ops[i].(spent := MAXOPBLOCKS));
    UnspentBound(s.ops[i := s.ops[i].(spent := MAXOPBLOCKS)]);
  }

  lemma BeginKeeps(g: Geometry, init: Image, s: State)
    requires Inv(g, init, s) && Enabled(g, s, BeginOp)
    ensures Inv(g, init, Do(g, s, BeginOp))
  {
    var t := Do(g, s, BeginOp);
    UnspentBound(s.ops);
    assert t.ops[..|s.ops|] == s.ops;
  }

  lemma ReplayPush(init: Image, ws: seq<Write>, w: Write)
    requires 0 <= w.block < |init|
    ensures Replay(init, ws + [w]) == Replay(init, ws)[w.block := w.data]
  {
    assert (ws + [w])[..|ws|] == ws;
  }

  lemma LogKeepsOps(g: Geometry, s: State, i: nat, b: int, data: Block)
    requires OpsOk(s) && Enabled(g, s, LogWrite(i, b, data))
    ensures OpsOk(Do(g, s, LogWrite(i, b, data)))
  {
    var charge := if b in s.lh then 0 else 1;
    UnspentUpdate(s.ops, i, s.ops[i].(spent := s.ops[i].spent + charge));
  }

  lemma LogKeepsMark(g: Geometry, s: State, i: nat, b: int, data: Block)
    requires OpsOk(s) && MarkOk(g, s) && Enabled(g, s, LogWrite(i, b, data))
    ensures MarkOk(g, Do(g, s, LogWrite(i, b, data)))
  {
    var t := Do(g, s, LogWrite(i, b, data));
    forall op | op in t.ops ensures exists o :: o in s.ops && o.id == op.id {
      var k :| 0 <= k < |t.ops| && t.ops[k] == op;
      assert s.ops[k] in s.ops && s.ops[k].id == op.id;
    }
    assert s.ops[i] in s.ops;
  }

  lemma LogKeeps(g: Geometry, init: Image, s: State, i: nat, b: int, data: Block)
    requires Inv(g, init, s) && Enabled(g, s, LogWrite(i, b, data))
    ensures Inv(g, init, Do(g, s, LogWrite(i, b, data)))
  {
    var t := Do(g, s, LogWrite(i, b, data));
    LogKeepsOps(g, s, i, b, data);
    LogKeepsMark(g, s, i, b, data);
    RoomToLog(s, i);
    ReplayPush(init, s.writes, Write(s.ops[i].id, b, data));
    assert t.writes[..t.mark] == s.writes[..s.mark];
  }

  lemma EndKeepsOps(g: Geometry, init: Image, s: State, i: nat)
    requires Inv(g, init, s) && Enabled(g, s, EndOp(i))
    ensures var t := Do(g, s, EndOp(i)); OpsOk(t) && MarkOk(g, t)
  {
    var t := Do(g, s, EndOp(i));
    UnspentRemove(s.ops, i);
    assert forall op :: op in t.ops ==> op in s.ops;
  }

  lemma EndKeeps(g: Geometry, init: Image, s: State, i: nat)
    requires Inv(g, init, s) && Enabled(g, s, EndOp(i))
    ensures Inv(g, init, Do(g, s, EndOp(i)))
  {
    var t := Do(g, s, EndOp(i));
    EndKeepsOps(g, init, s, i);
    if t.phase.Committing? {
      CommitIsTrace(g, s.disk, s.view, s.lh);
      assert t.phase.ws[..0] == [];
    }
  }

  /** The sector write that advances a commit, including the one that is the commit point. */
  lemma CommitIOKeeps(g: Geometry, init: Image, s: State)
    requires Inv(g, init, s) && s.phase.Committing? && Enabled(g, s, SectorIO)
    ensures Inv(g, init, Do(g, s, SectorIO))
  {
    var t := Do(g, s, SectorIO);
    var pre, ws, k := s.phase.pre, s.phase.ws, s.phase.k;
    assert ws[..k + 1][..k] == ws[..k];
    assert AllOrNothing(g, pre, s.view, s.lh, k, |ws|, s.disk);
    assert AllOrNothing(g, pre, s.view, s.lh, k + 1, |ws|, t.disk);
    assert s.writes[..|s.writes|] == s.writes;
  }

  lemma RecoveryIOKeeps(g: Geometry, init: Image, s: State)
    requires Inv(g, init, s) && s.phase.Recovering? && Enabled(g, s, SectorIO)
    ensures Inv(g, init, Do(g, s, SectorIO))
  {
    var t := Do(g, s, SectorIO);
    var pre, ws, k := s.phase.pre, s.phase.ws, s.phase.k;
    assert ws[..k + 1][..k] == ws[..k];
    assert Preserves(g, pre, k, |ws|, s.disk);
    assert Preserves(g, pre, k + 1, |ws|, t.disk);
  }

  lemma CommitDoneKeeps(g: Geometry, init: Image, s: State)
    requires Inv(g, init, s) && Enabled(g, s, CommitDone)
    ensures Inv(g, init, Do(g, s, CommitDone))
  {
    assert AllOrNothing(g, s.phase.pre, s.view, s.lh, s.phase.k, |s.phase.ws|, s.disk);
    assert s.writes[..s.mark] == s.writes;
  }

  lemma CrashKeeps(g: Geometry, init: Image, s: State)
    requires Inv(g, init, s)
    ensures Inv(g, init, Do(g, s, Crash))
  {
    var t := Do(g, s, Crash);
    RecoveryIsTrace(g, s.disk);
    assert t.phase.ws[..0] == [];
    assert t.writes[..t.mark] == s.writes[..s.mark];
  }

  lemma RecoveryDoneKeeps(g: Geometry, init: Image, s: State)
    requires Inv(g, init, s) && Enabled(g, s, RecoveryDone)
    ensures Inv(g, init, Do(g, s, RecoveryDone))
  {
    assert Preserves(g, s.phase.pre, s.phase.k, |s.phase.ws|, s.disk);
    assert s.writes[..s.mark] == s.writes;
  }

  lemma StepKeeps(g: Geometry, init: Image, s: State, step: Step)
    requires Inv(g, init, s) && Enabled(g, s, step)
    ensures Inv(g, init, Do(g, s, step))
  {
    match step
    case BeginOp => BeginKeeps(g, init, s);
    case LogWrite(i, b, data) => LogKeeps(g, init, s, i, b, data);
    case EndOp(i) => EndKeeps(g, init, s, i);
    case SectorIO =>
      if s.phase.Committing? {
        CommitIOKeeps(g, init, s);
      } else {
        RecoveryIOKeeps(g, init, s);
      }
    case CommitDone => CommitDoneKeeps(g, init, s);
    case Crash => CrashKeeps(g, init, s);
    case RecoveryDone => RecoveryDoneKeeps(g, init, s);
  }

  // ---------------------------------------------------------------------
  // Whole runs

  ghost predicate IsRun(g: Geometry, s: State, steps: seq<Step>, t: State)
    decreases |steps|
  {
    if |steps| == 0 then s == t
    else Enabled(g, s, steps[0]) && IsRun(g, Do(g, s, steps[0]), steps[1..], t)
  }

  lemma {:induction false} RunKeeps(g: Geometry, init: Image, s: State, steps: seq<Step>, t: State)
    requires Inv(g, init, s) && IsRun(g, s, steps, t)
    ensures Inv(g, init, t)
    decreases |steps|
  {
    if |steps| > 0 {
      StepKeeps(g, init, s, steps[0]);
      RunKeeps(g, init, Do(g, s, steps[0]), steps[1..], t);
    }
  }

  lemma BootInv(g: Geometry, init: Image, s: State)
    requires Boot(g, init, s)
    ensures Inv(g, init, s)
  {
    RecoveryIsTrace(g, s.disk);
    assert s.phase.ws[..0] == [];
  }

  /** Crash safety of every run.  Whatever the interleaving and wherever it is cut, recovering
      (through any number of further interrupted recoveries) yields exactly the effect of a
      prefix of the modification history; every system call is wholly inside that prefix or
      wholly outside it, no unfinished call is inside, and when the log is idle with no call
      outstanding the prefix is the whole history. */
  lemma RunsRecoverFinishedCalls(g: Geometry, init: Image, s: State, steps: seq<Step>, t: State, cuts: seq<nat>)
    requires Boot(g, init, s) && IsRun(g, s, steps, t)
    ensures GoodDisk(g, t.disk) && t.mark <= |t.writes| && Enabled(g, t, Crash)
    ensures GoodDisk(g, Reboots(g, t.disk, cuts))
    ensures var r := Recovered(g, Reboots(g, t.disk, cuts));
            forall b :: IsHome(g, b) ==> b < |r| && r[b] == Replay(init, t.writes[..t.mark])[b]
    ensures forall j, k :: 0 <= j < t.mark <= k < |t.writes| ==> t.writes[j].op != t.writes[k].op
    ensures forall j, op :: 0 <= j < t.mark && op in t.ops ==> t.writes[j].op != op.id
    ensures t.phase.Idle? && t.ops == [] ==> t.mark == |t.writes|
  {
    BootInv(g, init, s);
    RunKeeps(g, init, s, steps, t);
    RebootsRecover(g, t.disk, cuts);
  }

  // ---------------------------------------------------------------------
  // What was issued, told from the steps alone

  /** The system calls under way, in the order of their begin_op, and the number of the next one. */
  datatype Calls = Calls(open: seq<nat>, next: nat)

  function CallsAfter(c: Calls, step: Step): Calls
  {
    match step
    case BeginOp => Calls(c.open + [c.next], c.next + 1)
    case EndOp(i) => if i < |c.open| then c.(open := c.open[..i] + c.open[i + 1..]) else c
    case Crash => c.(open := [])
    case _ => c
  }

  function CallsAfterAll(c: Calls, steps: seq<Step>): Calls
    decreases |steps|
  {
    if |steps| == 0 then c else CallsAfterAll(CallsAfter(c, steps[0]), steps[1..])
  }

  /** The modifications that the calls hand to log_write, in order. */
  function Issued(c: Calls, steps: seq<Step>): seq<Write>
    decreases |steps|
  {
    if |steps| == 0 then []
    else
      var step := steps[0];
      (if step.LogWrite? && step.i < |c.open| then [Write(c.open[step.i], step.block, step.data)] else [])
      + Issued(CallsAfter(c, step), steps[1..])
  }

  /** Nothing is under way when the machine starts. */
  const NOCALLS := Calls([], 0)

  predicate NoCrash(steps: seq<Step>)
  {
    forall k :: 0 <= k < |steps| ==> !steps[k].Crash?
  }

  ghost predicate Tells(c: Calls, s: State)
  {
    |c.open| == |s.ops| && c.next == s.nextOp && forall k :: 0 <= k < |c.open| ==> c.open[k] == s.ops[k].id
  }

  lemma StepTells(g: Geometry, s: State, step: Step, c: Calls)
    requires Tells(c, s) && Enabled(g, s, step)
    ensures Tells(CallsAfter(c, step), Do(g, s, step))
    ensures !step.Crash? ==> Do(g, s, step).writes == s.writes + Issued(c, [step])
  {
    assert [step][1..] == [];
  }

  lemma {:induction false} RunTells(g: Geometry, s: State, steps: seq<Step>, t: State, c: Calls)
    requires Tells(c, s) && IsRun(g, s, steps, t)
    ensures Tells(CallsAfterAll(c, steps), t)
    decreases |steps|
  {
    if |steps| > 0 {
      StepTells(g, s, steps[0], c);
      RunTells(g, Do(g, s, steps[0]), steps[1..], t, CallsAfter(c, steps[0]));
    }
  }

  /** Without a crash the history grows by exactly what is issued. */
  lemma {:induction false} RunIssues(g: Geometry, s: State, steps: seq<Step>, t: State, c: Calls)
    requires Tells(c, s) && IsRun(g, s, steps, t) && NoCrash(steps)
    ensures t.writes == s.writes + Issued(c, steps)
    decreases |steps|
  {
    hide Enabled, Do, Tells;
    if |steps| > 0 {
      var step, rest := steps[0], steps[1..];
      StepTells(g, s, step, c);
      RunIssues(g, Do(g, s, step), rest, t, CallsAfter(c, step));
      assert [step][0] == step && [step][1..] == [];
      assert Issued(c, steps) == Issued(c, [step]) + Issued(CallsAfter(c, step), rest);
    }
  }

  /** Nothing durable is ever lost. */
  lemma StepRemembers(g: Geometry, init: Image, s: State, step: Step)
    requires Inv(g, init, s) && Enabled(g, s, step)
    ensures var t := Do(g, s, step);
            s.mark <= t.mark <= |t.writes| && s.mark <= |s.writes| && t.writes[..s.mark] == s.writes[..s.mark]
  {
    StepKeeps(g, init, s, step);
  }

  lemma InvMark(g: Geometry, init: Image, s: State)
    requires Inv(g, init, s)
    ensures s.mark <= |s.writes|
  {
  }

  /** Over every run, crashes included, the durable part of the history only grows. */
  lemma {:induction false} RunRemembers(g: Geometry, init: Image, s: State, steps: seq<Step>, t: State)
    requires Inv(g, init, s) && IsRun(g, s, steps, t)
    ensures s.mark <= t.mark <= |t.writes| && s.mark <= |s.writes| && t.writes[..s.mark] == s.writes[..s.mark]
    decreases |steps|
  {
    hide Enabled, Do, Inv;
    InvMark(g, init, s);
    if |steps| > 0 {
      var u := Do(g, s, steps[0]);
      StepKeeps(g, init, s, steps[0]);
      StepRemembers(g, init, s, steps[0]);
      RunRemembers(g, init, u, steps[1..], t);
      assert t.writes[..u.mark][..s.mark] == u.writes[..u.mark][..s.mark];
    }
  }

  lemma {:induction false} RunSplits(g: Geometry, s: State, a: seq<Step>, b: seq<Step>, t: State) returns (u: State)
    requires IsRun(g, s, a + b, t)
    ensures IsRun(g, s, a, u) && IsRun(g, u, b, t)
    decreases |a|
  {
    if |a| == 0 {
      assert a + b == b;
      u := s;
    } else {
      assert (a + b)[1..] == a[1..] + b;
      u := RunSplits(g, Do(g, s, a[0]), a[1..], b, t);
    }
  }

  /** Recovering the disk, after any number of interrupted recoveries, gives these home blocks. */
  ghost predicate Recovers(g: Geometry, disk: Image, cuts: seq<nat>, result: Image)
  {
    && GoodDisk(g, disk) && GoodDisk(g, Reboots(g, disk, cuts)) && |result| == g.size
    && var r := Recovered(g, Reboots(g, disk, cuts)); forall b :: IsHome(g, b) ==> b < |r| && r[b] == result[b]
  }

  lemma RecoversHistory(g: Geometry, init: Image, s: State, steps: seq<Step>, t: State, cuts: seq<nat>)
    requires Boot(g, init, s) && IsRun(g, s, steps, t)
    ensures t.mark <= |t.writes| && Recovers(g, t.disk, cuts, Replay(init, t.writes[..t.mark]))
    ensures t.phase.Idle? && t.ops == [] ==> t.mark == |t.writes| && t.writes[..t.mark] == t.writes
  {
    hide Enabled, Do, IsRun, Reboots, Recovered;
    RunsRecoverFinishedCalls(g, init, s, steps, t, cuts);
  }

  /**
   * Everything issued before the end of a commit is there for good.  Take any run that goes through `calm`,
   * a stretch without a crash that ends with the end of a commit.  Whatever comes later, crashes included,
   * recovery replays a history that has every modification issued in that stretch, in order.
   */
  lemma CommittedCallsSurvive(g: Geometry, init: Image, s: State, before: seq<Step>, calm: seq<Step>,
                              later: seq<Step>, t: State, cuts: seq<nat>)
    returns (earlier: seq<Write>, after: seq<Write>)
    requires Boot(g, init, s) && IsRun(g, s, before + calm + later, t)
    requires NoCrash(calm) && |calm| > 0 && calm[|calm| - 1] == CommitDone
    ensures var issued := Issued(CallsAfterAll(NOCALLS, before), calm);
            Recovers(g, t.disk, cuts, Replay(init, earlier + issued + after))
  {
    hide Enabled, Do, Inv, Boot, IsRun, Recovers, Replay, Issued, CallsAfterAll, Tells;
    BootInv(g, init, s);
    BootTells(g, init, s);
    var v := RunSplits(g, s, before + calm, later, t);
    var u := RunSplits(g, s, before, calm, v);
    RunTells(g, s, before, u, NOCALLS);
    RunIssues(g, u, calm, v, CallsAfterAll(NOCALLS, before));
    RunKeeps(g, init, s, before + calm, v);
    RunRemembers(g, init, v, later, t);
    CommitEnds(g, init, s, before, u, calm, v);
    RecoversHistory(g, init, s, before + calm + later, t, cuts);
    earlier, after := u.writes, t.writes[v.mark..t.mark];
    assert t.writes[..t.mark] == t.writes[..v.mark] + after;
    assert v.writes[..v.mark] == v.writes;
  }

  lemma BootTells(g: Geometry, init: Image, s: State)
    requires Boot(g, init, s)
    ensures Tells(NOCALLS, s)
  {
  }

  /** When a commit ends, everything in the history is durable. */
  lemma CommitEnds(g: Geometry, init: Image, s: State, before: seq<Step>, u: State, calm: seq<Step>, v: State)
    requires Inv(g, init, s) && IsRun(g, s, before, u) && IsRun(g, u, calm, v)
    requires |calm| > 0 && calm[|calm| - 1] == CommitDone
    ensures v.mark == |v.writes|
  {
    hide Inv, IsRun;
    var n := |calm| - 1;
    RunKeeps(g, init, s, before, u);
    assert calm == calm[..n] + [CommitDone];
    var w := RunSplits(g, u, calm[..n], [CommitDone], v);
    RunKeeps(g, init, u, calm[..n], w);
    CommitMarks(g, init, w, v);
  }

  lemma CommitMarks(g: Geometry, init: Image, w: State, v: State)
    requires Inv(g, init, w) && IsRun(g, w, [CommitDone], v)
    ensures v.mark == |v.writes|
  {
    assert [CommitDone][1..] == [];
    assert Enabled(g, w, CommitDone) && v == Do(g, w, CommitDone);
  }

  /**
   * What is kept, exactly: after a crash the history is what was durable at the crash, and then grows by what
   * is issued.  Once the log is idle with no call under way, recovery replays all of it.
   */
  lemma HistorySinceCrash(g: Geometry, init: Image, s: State, before: seq<Step>, since: seq<Step>, t: State,
                          cuts: seq<nat>) returns (u: State)
    requires Boot(g, init, s) && IsRun(g, s, before + [Crash] + since, t) && NoCrash(since)
    ensures IsRun(g, s, before, u) && u.mark <= |u.writes|
    ensures var issued := Issued(CallsAfterAll(NOCALLS, before + [Crash]), since);
            && t.writes == u.writes[..u.mark] + issued
            && (t.phase.Idle? && t.ops == [] ==> Recovers(g, t.disk, cuts, Replay(init, u.writes[..u.mark] + issued)))
  {
    hide Boot, Recovers, Replay, Issued, CallsAfterAll, Tells, Inv;
    BootTells(g, init, s);
    var v := RunSplits(g, s, before + [Crash], since, t);
    u := RunSplits(g, s, before, [Crash], v);
    CrashForgets(g, u, v);
    RunTells(g, s, before + [Crash], v, NOCALLS);
    RunIssues(g, v, since, t, CallsAfterAll(NOCALLS, before + [Crash]));
    RecoversHistory(g, init, s, before + [Crash] + since, t, cuts);
  }

  lemma CrashForgets(g: Geometry, u: State, v: State)
    requires IsRun(g, u, [Crash], v)
    ensures u.mark <= |u.writes| && v.writes == u.writes[..u.mark]
  {
    assert [Crash][1..] == [];
  }

  /** A machine that has not crashed remembers all that was ever issued, shows it in the cache, and recovers it
      once its log is idle. */
  lemma NothingForgotten(g: Geometry, init: Image, s: State, steps: seq<Step>, t: State, cuts: seq<nat>)
    requires Boot(g, init, s) && IsRun(g, s, steps, t) && NoCrash(steps)
    ensures !t.phase.Recovering? ==>
              |t.view| == g.size == |init|
              && forall b :: IsHome(g, b) ==> t.view[b] == Replay(init, Issued(NOCALLS, steps))[b]
    ensures t.phase.Idle? && t.ops == [] ==> Recovers(g, t.disk, cuts, Replay(init, Issued(NOCALLS, steps)))
  {
    hide Enabled, Do, IsRun, Recovers, Issued;
    BootInv(g, init, s);
    RunKeeps(g, init, s, steps, t);
    BootTells(g, init, s);
    RunIssues(g, s, steps, t, NOCALLS);
    assert t.writes == Issued(NOCALLS, steps) by { assert s.writes == []; }
    RecoversHistory(g, init, s, steps, t, cuts);
  }

  /** Log reservation over every run: the header plus the unspent slots of all outstanding
      calls fits the log, so a call that has a slot left is never refused; and commit
      only ever runs with no call outstanding. */
  lemma RunsReserveSpace(g: Geometry, init: Image, s: State, steps: seq<Step>, t: State)
    requires Boot(g, init, s) && IsRun(g, s, steps, t)
    ensures |t.lh| + Unspent(t.ops) <= LOGBLOCKS
    ensures forall i: nat :: i < |t.ops| && t.ops[i].spent < MAXOPBLOCKS
              ==> LogOutcome(t.lh, |t.ops|) == Logged
    ensures !t.phase.Idle? ==> t.ops == []
    ensures forall i, j :: 0 <= i < j < |t.lh| ==> t.lh[i] != t.lh[j]
  {
    BootInv(g, init, s);
    RunKeeps(g, init, s, steps, t);
    forall i: nat | i < |t.ops| && t.ops[i].spent < MAXOPBLOCKS
      ensures LogOutcome(t.lh, |t.ops|) == Logged
    {
      RoomToLog(t, i);
    }
  }

  // ---------------------------------------------------------------------
  // A call is charged only for blocks it logs for the first time

  /** The blocks that a call has passed to log_write. */
  function BlocksOf(ws: seq<Write>, op: nat): set<int>
  {
    if |ws| == 0 then {}
    else
      var w := ws[|ws| - 1];
      BlocksOf(ws[..|ws| - 1], op) + if w.op == op then {w.block} else {}
  }

  ghost predicate Charged(s: State, op: Op)
  {
    op.spent <= |BlocksOf(s.writes, op.id)| && forall b :: b in BlocksOf(s.writes, op.id) ==> b in s.lh
  }

  ghost predicate AllCharged(s: State)
  {
    forall op :: op in s.ops ==> Charged(s, op)
  }

  lemma {:induction false} NoBlocksYet(ws: seq<Write>, op: nat)
    requires forall j :: 0 <= j < |ws| ==> ws[j].op < op
    ensures BlocksOf(ws, op) == {}
    decreases |ws|
  {
    if |ws| > 0 {
      NoBlocksYet(ws[..|ws| - 1], op);
    }
  }

  lemma ChargeOne(s: State, t: State, op: Op, op': Op, w: Write)
    requires Charged(s, op) && op'.id == op.id && t.writes == s.writes + [w] && t.lh == Absorb(s.lh, w.block)
    requires op'.spent <= op.spent || (op'.spent == op.spent + 1 && w.op == op.id && w.block !in s.lh)
    ensures Charged(t, op')
  {
    assert t.writes[..|s.writes|] == s.writes;
    var before := BlocksOf(s.writes, op.id);
    SubsetBound(before, before + {w.block});
    assert w.block !in before ==> |before + {w.block}| == |before| + 1;
  }

  lemma LogCharges(g: Geometry, s: State, i: nat, b: int, data: Block)
    requires AllCharged(s) && Enabled(g, s, LogWrite(i, b, data))
    ensures AllCharged(Do(g, s, LogWrite(i, b, data)))
  {
    hide BlocksOf, Charged;
    var t := Do(g, s, LogWrite(i, b, data));
    forall op | op in t.ops ensures Charged(t, op) {
      var k :| 0 <= k < |t.ops| && t.ops[k] == op;
      assert s.ops[k] in s.ops;
      ChargeOne(s, t, s.ops[k], op, Write(s.ops[i].id, b, data));
    }
  }

  lemma StepCharges(g: Geometry, init: Image, s: State, step: Step)
    requires Inv(g, init, s) && AllCharged(s) && Enabled(g, s, step)
    ensures AllCharged(Do(g, s, step))
  {
    var t := Do(g, s, step);
    match step {
      case BeginOp =>
        NoBlocksYet(s.writes, s.nextOp);
        forall op | op in t.ops ensures Charged(t, op) {
          assert op in s.ops ==> Charged(s, op);
        }
      case LogWrite(i, b, data) =>
        LogCharges(g, s, i, b, data);
      case EndOp(i) =>
        forall op | op in t.ops ensures Charged(t, op) {
          assert op in s.ops && Charged(s, op);
        }
      case _ =>
        assert t.ops == [];
    }
  }

  lemma {:induction false} RunCharges(g: Geometry, init: Image, s: State, steps: seq<Step>, t: State)
    requires Inv(g, init, s) && AllCharged(s) && IsRun(g, s, steps, t)
    ensures AllCharged(t)
    decreases |steps|
  {
    if |steps| > 0 {
      StepKeeps(g, init, s, steps[0]);
      StepCharges(g, init, s, steps[0]);
      RunCharges(g, init, Do(g, s, steps[0]), steps[1..], t);
    }
  }

  /** In every run a call that has logged fewer than MAXOPBLOCKS different blocks may call log_write
      again, whatever the others have logged: it is neither "too big a transaction" nor outside one. */
  lemma RunsAdmitReserved(g: Geometry, init: Image, s: State, steps: seq<Step>, t: State, i: nat, b: int, data: Block)
    requires Boot(g, init, s) && IsRun(g, s, steps, t)
    requires i < |t.ops| && |BlocksOf(t.writes, t.ops[i].id)| < MAXOPBLOCKS && IsHome(g, b)
    ensures Enabled(g, t, LogWrite(i, b, data)) && LogOutcome(t.lh, |t.ops|) == Logged
  {
    BootInv(g, init, s);
    RunKeeps(g, init, s, steps, t);
    RunCharges(g, init, s, steps, t);
    assert t.ops[i] in t.ops && Charged(t, t.ops[i]);
    RoomToLog(t, i);
  }

  /** No call of the run ever takes more than `most` log slots. */
  ghost predicate Modest(g: Geometry, s: State, steps: seq<Step>, most: nat)
    decreases |steps|
  {
    && (forall op :: op in s.ops ==> op.spent <= most)
    && (|steps| > 0 && Enabled(g, s, steps[0]) ==> Modest(g, Do(g, s, steps[0]), steps[1..], most))
  }

  lemma {:induction false} UnspentLeft(ops: seq<Op>, most: nat)
    requires most <= MAXOPBLOCKS && |ops| > 0 && forall op :: op in ops ==> op.spent <= most
    ensures Unspent(ops) >= MAXOPBLOCKS - most
    decreases |ops|
  {
    if |ops| > 1 {
      UnspentLeft(ops[..|ops| - 1], most);
    } else {
      assert ops[0] in ops;
    }
  }

  lemma {:induction false} RunLeavesRoom(g: Geometry, init: Image, s: State, steps: seq<Step>, t: State, most: nat)
    requires Inv(g, init, s) && IsRun(g, s, steps, t) && Modest(g, s, steps, most) && most <= MAXOPBLOCKS
    requires |s.lh| + MAXOPBLOCKS - most <= LOGBLOCKS
    ensures |t.lh| + MAXOPBLOCKS - most <= LOGBLOCKS
    decreases |steps|
  {
    if |steps| > 0 {
      var u := Do(g, s, steps[0]);
      StepKeeps(g, init, s, steps[0]);
      if steps[0].LogWrite? {
        UnspentLeft(u.ops, most);
      }
      RunLeavesRoom(g, init, u, steps[1..], t, most);
    }
  }

  /** If no call of a run takes all the slots reserved for it, the log is never full: what the last call to
      end did not use stays free. */
  lemma RunsLeaveRoom(g: Geometry, init: Image, s: State, steps: seq<Step>, t: State, most: nat)
    requires Boot(g, init, s) && IsRun(g, s, steps, t) && Modest(g, s, steps, most) && most <= MAXOPBLOCKS
    ensures |t.lh| + MAXOPBLOCKS - most <= LOGBLOCKS
  {
    BootInv(g, init, s);
    RunLeavesRoom(g, init, s, steps, t, most);
  }

  lemma NeverStuck(g: Geometry, t: State)
    requires Shape(g, t.view) && Shape(g, t.disk) && PhaseOk(g, t)
    ensures t.phase.Idle? ==> if t.ops == [] then Enabled(g, t, BeginOp) else Enabled(g, t, EndOp(0))
    ensures !t.phase.Idle? ==> Enabled(g, t, SectorIO) || Enabled(g, t, CommitDone) || Enabled(g, t, RecoveryDone)
  {
  }

  /** No reachable state is stuck: a busy disk can take its next sector write or finish,
      an outstanding call can end, and with none outstanding begin_op admits a new one. */
  lemma RunsNeverStuck(g: Geometry, init: Image, s: State, steps: seq<Step>, t: State)
    requires Boot(g, init, s) && IsRun(g, s, steps, t)
    ensures t.phase.Idle? ==> if t.ops == [] then Enabled(g, t, BeginOp) else Enabled(g, t, EndOp(0))
    ensures !t.phase.Idle? ==> Enabled(g, t, SectorIO) || Enabled(g, t, CommitDone) || Enabled(g, t, RecoveryDone)
  {
    BootInv(g, init, s);
    RunKeeps(g, init, s, steps, t);
    NeverStuck(g, t);
  }
}
