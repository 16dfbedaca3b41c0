/**
 * kernel/proc.c: fork, exit, wait, sleep and wakeup over the process table.
 *
 * Each method is a stretch of kernel code that runs with a lock held and does not sleep, which is
 * one atomic step on this single-CPU machine. RUNNABLE and RUNNING are one state here: which of
 * the runnable processes runs next makes no difference to what is stated.
 */
module Proc {
  datatype State = UNUSED | USED | SLEEPING | READY | ZOMBIE

  /** A sleep channel: the address of a process, used by kwait(), or of anything else. */
  datatype Chan = Nothing | Self(p: int) | Other(id: int)

  /** How far a process is in kfork(): the child has been allocated, or also has its parent set. */
  datatype Step = Idle | Allocated(np: int) | Adopted(np: int)

  /** `parent` is -1 for none; `maker` is the process whose kfork() is setting this one up. */
  datatype Process = Process(state: State, parent: int, pid: nat, chan: Chan, killed: bool, step: Step, maker: int)

  const EMPTY := Process(UNUSED, -1, 0, Nothing, false, Idle, -1)

  /** The process that userinit() makes. */
  const FIRST := Process(READY, -1, 1, Nothing, false, Idle, -1)

  type Table = seq<Process>

  predicate Alive(p: Process) {
    p.state == READY || p.state == SLEEPING
  }

  /** Asleep in kwait(), where sleep() was given the process's own address. */
  predicate Waiting(ps: Table, p: int) {
    0 <= p < |ps| && ps[p].state == SLEEPING && ps[p].chan == Self(p)
  }

  ghost predicate ParentOk(ps: Table, init: int, c: int)
    requires 0 <= c < |ps|
  {
    && -1 <= ps[c].parent < |ps|
    && (ps[c].parent >= 0 ==> Alive(ps[ps[c].parent]) && ps[c].state != UNUSED && ps[ps[c].parent].pid < ps[c].pid)
    && ((Alive(ps[c]) || ps[c].state == ZOMBIE) && c != init ==> ps[c].parent >= 0)
    && (ps[c].state == ZOMBIE ==> !Waiting(ps, ps[c].parent))
  }

  ghost predicate StepOk(ps: Table, p: int)
    requires 0 <= p < |ps|
  {
    match ps[p].step
    case Idle => true
    case Allocated(np) =>
      && ps[p].state == READY && 0 <= np < |ps| && ps[np].state == USED && ps[np].maker == p
      && ps[np].parent == -1 && ps[p].pid < ps[np].pid
    case Adopted(np) =>
      && ps[p].state == READY && 0 <= np < |ps| && ps[np].state == USED && ps[np].maker == p
      && ps[np].parent == p
  }

  ghost predicate PidOk(ps: Table, init: int, next: nat, c: int)
    requires 0 <= c < |ps| && 0 <= init < |ps|
  {
    && (ps[c].state == UNUSED <==> ps[c].pid == 0) && ps[c].pid < next
    && (ps[c].state != UNUSED && c != init ==> ps[init].pid < ps[c].pid)
    && (forall q :: ps[c].state == SLEEPING && ps[c].chan == Self(q) ==> q == c)
  }

  ghost predicate Ok(ps: Table, init: int, next: nat, c: int) {
    0 <= c < |ps| && 0 <= init < |ps| ==> ParentOk(ps, init, c) && StepOk(ps, c) && PidOk(ps, init, next, c)
  }

  ghost predicate Inv(ps: Table, init: int, next: nat) {
    && 0 <= init < |ps| && Alive(ps[init]) && ps[init].parent == -1
    && forall c :: Ok(ps, init, next, c)
  }

  // ---- What the steps do ----

  /** wakeup(): everyone asleep on the channel becomes runnable, and no one else changes. */
  ghost function Woken(ps: Table, chan: Chan): (r: Table)
    ensures |r| == |ps|
  {
    seq(|ps|, i requires 0 <= i < |ps| =>
      if ps[i].state == SLEEPING && ps[i].chan == chan then ps[i].(state := READY) else ps[i])
  }

  /** The children of `p` below slot `n` become init's. */
  ghost function Orphaned(ps: Table, p: int, init: int, n: nat): (r: Table)
    ensures |r| == |ps|
  {
    seq(|ps|, i requires 0 <= i < |ps| => if i < n && ps[i].parent == p then ps[i].(parent := init) else ps[i])
  }

  ghost predicate HasChild(ps: Table, p: int, n: nat) {
    exists c :: 0 <= c < n && c < |ps| && ps[c].parent == p
  }

  /** reparent() up to slot `n`: init is woken if it was given a child. */
  ghost function Reparented(ps: Table, p: int, init: int, n: nat): (r: Table)
    ensures |r| == |ps|
  {
    if HasChild(ps, p, n) then Woken(Orphaned(ps, p, init, n), Self(init)) else ps
  }

  /** One more slot of the table. */
  lemma ReparentedStep(ps: Table, p: int, init: int, n: nat)
    requires n < |ps| && p != init
    ensures var qs := Reparented(ps, p, init, n);
            && |qs| == |ps| && qs[n].parent == ps[n].parent
            && Reparented(ps, p, init, n + 1) ==
               if ps[n].parent == p then Woken(qs[n := qs[n].(parent := init)], Self(init)) else qs
  {
    var qs, rs := Reparented(ps, p, init, n), Reparented(ps, p, init, n + 1);
    if ps[n].parent == p {
      var us := Woken(qs[n := qs[n].(parent := init)], Self(init));
      assert HasChild(ps, p, n + 1);
      if !HasChild(ps, p, n) {
        assert forall c :: 0 <= c < n ==> ps[c].parent != p;
      }
      assert rs == us;
    } else {
      assert HasChild(ps, p, n + 1) <==> HasChild(ps, p, n);
      assert Orphaned(ps, p, init, n + 1) == Orphaned(ps, p, init, n);
    }
  }

  lemma WokenKeeps(ps: Table, init: int, next: nat, chan: Chan)
    requires Inv(ps, init, next)
    ensures Inv(Woken(ps, chan), init, next)
  {
    var qs := Woken(ps, chan);
    assert Ok(ps, init, next, init);
    forall c
      ensures Ok(qs, init, next, c)
    {
      assert Ok(ps, init, next, c);
      if 0 <= c < |ps| {
        assert ps[c].parent >= 0 ==> Alive(qs[ps[c].parent]);
      }
    }
  }

  class Procs {
    var procs: Table
    var nextpid: nat
    const init: int

    ghost predicate Valid()
      reads this
    {
      Inv(procs, init, nextpid)
    }

    function Now(): Shot
      reads this
    {
      Shot(procs, nextpid)
    }

    /** userinit(): the first process, which has no parent. */
    constructor (n: nat)
      requires n > 0
      ensures Valid() && init == 0 && Now() == Shot([FIRST] + seq(n - 1, _ => EMPTY), 2) && Unmarked(procs)
    {
      init := 0;
      nextpid := 2;
      procs := [FIRST] + seq(n - 1, _ => EMPTY);
      new;
      forall c ensures Ok(procs, init, nextpid, c) { }
    }

    /** Every process asleep on the channel becomes runnable, and nothing else changes. */
    method Wakeup(chan: Chan)
      modifies `procs
      ensures procs == Woken(old(procs), chan) && Roused(old(procs), chan, procs)
    {
      ghost var ps := procs;
      var i := 0;
      while i < |procs|
        invariant 0 <= i <= |procs| == |ps|
        invariant forall j :: 0 <= j < |ps| ==> procs[j] == if j < i then Woken(ps, chan)[j] else ps[j]
      {
        if procs[i].state == SLEEPING && procs[i].chan == chan {
          procs := procs[i := procs[i].(state := READY)];
        }
        i := i + 1;
      }
    }

    /** A process goes to sleep on something other than its own address. */
    method Sleep(p: int, id: int)
      requires Valid() && 0 <= p < |procs| && procs[p].state == READY && procs[p].step == Idle
      modifies `procs
      ensures Valid() && procs == old(procs)[p := old(procs)[p].(state := SLEEPING, chan := Other(id))]
    {
      ghost var ps := procs;
      procs := procs[p := procs[p].(chan := Other(id))];
      procs := procs[p := procs[p].(state := SLEEPING)];
      SleepKeeps(ps, init, nextpid, p, Other(id));
      assert procs == ps[p := ps[p].(state := SLEEPING, chan := Other(id))];
    }

    /**
     * The first part of kfork(), under the child's lock: the first free slot, a new pid and, if memory
     * suffices, a copy of the parent. Otherwise the slot is cleared by freeproc(). Nothing here clears
     * the slot's killed flag, so that the child has it as it was.
     */
    method ForkAlloc(p: int, memory: bool) returns (np: int)
      requires Valid() && 0 <= p < |procs| && procs[p].state == READY && procs[p].step == Idle
      modifies this
      ensures Valid() && |procs| == |old(procs)|
      ensures np >= 0 <==> memory && exists c :: 0 <= c < |procs| && old(procs)[c].state == UNUSED
      ensures np >= 0 ==> FirstUnused(old(procs), np) && np != p
      ensures np >= 0 ==> procs == old(procs)[np := NewChild(old(procs)[np], old(nextpid), p)]
                                             [p := old(procs)[p].(step := Allocated(np))]
      ensures np >= 0 ==> && procs[np].state == USED && procs[np].pid == old(nextpid) && nextpid == old(nextpid) + 1
                          && procs[np].parent == -1 && procs[np].killed == old(procs)[np].killed
      ensures (exists c :: 0 <= c < |procs| && old(procs)[c].state == UNUSED) ==> nextpid == old(nextpid) + 1
      ensures !memory ==> forall c :: FirstUnused(old(procs), c) ==> procs == old(procs)[c := EMPTY]
      ensures (forall c :: 0 <= c < |procs| ==> old(procs)[c].state != UNUSED) ==>
                procs == old(procs) && nextpid == old(nextpid)
    {
      ghost var ps := procs;
      np := 0;
      while np < |procs| && procs[np].state != UNUSED
        invariant 0 <= np <= |procs| && procs == ps && nextpid == old(nextpid)
        invariant forall c :: 0 <= c < np ==> procs[c].state != UNUSED
      {
        np := np + 1;
      }
      if np == |procs| {
        return -1;
      }
      LaterPids(ps, init, nextpid);
      var pid := nextpid;
      nextpid := nextpid + 1;
      if !memory {
        FreeKeeps(ps, init, nextpid, np);
        assert FirstUnused(ps, np);
        procs := procs[np := EMPTY];
        return -1;
      }
      AllocKeeps(ps, init, pid, p, np);
      procs := procs[np := NewChild(procs[np], pid, p)];
      procs := procs[p := procs[p].(step := Allocated(np))];
    }

    /** kill(0) finds the first free slot, whose pid is 0: the next process there is killed from the start. */
    method BornKilled(p: int) returns (np: int)
      requires Valid() && 0 <= p < |procs| && procs[p].state == READY && procs[p].step == Idle
      requires exists c :: 0 <= c < |procs| && procs[c].state == UNUSED
      modifies this
      ensures Valid() && 0 <= np < |procs| && procs[np].state == USED && procs[np].killed
    {
      hide Inv, FirstUnused, FirstPid;
      ghost var ps := procs;
      FreePids(ps, init, nextpid);
      var ok := Kill(0);
      ghost var c :| 0 <= c < |ps| && FirstPid(ps, 0, c) && procs == ps[c := Killed(ps[c])];
      MarkedSlot(ps, c, p);
      np := ForkAlloc(p, true);
      SameSlot(ps[c := Killed(ps[c])], c, np);
    }

    /** The second part, under wait_lock: the child gets its parent. */
    method ForkAdopt(p: int)
      requires Valid() && 0 <= p < |procs| && procs[p].step.Allocated?
      modifies `procs
      ensures Valid() && var np := old(procs)[p].step.np;
                         && 0 <= np < |old(procs)|
                         && procs == old(procs)[np := old(procs)[np].(parent := p)]
                                               [p := old(procs)[p].(step := Adopted(np))]
    {
      AdoptKeeps(procs, init, nextpid, p);
      var np := procs[p].step.np;
      procs := procs[np := procs[np].(parent := p)];
      procs := procs[p := procs[p].(step := Adopted(np))];
    }

    /** The last part, under the child's lock: the child may run. */
    method ForkReady(p: int) returns (pid: nat)
      requires Valid() && 0 <= p < |procs| && procs[p].step.Adopted?
      modifies `procs
      ensures Valid() && var np := old(procs)[p].step.np;
                         && 0 <= np < |old(procs)| && pid == old(procs)[np].pid && old(procs)[np].parent == p
                         && procs == old(procs)[np := old(procs)[np].(state := READY, maker := -1)]
                                               [p := old(procs)[p].(step := Idle)]
    {
      ReadyKeeps(procs, init, nextpid, p);
      assert Ok(procs, init, nextpid, p);
      var np := procs[p].step.np;
      pid := procs[np].pid;
      procs := procs[np := procs[np].(state := READY, maker := -1)];
      procs := procs[p := procs[p].(step := Idle)];
    }

    /** reparent(): every child of `p` goes to init, which is woken for each of them. */
    method Reparent(p: int)
      requires Valid() && 0 <= p < |procs| && p != init && procs[p].step == Idle
      modifies `procs
      ensures Valid() && |procs| == |old(procs)| && procs == Reparented(old(procs), p, init, |old(procs)|)
      ensures GivenAway(old(procs), p, init, procs)
    {
      hide Inv, Woken, Orphaned, GivenAway, Roused, HasChild;
      ghost var ps := procs;
      assert GivenAway(ps, p, init, Reparented(ps, p, init, |ps|)) by { ReparentedAll(ps, p, init, nextpid); }
      assert Reparented(ps, p, init, 0) == ps by { ReparentedNone(ps, p, init); }
      var i := 0;
      while i < |procs|
        invariant 0 <= i <= |procs| == |ps| && Valid() && procs[p].step == Idle
        invariant procs == Reparented(ps, p, init, i)
      {
        ReparentedStep(ps, p, init, i);
        assert Reparented(ps, p, init, i + 1)[p].step == Idle by { ReparentedFrame(ps, p, init, i + 1); }
        if procs[i].parent == p {
          GiveKeeps(procs, init, nextpid, p, i);
          procs := procs[i := procs[i].(parent := init)];
          Wakeup(Self(init));
        }
        i := i + 1;
      }
    }

    /** The last part of kexit(), under wait_lock: no child is left behind and the parent is woken. */
    method Exit(p: int)
      requires Valid() && 0 <= p < |procs| && p != init && procs[p].state == READY && procs[p].step == Idle
      modifies `procs
      ensures Valid() && procs == Exited(old(procs), p, init)
      ensures |procs| == |old(procs)| && procs[p] == old(procs)[p].(state := ZOMBIE) && !Waiting(procs, procs[p].parent)
      ensures forall c :: 0 <= c < |procs| ==>
                procs[c].parent == (if old(procs)[c].parent == p then init else old(procs)[c].parent)
      ensures (exists c :: 0 <= c < |procs| && old(procs)[c].parent == p) ==> !Waiting(procs, init)
      ensures forall c :: 0 <= c < |procs| && c != p ==>
                && procs[c] == old(procs)[c].(parent := procs[c].parent, state := procs[c].state)
                && (procs[c].state != old(procs)[c].state ==>
                      Waiting(old(procs), c) && procs[c].state == READY && (c == init || c == old(procs)[p].parent))
    {
      ghost var ps := procs;
      ExitedFrame(ps, init, nextpid, p);
      ReparentedFrame(ps, p, init, |ps|);
      Reparent(p);
      assert Ok(procs, init, nextpid, p);
      WokenKeeps(procs, init, nextpid, Self(procs[p].parent));
      Wakeup(Self(procs[p].parent));
      ExitKeeps(procs, init, nextpid, p);
      procs := procs[p := procs[p].(state := ZOMBIE)];
    }

    /** One round of kwait(): reap a zombie child, give up, or sleep because none has exited yet. */
    method Wait(p: int, fault: bool) returns (r: Reply)
      requires Valid() && 0 <= p < |procs| && procs[p].state == READY && procs[p].step == Idle
      modifies `procs
      ensures Valid() && |procs| == |old(procs)|
      ensures r.Reaped? ==>
                0 <= r.child < |procs| && old(procs)[r.child].state == ZOMBIE && old(procs)[r.child].parent == p
                            && r.pid == old(procs)[r.child].pid && procs == old(procs)[r.child := EMPTY]
                            && forall c :: 0 <= c < r.child ==> !ZombieOf(old(procs), p, c)
      ensures r == Nobody ==>
                procs == old(procs) && (procs[p].killed || forall c :: 0 <= c < |procs| ==> procs[c].parent != p)
      ensures r == Faulted ==> procs == old(procs)
      ensures var zombie := exists c :: ZombieOf(old(procs), p, c);
              && (r.Reaped? <==> zombie && !fault) && (r == Faulted <==> zombie && fault)
      ensures r == Asleep ==> && procs == old(procs)[p := old(procs)[p].(state := SLEEPING, chan := Self(p))]
                              && !old(procs)[p].killed && exists c :: 0 <= c < |procs| && procs[c].parent == p
      ensures r == Asleep || r == Nobody ==>
                forall c :: 0 <= c < |procs| && procs[c].parent == p ==> procs[c].state != ZOMBIE
    {
      ghost var ps := procs;
      var havekids := false;
      ghost var kid := 0;
      var pp := 0;
      while pp < |procs|
        invariant 0 <= pp <= |procs| && procs == ps
        invariant havekids ==> 0 <= kid < |procs| && procs[kid].parent == p
        invariant forall c :: 0 <= c < pp && procs[c].parent == p ==> havekids && procs[c].state != ZOMBIE
        invariant forall c :: 0 <= c < pp ==> !ZombieOf(ps, p, c)
      {
        if procs[pp].parent == p {
          havekids, kid := true, pp;
          if procs[pp].state == ZOMBIE {
            assert ZombieOf(ps, p, pp);
            if fault {
              return Faulted;
            }
            r := Reaped(pp, procs[pp].pid);
            FreeKeeps(ps, init, nextpid, pp);
            procs := procs[pp := EMPTY];
            return;
          }
        }
        pp := pp + 1;
      }
      if !havekids || procs[p].killed {
        return Nobody;
      }
      SleepKeeps(ps, init, nextpid, p, Self(p));
      procs := procs[p := procs[p].(state := SLEEPING, chan := Self(p))];
      assert procs[kid].parent == p;
      return Asleep;
    }

    /** kkill(): the first process with the pid is marked, and woken if it sleeps. */
    method Kill(pid: nat) returns (ok: bool)
      requires Valid()
      modifies `procs
      ensures Valid() && |procs| == |old(procs)|
      ensures ok <==> exists c :: 0 <= c < |procs| && old(procs)[c].pid == pid
      ensures !ok ==> procs == old(procs)
      ensures ok ==> exists c :: && 0 <= c < |procs| && FirstPid(old(procs), pid, c)
                                 && procs == old(procs)[c := Killed(old(procs)[c])]
                                 && procs[c].killed && procs[c].state != SLEEPING
                                 && procs[c] == old(procs)[c].(killed := true, state := procs[c].state)
                                 && (old(procs)[c].state == SLEEPING ==> procs[c].state == READY)
                                 && (old(procs)[c].state != SLEEPING ==> procs[c].state == old(procs)[c].state)
    {
      ghost var ps := procs;
      var i := 0;
      while i < |procs|
        invariant 0 <= i <= |procs| && procs == ps
        invariant forall c :: 0 <= c < i ==> procs[c].pid != pid
      {
        if procs[i].pid == pid {
          KillKeeps(ps, init, nextpid, i);
          procs := procs[i := procs[i].(killed := true)];
          if procs[i].state == SLEEPING {
            procs := procs[i := procs[i].(state := READY)];
          }
          assert FirstPid(ps, pid, i) && procs == ps[i := Killed(ps[i])];
          return true;
        }
        i := i + 1;
      }
      return false;
    }
  }

  ghost predicate FirstUnused(ps: Table, f: int) {
    0 <= f < |ps| && ps[f].state == UNUSED && forall c :: 0 <= c < f ==> ps[c].state != UNUSED
  }

  ghost predicate FirstPid(ps: Table, pid: nat, f: int) {
    0 <= f < |ps| && ps[f].pid == pid && forall c :: 0 <= c < f ==> ps[c].pid != pid
  }

  /** What allocproc() and kfork() make of a free slot. */
  function NewChild(slot: Process, pid: nat, maker: int): Process {
    Process(USED, -1, pid, Nothing, slot.killed, Idle, maker)
  }

  /** Free slots and only they have pid 0. */
  lemma FreePids(ps: Table, init: int, next: nat)
    requires Inv(ps, init, next)
    ensures forall c :: 0 <= c < |ps| ==> (ps[c].state == UNUSED <==> ps[c].pid == 0)
    ensures forall c :: FirstPid(ps, 0, c) <==> FirstUnused(ps, c)
  {
    forall c | 0 <= c < |ps| ensures ps[c].state == UNUSED <==> ps[c].pid == 0 {
      assert Ok(ps, init, next, c);
    }
  }

  lemma MarkedSlot(ps: Table, c: int, p: int)
    requires FirstUnused(ps, c) && 0 <= p < |ps| && ps[p].state == READY
    ensures 0 <= c < |ps| && c != p && ps[c := Killed(ps[c])][p] == ps[p]
    ensures FirstUnused(ps[c := Killed(ps[c])], c) && ps[c := Killed(ps[c])][c].state == UNUSED
  {
  }

  lemma {:induction false} FirstSlot(ps: Table, n: nat)
    requires n <= |ps| && forall c :: 0 <= c < n ==> ps[c].state != UNUSED
    ensures (exists c :: FirstUnused(ps, c)) || forall c :: 0 <= c < |ps| ==> ps[c].state != UNUSED
    decreases |ps| - n
  {
    if n < |ps| {
      if ps[n].state == UNUSED {
        assert FirstUnused(ps, n);
      } else {
        FirstSlot(ps, n + 1);
      }
    }
  }

  lemma SameSlot(ps: Table, c: int, d: int)
    requires FirstUnused(ps, c) && FirstUnused(ps, d)
    ensures c == d
  {
  }

  /** No free slot carries the killed flag. */
  ghost predicate Unmarked(ps: Table) {
    forall c :: 0 <= c < |ps| && ps[c].state == UNUSED ==> !ps[c].killed
  }

  lemma ExitedUnmarked(ps: Table, p: int, init: int)
    requires 0 <= p < |ps| && Unmarked(ps)
    ensures Unmarked(Exited(ps, p, init))
  {
    hide HasChild;
  }

  datatype Reply = Reaped(child: int, pid: nat) | Nobody | Faulted | Asleep

  ghost predicate ZombieOf(ps: Table, p: int, c: int) {
    0 <= c < |ps| && ps[c].state == ZOMBIE && ps[c].parent == p
  }

  /** A killed process is marked, and woken if it was asleep. */
  function Killed(p: Process): Process {
    p.(killed := true, state := if p.state == SLEEPING then READY else p.state)
  }

  /** What kexit() leaves behind: children with init, the parent awake, a zombie. */
  ghost function Exited(ps: Table, p: int, init: int): Table
    requires 0 <= p < |ps|
  {
    var qs := Reparented(ps, p, init, |ps|);
    var woken := Woken(qs, Self(qs[p].parent));
    woken[p := woken[p].(state := ZOMBIE)]
  }

  lemma ReparentedFrame(ps: Table, p: int, init: int, n: nat)
    ensures var qs := Reparented(ps, p, init, n);
            && |qs| == |ps|
            && forall c :: 0 <= c < |ps| ==>
                 && qs[c].parent == (if c < n && ps[c].parent == p then init else ps[c].parent)
                 && qs[c].pid == ps[c].pid && qs[c].step == ps[c].step
                 && (qs[c].state == ps[c].state || (ps[c].state == SLEEPING && qs[c].state == READY))
  {
    if !HasChild(ps, p, n) {
      assert forall c :: 0 <= c < n && c < |ps| ==> ps[c].parent != p;
    }
  }

  /** Who is woken by an exit, and what else changes. */
  lemma ExitedFrame(ps: Table, init: int, next: nat, p: int)
    requires Inv(ps, init, next) && 0 <= p < |ps| && p != init && ps[p].state == READY
    ensures var qs := Exited(ps, p, init);
            && |qs| == |ps| && qs[p] == ps[p].(state := ZOMBIE)
            && ((exists c :: 0 <= c < |ps| && ps[c].parent == p) ==> !Waiting(qs, init))
            && forall c :: 0 <= c < |ps| && c != p ==>
                 && qs[c] == ps[c].(parent := qs[c].parent, state := qs[c].state)
                 && (qs[c].state != ps[c].state ==>
                       Waiting(ps, c) && qs[c].state == READY && (c == init || c == ps[p].parent))
  {
    forall c | 0 <= c < |ps| && c != p && ps[c].state == SLEEPING && ps[c].chan.Self? ensures ps[c].chan.p == c {
      assert Ok(ps, init, next, c);
    }
    assert Ok(ps, init, next, p) && ps[p].parent != p;
    assert Reparented(ps, p, init, |ps|)[p] == ps[p];
    hide Inv, Ok, Reparented;
    ReparentedWakes(ps, p, init);
    if c :| 0 <= c < |ps| && ps[c].parent == p {
      assert HasChild(ps, p, |ps|);
    }
  }

  /** Exactly the children of `p` have become init's, and init is awake if it was given any; nothing else is
      different. */
  ghost predicate GivenAway(ps: Table, p: int, init: int, qs: Table) {
    && |qs| == |ps| && ((exists c :: 0 <= c < |ps| && ps[c].parent == p) ==> !Waiting(qs, init))
    && forall c :: 0 <= c < |ps| ==>
         && qs[c].parent == (if ps[c].parent == p then init else ps[c].parent)
         && qs[c] == ps[c].(parent := qs[c].parent, state := qs[c].state)
         && (qs[c].state != ps[c].state ==> Waiting(ps, c) && c == init && qs[c].state == READY)
  }

  lemma ReparentedAll(ps: Table, p: int, init: int, next: nat)
    requires Inv(ps, init, next)
    ensures GivenAway(ps, p, init, Reparented(ps, p, init, |ps|))
  {
    forall c | 0 <= c < |ps| && ps[c].state == SLEEPING && ps[c].chan.Self? ensures ps[c].chan.p == c {
      assert Ok(ps, init, next, c);
    }
    hide Inv, Ok, Reparented;
    ReparentedWakes(ps, p, init);
    if c :| 0 <= c < |ps| && ps[c].parent == p {
      assert HasChild(ps, p, |ps|);
    }
  }

  lemma ReparentedNone(ps: Table, p: int, init: int)
    ensures Reparented(ps, p, init, 0) == ps
  {
  }

  lemma ReparentedWakes(ps: Table, p: int, init: int)
    ensures var qs := Reparented(ps, p, init, |ps|);
            forall c :: 0 <= c < |ps| ==>
              qs[c] == ps[c].(parent := if ps[c].parent == p then init else ps[c].parent,
                              state := if HasChild(ps, p, |ps|) && ps[c].state == SLEEPING && ps[c].chan == Self(init)
                                       then READY else ps[c].state)
  {
  }

  lemma LaterPids(ps: Table, init: int, next: nat)
    requires Inv(ps, init, next)
    ensures Inv(ps, init, next + 1)
  {
    var later := next + 1;
    forall c ensures Ok(ps, init, later, c) { assert Ok(ps, init, next, c); }
  }

  lemma AllocKeeps(ps: Table, init: int, pid: nat, p: int, np: int)
    requires Inv(ps, init, pid) && 0 <= p < |ps| && ps[p].state == READY && ps[p].step == Idle
    requires 0 <= np < |ps| && ps[np].state == UNUSED
    ensures Inv(ps[np := NewChild(ps[np], pid, p)][p := ps[p].(step := Allocated(np))], init, pid + 1)
  {
    var qs := ps[np := NewChild(ps[np], pid, p)][p := ps[p].(step := Allocated(np))];
    var next := pid + 1;
    assert Ok(ps, init, pid, init) && Ok(ps, init, pid, p);
    forall c
      ensures Ok(qs, init, next, c)
    {
      assert Ok(ps, init, pid, c);
    }
  }

  lemma AdoptKeeps(ps: Table, init: int, next: nat, p: int)
    requires Inv(ps, init, next) && 0 <= p < |ps| && ps[p].step.Allocated?
    ensures var np := ps[p].step.np;
            && 0 <= np < |ps| && np != p
            && Inv(ps[np := ps[np].(parent := p)][p := ps[p].(step := Adopted(np))], init, next)
  {
    assert Ok(ps, init, next, p);
    var np := ps[p].step.np;
    var qs := ps[np := ps[np].(parent := p)][p := ps[p].(step := Adopted(np))];
    forall c
      ensures Ok(qs, init, next, c)
    {
      assert Ok(ps, init, next, c);
    }
  }

  lemma ReadyKeeps(ps: Table, init: int, next: nat, p: int)
    requires Inv(ps, init, next) && 0 <= p < |ps| && ps[p].step.Adopted?
    ensures var np := ps[p].step.np;
            && 0 <= np < |ps| && np != p
            && Inv(ps[np := ps[np].(state := READY, maker := -1)][p := ps[p].(step := Idle)], init, next)
  {
    assert Ok(ps, init, next, p);
    var np := ps[p].step.np;
    var qs := ps[np := ps[np].(state := READY, maker := -1)][p := ps[p].(step := Idle)];
    forall c
      ensures Ok(qs, init, next, c)
    {
      assert Ok(ps, init, next, c);
    }
  }

  lemma GiveKeeps(ps: Table, init: int, next: nat, p: int, i: int)
    requires Inv(ps, init, next) && 0 <= p < |ps| && p != init && ps[p].step == Idle && 0 <= i < |ps|
    requires ps[i].parent == p
    ensures Inv(Woken(ps[i := ps[i].(parent := init)], Self(init)), init, next)
  {
    var qs := Woken(ps[i := ps[i].(parent := init)], Self(init));
    assert Ok(ps, init, next, init) && Ok(ps, init, next, i);
    forall c
      ensures Ok(qs, init, next, c)
    {
      assert Ok(ps, init, next, c);
    }
  }

  lemma ExitKeeps(ps: Table, init: int, next: nat, p: int)
    requires Inv(ps, init, next) && 0 <= p < |ps| && p != init && ps[p].state == READY && ps[p].step == Idle
    requires !Waiting(ps, ps[p].parent) && forall c :: 0 <= c < |ps| ==> ps[c].parent != p
    ensures Inv(ps[p := ps[p].(state := ZOMBIE)], init, next)
  {
    var qs := ps[p := ps[p].(state := ZOMBIE)];
    forall c
      ensures Ok(qs, init, next, c)
    {
      assert Ok(ps, init, next, c);
    }
  }

  lemma FreeKeeps(ps: Table, init: int, next: nat, pp: int)
    requires Inv(ps, init, next) && 0 <= pp < |ps| && (ps[pp].state == ZOMBIE || ps[pp].state == UNUSED)
    ensures Inv(ps[pp := EMPTY], init, next)
  {
    var qs := ps[pp := EMPTY];
    forall c
      ensures Ok(qs, init, next, c)
    {
      assert Ok(ps, init, next, c);
    }
  }

  lemma KillKeeps(ps: Table, init: int, next: nat, i: int)
    requires Inv(ps, init, next) && 0 <= i < |ps|
    ensures Inv(ps[i := Killed(ps[i])], init, next)
  {
    var qs := ps[i := Killed(ps[i])];
    forall c
      ensures Ok(qs, init, next, c)
    {
      assert Ok(ps, init, next, c);
    }
  }

  /** Going to sleep is safe unless it is in kwait() with a zombie child. */
  lemma SleepKeeps(ps: Table, init: int, next: nat, p: int, chan: Chan)
    requires Inv(ps, init, next) && 0 <= p < |ps| && ps[p].state == READY && ps[p].step == Idle
    requires chan.Self? ==> chan.p == p && forall c :: 0 <= c < |ps| && ps[c].parent == p ==> ps[c].state != ZOMBIE
    ensures Inv(ps[p := ps[p].(state := SLEEPING, chan := chan)], init, next)
  {
    var qs := ps[p := ps[p].(state := SLEEPING, chan := chan)];
    forall c
      ensures Ok(qs, init, next, c)
    {
      assert Ok(ps, init, next, c) && Ok(ps, init, next, init);
    }
  }

  // ---- What holds between any two steps ----

  /** Following parents from `c` for `k` steps ends at init. */
  ghost predicate Ancestry(ps: Table, init: int, c: int, k: nat)
    decreases k
  {
    if k == 0 then c == init else 0 <= c < |ps| && Ancestry(ps, init, ps[c].parent, k - 1)
  }

  /** Every process that has been started, and is not init, leads to init through its parents. */
  lemma {:induction false} ChainToInit(ps: Table, init: int, next: nat, c: int) returns (k: nat)
    requires Inv(ps, init, next) && 0 <= c < |ps| && (Alive(ps[c]) || ps[c].state == ZOMBIE)
    ensures Ancestry(ps, init, c, k) && k <= ps[c].pid
    decreases ps[c].pid
  {
    if c == init {
      k := 0;
    } else {
      assert Ok(ps, init, next, c);
      var k' := ChainToInit(ps, init, next, ps[c].parent);
      k := k' + 1;
    }
  }

  /** Process `a` is `k` generations above the parent of `c`. */
  ghost predicate Above(ps: Table, c: int, a: int, k: nat)
    decreases k
  {
    0 <= c < |ps| && ps[c].parent >= 0 && (if k == 0 then ps[c].parent == a else Above(ps, ps[c].parent, a, k - 1))
  }

  /** An ancestor is older, so no process is its own ancestor. */
  lemma {:induction false} NoCycle(ps: Table, init: int, next: nat, c: int, a: int, k: nat)
    requires Inv(ps, init, next) && Above(ps, c, a, k)
    ensures 0 <= a < |ps| && ps[a].pid < ps[c].pid && a != c
    decreases k
  {
    assert Ok(ps, init, next, c);
    if k > 0 {
      NoCycle(ps, init, next, ps[c].parent, a, k - 1);
    }
  }

  /** A process asleep in kwait() has no zombie to reap, and parents are neither zombies nor unused. */
  lemma Safety(ps: Table, init: int, next: nat, c: int)
    requires Inv(ps, init, next) && 0 <= c < |ps| && ps[c].parent >= 0
    ensures ps[c].parent < |ps| && ps[ps[c].parent].state != ZOMBIE && ps[ps[c].parent].state != UNUSED
    ensures Waiting(ps, ps[c].parent) ==> ps[c].state != ZOMBIE
  {
    assert Ok(ps, init, next, c);
  }

  datatype Event =
    | DoFork(p: int, memory: bool)
    | DoAdopt(p: int)
    | DoReady(p: int)
    | DoExit(p: int)
    | DoWait(p: int, fault: bool)
    | DoSleep(p: int, id: int)
    | DoWakeup(id: int)
    | DoKill(pid: nat)

  /** The process table between two steps. */
  datatype Shot = Shot(procs: Table, nextpid: nat)

  /** What a step answers; one that is not enabled is skipped. */
  datatype Answer = Skipped | Moved | Forked(np: int) | Child(pid: nat) | Waited(r: Reply) | Found(ok: bool)

  /** A process about to make a system call. */
  predicate Acting(ps: Table, p: int) {
    0 <= p < |ps| && ps[p].state == READY && ps[p].step == Idle
  }

  ghost predicate ForkOk(a: Shot, p: int, memory: bool, np: int, b: Shot)
    requires Acting(a.procs, p)
  {
    if forall c :: 0 <= c < |a.procs| ==> a.procs[c].state != UNUSED then np < 0 && b == a
    else
      && b.nextpid == a.nextpid + 1 && (np >= 0 <==> memory)
      && exists f :: && FirstUnused(a.procs, f) && (memory ==> np == f)
                     && b.procs == if memory
                                   then a.procs[f := Process(USED, -1, a.nextpid, Nothing, a.procs[f].killed, Idle, p)]
                                               [p := a.procs[p].(step := Allocated(f))]
                                   else a.procs[f := EMPTY]
  }

  ghost predicate ExitOk(ps: Table, p: int, init: int, qs: Table)
    requires 0 <= p < |ps|
  {
    && |qs| == |ps| && qs[p] == ps[p].(state := ZOMBIE) && !Waiting(qs, ps[p].parent)
    && ((exists c :: 0 <= c < |ps| && ps[c].parent == p) ==> !Waiting(qs, init))
    && forall c :: 0 <= c < |ps| && c != p ==>
         && qs[c].parent == (if ps[c].parent == p then init else ps[c].parent)
         && qs[c] == ps[c].(parent := qs[c].parent, state := qs[c].state)
         && (qs[c].state != ps[c].state ==>
               Waiting(ps, c) && qs[c].state == READY && (c == init || c == ps[p].parent))
  }

  ghost predicate WaitOk(ps: Table, p: int, fault: bool, r: Reply, qs: Table)
    requires 0 <= p < |ps|
  {
    if exists c :: ZombieOf(ps, p, c) then
      if fault then r == Faulted && qs == ps
      else && r.Reaped? && ZombieOf(ps, p, r.child) && r.pid == ps[r.child].pid && qs == ps[r.child := EMPTY]
           && forall c :: 0 <= c < r.child ==> !ZombieOf(ps, p, c)
    else if ps[p].killed || forall c :: 0 <= c < |ps| ==> ps[c].parent != p then r == Nobody && qs == ps
    else r == Asleep && qs == ps[p := ps[p].(state := SLEEPING, chan := Self(p))]
  }

  ghost predicate KillOk(ps: Table, pid: nat, ok: bool, qs: Table) {
    if exists c :: 0 <= c < |ps| && ps[c].pid == pid then
      ok && exists c :: && FirstPid(ps, pid, c)
                        && qs == ps[c := ps[c].(killed := true, state := if ps[c].state == SLEEPING then READY
                                                                         else ps[c].state)]
    else !ok && qs == ps
  }

  /** What each step does to the table. */
  ghost predicate Does(a: Shot, init: int, e: Event, ans: Answer, b: Shot) {
    match e
    case DoFork(p, memory) =>
      if Acting(a.procs, p) then ans.Forked? && ForkOk(a, p, memory, ans.np, b) else ans == Skipped && b == a
    case DoAdopt(p) =>
      if 0 <= p < |a.procs| && a.procs[p].step.Allocated? then
        var np := a.procs[p].step.np;
        && 0 <= np < |a.procs| && ans == Moved
        && b == a.(procs := a.procs[np := a.procs[np].(parent := p)][p := a.procs[p].(step := Adopted(np))])
      else ans == Skipped && b == a
    case DoReady(p) =>
      if 0 <= p < |a.procs| && a.procs[p].step.Adopted? then
        var np := a.procs[p].step.np;
        && 0 <= np < |a.procs| && ans == Child(a.procs[np].pid)
        && b == a.(procs := a.procs[np := a.procs[np].(state := READY, maker := -1)][p := a.procs[p].(step := Idle)])
      else ans == Skipped && b == a
    case DoExit(p) =>
      if Acting(a.procs, p) && p != init then
        ans == Moved && b.nextpid == a.nextpid && ExitOk(a.procs, p, init, b.procs)
      else ans == Skipped && b == a
    case DoWait(p, fault) =>
      if Acting(a.procs, p) then ans.Waited? && b.nextpid == a.nextpid && WaitOk(a.procs, p, fault, ans.r, b.procs)
      else ans == Skipped && b == a
    case DoSleep(p, id) =>
      if Acting(a.procs, p) then
        ans == Moved && b == a.(procs := a.procs[p := a.procs[p].(state := SLEEPING, chan := Other(id))])
      else ans == Skipped && b == a
    case DoWakeup(id) => ans == Moved && b.nextpid == a.nextpid && Roused(a.procs, Other(id), b.procs)
    case DoKill(pid) => ans.Found? && b.nextpid == a.nextpid && KillOk(a.procs, pid, ans.ok, b.procs)
  }

  /** Whoever slept on the channel is runnable, and nothing else is different. */
  ghost predicate Roused(ps: Table, chan: Chan, qs: Table) {
    && |qs| == |ps|
    && forall c :: 0 <= c < |ps| ==>
         qs[c] == if ps[c].state == SLEEPING && ps[c].chan == chan then ps[c].(state := READY) else ps[c]
  }

  /** The first process with this pid, if there is one, is the one at `c`. */
  ghost predicate Kills(ps: Table, e: Event, c: int) {
    e.DoKill? && FirstPid(ps, e.pid, c)
  }

  /** A process asleep on something other than its children wakes up by a wakeup on that channel or by a kill,
      and by nothing else; a process that has gone to sleep was told to. */
  ghost predicate SleeperOk(ps: Table, e: Event, qs: Table, c: int) {
    0 <= c < |ps| == |qs| ==>
      && (ps[c].state == SLEEPING && ps[c].chan.Other? ==>
            if e == DoWakeup(ps[c].chan.id) || Kills(ps, e, c) then qs[c].state == READY
            else qs[c].state == SLEEPING && qs[c].chan == ps[c].chan)
      && (qs[c].state == SLEEPING && qs[c].chan.Other? ==>
            (ps[c].state == SLEEPING && ps[c].chan == qs[c].chan) || e == DoSleep(c, qs[c].chan.id))
  }

  /** One event, as seen by the processes asleep. */
  ghost predicate EventOk(ps: Table, e: Event, qs: Table) {
    |qs| == |ps| && forall c :: SleeperOk(ps, e, qs, c)
  }

  /** Nobody falls asleep on a channel or wakes from it. */
  lemma NoSleepers(ps: Table, e: Event, qs: Table)
    requires |qs| == |ps| && !e.DoWakeup? && !e.DoKill? && !e.DoSleep?
    requires forall c :: 0 <= c < |ps| ==>
               qs[c].(parent := -1, step := Idle) == ps[c].(parent := -1, step := Idle)
               || ((ps[c].state != SLEEPING || ps[c].chan.Self?) && (qs[c].state != SLEEPING || qs[c].chan.Self?))
    ensures EventOk(ps, e, qs)
  {
    forall c ensures SleeperOk(ps, e, qs, c) { }
  }

  method AllocStep(t: Procs, e: Event) returns (ans: Answer)
    requires t.Valid() && e.DoFork?
    modifies t
    ensures t.Valid() && EventOk(old(t.procs), e, t.procs) && Does(old(t.Now()), t.init, e, ans, t.Now())
    ensures old(Unmarked(t.procs)) ==> Unmarked(t.procs)
  {
    hide Inv, EventOk;
    ghost var ps := t.procs;
    ans := Skipped;
    if Acting(t.procs, e.p) {
      FirstSlot(t.procs, 0);
      var np := t.ForkAlloc(e.p, e.memory);
      ans := Forked(np);
    }
    NoSleepers(ps, e, t.procs);
  }

  method ForkStep(t: Procs, e: Event) returns (ans: Answer)
    requires t.Valid() && (e.DoAdopt? || e.DoReady?)
    modifies t
    ensures t.Valid() && EventOk(old(t.procs), e, t.procs) && Does(old(t.Now()), t.init, e, ans, t.Now())
    ensures old(Unmarked(t.procs)) ==> Unmarked(t.procs)
  {
    hide Inv, EventOk;
    ghost var ps := t.procs;
    ans := Skipped;
    if e.DoAdopt? && 0 <= e.p < |t.procs| && t.procs[e.p].step.Allocated? {
      StepReady(t.procs, t.init, t.nextpid, e.p);
      t.ForkAdopt(e.p);
      ans := Moved;
    } else if e.DoReady? && 0 <= e.p < |t.procs| && t.procs[e.p].step.Adopted? {
      StepReady(t.procs, t.init, t.nextpid, e.p);
      var pid := t.ForkReady(e.p);
      ans := Child(pid);
    }
    NoSleepers(ps, e, t.procs);
  }

  method WaitStep(t: Procs, e: Event) returns (ans: Answer)
    requires t.Valid() && (e.DoExit? || e.DoWait?)
    modifies t
    ensures t.Valid() && EventOk(old(t.procs), e, t.procs) && Does(old(t.Now()), t.init, e, ans, t.Now())
    ensures old(Unmarked(t.procs)) ==> Unmarked(t.procs)
  {
    hide Inv, EventOk, Exited, HasChild;
    ghost var ps := t.procs;
    ans := Skipped;
    if Acting(t.procs, e.p) {
      if e.DoWait? {
        var r := t.Wait(e.p, e.fault);
        ans := Waited(r);
      } else if e.p != t.init {
        if Unmarked(ps) {
          ExitedUnmarked(ps, e.p, t.init);
        }
        t.Exit(e.p);
        ans := Moved;
      }
    }
    NoSleepers(ps, e, t.procs);
  }

  method WakeStep(t: Procs, e: Event) returns (ans: Answer)
    requires t.Valid() && (e.DoSleep? || e.DoWakeup? || e.DoKill?)
    modifies t
    ensures t.Valid() && EventOk(old(t.procs), e, t.procs) && Does(old(t.Now()), t.init, e, ans, t.Now())
    ensures e != DoKill(0) && old(Unmarked(t.procs)) ==> Unmarked(t.procs)
  {
    hide Inv, Woken;
    FreePids(t.procs, t.init, t.nextpid);
    ghost var ps := t.procs;
    ans := Moved;
    match e
    case DoSleep(p, id) =>
      if Acting(t.procs, p) {
        t.Sleep(p, id);
      } else {
        ans := Skipped;
      }
    case DoWakeup(id) =>
      WokenKeeps(t.procs, t.init, t.nextpid, Other(id));
      t.Wakeup(Other(id));
    case DoKill(pid) =>
      var ok := t.Kill(pid);
      ans := Found(ok);
  }

  /** One step of any process; a step that is not enabled is skipped. */
  method Do(t: Procs, e: Event) returns (ans: Answer)
    requires t.Valid()
    modifies t
    ensures t.Valid() && EventOk(old(t.procs), e, t.procs) && Does(old(t.Now()), t.init, e, ans, t.Now())
    ensures e != DoKill(0) && old(Unmarked(t.procs)) ==> Unmarked(t.procs)
  {
    hide Inv, EventOk, Unmarked, Does;
    match e
    case DoFork(_, _) => ans := AllocStep(t, e);
    case DoAdopt(_) => ans := ForkStep(t, e);
    case DoReady(_) => ans := ForkStep(t, e);
    case DoExit(_) => ans := WaitStep(t, e);
    case DoWait(_, _) => ans := WaitStep(t, e);
    case DoSleep(_, _) => ans := WakeStep(t, e);
    case DoWakeup(_) => ans := WakeStep(t, e);
    case DoKill(_) => ans := WakeStep(t, e);
  }

  lemma StepReady(ps: Table, init: int, next: nat, p: int)
    requires Inv(ps, init, next) && 0 <= p < |ps| && ps[p].step != Idle
    ensures ps[p].state == READY && 0 <= ps[p].step.np < |ps| && ps[ps[p].step.np].state == USED
  {
    assert Ok(ps, init, next, p);
  }

  /** The events with these answers go through these tables, all of them sound. */
  ghost predicate IsTrail(trail: seq<Shot>, init: int, events: seq<Event>, answers: seq<Answer>) {
    && |trail| == |events| + 1 && |events| == |answers|
    && (forall i :: 0 <= i < |trail| ==> Inv(trail[i].procs, init, trail[i].nextpid))
    && (forall i :: 0 <= i < |events| ==> Does(trail[i], init, events[i], answers[i], trail[i + 1]))
    && forall i :: 0 <= i < |events| ==> EventOk(trail[i].procs, events[i], trail[i + 1].procs)
  }

  lemma TrailSnoc(trail: seq<Shot>, init: int, events: seq<Event>, answers: seq<Answer>, n: nat, ans: Answer, b: Shot)
    requires n < |events| && IsTrail(trail, init, events[..n], answers) && Inv(b.procs, init, b.nextpid)
    requires Does(trail[n], init, events[n], ans, b) && EventOk(trail[n].procs, events[n], b.procs)
    ensures IsTrail(trail + [b], init, events[..n + 1], answers + [ans])
  {
    hide Inv, Does, EventOk;
  }

  /**
   * Any interleaving of the steps, from the first process on: each step does what it should, every table is sound,
   * and every process asleep on a channel sleeps until that channel is woken or the process is killed, and not
   * longer. As long as nobody calls kill(0), no child starts with the killed flag set.
   */
  method Run(n: nat, events: seq<Event>) returns (t: Procs, answers: seq<Answer>, ghost trail: seq<Shot>)
    requires n > 0
    ensures t.Valid() && IsTrail(trail, 0, events, answers) && trail[|events|] == t.Now()
    ensures trail[0] == Shot([FIRST] + seq(n - 1, _ => EMPTY), 2)
    ensures DoKill(0) !in events ==> Unmarked(t.procs)
  {
    hide Inv, EventOk, Unmarked, Does;
    t := new Procs(n);
    answers, trail := [], [t.Now()];
    for i := 0 to |events|
      invariant t.Valid() && t.init == 0 && fresh(t) && IsTrail(trail, 0, events[..i], answers) && trail[i] == t.Now()
      invariant trail[0] == Shot([FIRST] + seq(n - 1, _ => EMPTY), 2)
      invariant DoKill(0) !in events[..i] ==> Unmarked(t.procs)
    {
      assert events[..i + 1] == events[..i] + [events[i]];
      var ans := Do(t, events[i]);
      TrailSnoc(trail, 0, events, answers, i, ans, t.Now());
      answers, trail := answers + [ans], trail + [t.Now()];
    }
    assert events[..|events|] == events;
  }

  /** Right after a wakeup nobody sleeps on its channel. */
  lemma NobodyLeftAsleep(ps: Table, id: int, qs: Table, c: int)
    requires EventOk(ps, DoWakeup(id), qs) && 0 <= c < |qs|
    ensures !(qs[c].state == SLEEPING && qs[c].chan == Other(id))
  {
    assert SleeperOk(ps, DoWakeup(id), qs, c);
  }

  /** A process that was asleep on a channel at one stop of a run, and has neither been woken nor killed since,
      is asleep there still. */
  lemma {:induction false} SleepsOn(trail: seq<Shot>, init: int, events: seq<Event>, answers: seq<Answer>, i: nat,
                                    k: nat,
                                    c: int, id: int)
    requires IsTrail(trail, init, events, answers) && i <= k <= |events|
    requires 0 <= c < |trail[i].procs|
    requires trail[i].procs[c].state == SLEEPING && trail[i].procs[c].chan == Other(id)
    requires forall j :: i <= j < k ==> events[j] != DoWakeup(id) && !Kills(trail[j].procs, events[j], c)
    ensures c < |trail[k].procs| && trail[k].procs[c].state == SLEEPING && trail[k].procs[c].chan == Other(id)
    decreases k
  {
    hide Inv, Does;
    if i < k {
      SleepsOn(trail, init, events, answers, i, k - 1, c, id);
      assert EventOk(trail[k - 1].procs, events[k - 1], trail[k].procs);
      assert SleeperOk(trail[k - 1].procs, events[k - 1], trail[k].procs, c);
    }
  }
}
