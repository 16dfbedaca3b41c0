/**
 * All processes together: which pages of the machine are whose, over every run of fork, exec,
 * sbrk, page faults, copies to and from user memory, exit, and allocations of the kernel's own.
 */
module MemoryRuns {
  import opened Base
  import opened PageTable
  import opened VmState
  import opened PageCost
  import opened Paging
  import opened UserMemory
  import opened UserCopy
  import opened ProcMemory
  import opened Exec

  /** The size of a process and the page of its trapframe; processes are named by their root page. */
  datatype Task = Task(sz: nat, tf: int)

  /** The keeper of the pages that the kernel takes for itself: stacks, pipes, the argument strings of exec(). */
  const KERNEL := 0

  ghost predicate TaskOk(s: Vm, live: map<int, Task>, keeper: map<int, int>, r: int) {
    r in live ==>
      && IsRoot(s.o, r) && ProcTable(s.t, r, live[r].sz)
      && UseOf(s.o, live[r].tf) == Held && live[r].tf in keeper && keeper[live[r].tf] == r
  }

  ghost predicate PageOk(s: Vm, live: map<int, Task>, keeper: map<int, int>, p: int) {
    && (IsRoot(s.o, p) ==> p in live)
    && (UseOf(s.o, p) == Held ==>
          p in keeper && (keeper[p] == KERNEL || (keeper[p] in live && live[keeper[p]].tf == p)))
    && (p in keeper && keeper[p] == KERNEL ==> UseOf(s.o, p) == Held)
  }

  /** Every root is the table of one process, and every page the kernel holds is one process's trapframe or
      its own. */
  ghost predicate Accounted(s: Vm, live: map<int, Task>, keeper: map<int, int>) {
    && (forall r :: TaskOk(s, live, keeper, r))
    && (forall p :: PageOk(s, live, keeper, p))
  }

  /** When the last process is gone, every page of the machine is free again but for the kernel's own. */
  lemma AllReturned(s: Vm, keeper: map<int, int>, p: int)
    requires Owned(s.t, s.o) && Accounted(s, map[], keeper)
    ensures UseOf(s.o, p) == Free || UseOf(s.o, p) == Outside || UseOf(s.o, p) == Held
    ensures UseOf(s.o, p) == Held <==> p in keeper && keeper[p] == KERNEL
  {
    forall q
      ensures UseOf(s.o, q) != Root
    {
      assert PageOk(s, map[], keeper, q);
    }
    assert PageOk(s, map[], keeper, p);
    assert NodeBack(s.t, s.o, p) && LeafBack(s.t, s.o, p);
  }

  lemma OnlyKeeps(s: Vm, s': Vm, live: map<int, Task>, keeper: map<int, int>, r: int, sz: nat)
    requires Accounted(s, live, keeper) && r in live && Only(s, s', r) && ProcTable(s'.t, r, sz)
    ensures Accounted(s', live[r := live[r].(sz := sz)], keeper)
  {
    OnlyWide(s, s', r);
    hide Lookup, Up, ProcTable;
    var now := live[r := live[r].(sz := sz)];
    forall q
      ensures TaskOk(s', now, keeper, q)
    {
      assert TaskOk(s, live, keeper, q) && TaskOk(s, live, keeper, r);
      if q in live {
        FrameRoot(s, s', r, 0, TRAPFRAME, q);
        FrameRoot(s, s', r, 0, TRAPFRAME, live[q].tf);
        if q != r {
          KeptTable(s, s', r, q, live[q].sz);
        }
      }
    }
    forall p
      ensures PageOk(s', now, keeper, p)
    {
      assert PageOk(s, live, keeper, p);
      FrameRoot(s, s', r, 0, TRAPFRAME, p);
    }
  }

  lemma KeptTable(s: Vm, s': Vm, r: int, q: int, sz: nat)
    requires Keeps(s, s', r, 0, PAGES) && IsRoot(s.o, q) && q != r && ProcTable(s.t, q, sz)
    ensures ProcTable(s'.t, q, sz)
  {
    hide Lookup, Up;
    forall v | Up(sz) <= v < PAGES && v != TRAPFRAME && v != TRAMPOLINE
      ensures !Lookup(s'.t, q, v).v
    {
      assert KeepAt(s, s', r, 0, PAGES, q, v);
    }
  }

  lemma SameTable(s: Vm, s': Vm, q: int, sz: nat)
    requires IsRoot(s.o, q) && ProcTable(s.t, q, sz) && forall v :: SameAt(s.o, s.t, s'.t, q, v)
    ensures ProcTable(s'.t, q, sz)
  {
    hide Lookup, Up;
    forall v | Up(sz) <= v < PAGES && v != TRAPFRAME && v != TRAMPOLINE
      ensures !Lookup(s'.t, q, v).v
    {
      assert SameAt(s.o, s.t, s'.t, q, v);
    }
  }

  lemma SameKeeps(s: Vm, s': Vm, live: map<int, Task>, keeper: map<int, int>)
    requires Accounted(s, live, keeper) && SameUses(s.o, s'.o) && SameTables(s, s')
    ensures Accounted(s', live, keeper)
  {
    hide Lookup, ProcTable, SameAt;
    forall q
      ensures TaskOk(s', live, keeper, q)
    {
      assert TaskOk(s, live, keeper, q);
      if q in live {
        SameTable(s, s', q, live[q].sz);
      }
    }
    forall p
      ensures PageOk(s', live, keeper, p)
    {
      assert PageOk(s, live, keeper, p);
    }
  }

  lemma MadeKeeps(s: Vm, s': Vm, live: map<int, Task>, keeper: map<int, int>, r: int, tf: int, sz: nat)
    requires Accounted(s, live, keeper) && Made(s, s', r, tf) && ProcTable(s'.t, r, sz)
    ensures Accounted(s', live[r := Task(sz, tf)], keeper[tf := r])
  {
    MadeUnseen(s, s', r, tf);
    hide Lookup, ProcTable, SameMemory, SameAt, Keeps, Owned;
    var now, kept := live[r := Task(sz, tf)], keeper[tf := r];
    forall q
      ensures TaskOk(s', now, kept, q)
    {
      assert TaskOk(s, live, keeper, q);
      if q in live && q != r {
        SameTable(s, s', q, live[q].sz);
      }
    }
    forall p
      ensures PageOk(s', now, kept, p)
    {
      assert PageOk(s, live, keeper, p) && TaskOk(s, live, keeper, r);
    }
  }

  lemma GoneKeeps(s: Vm, s': Vm, live: map<int, Task>, keeper: map<int, int>, r: int)
    requires Accounted(s, live, keeper) && r in live && Gone(s.o, s'.o, r, live[r].tf) && Keeps(s, s', r, 0, PAGES)
    ensures Accounted(s', live - {r}, keeper - {live[r].tf})
  {
    hide Lookup, ProcTable, Keeps;
    var tf := live[r].tf;
    var now, kept := live - {r}, keeper - {tf};
    assert TaskOk(s, live, keeper, r);
    forall q
      ensures TaskOk(s', now, kept, q)
    {
      assert TaskOk(s, live, keeper, q);
      if q in now {
        KeptTable(s, s', r, q, live[q].sz);
        assert GoneAt(s.o, s'.o, r, tf, q) && GoneAt(s.o, s'.o, r, tf, live[q].tf);
      }
    }
    forall p
      ensures PageOk(s', now, kept, p)
    {
      assert PageOk(s, live, keeper, p) && GoneAt(s.o, s'.o, r, tf, p);
    }
  }

  lemma ReplacedKeeps(s: Vm, s': Vm, live: map<int, Task>, keeper: map<int, int>, r: int, current: int, sz: nat)
    requires Accounted(s, live, keeper) && current in live && r != current
    requires Replaced(s, s', r, current) && ProcTable(s'.t, r, sz)
    ensures Accounted(s', (live - {current})[r := Task(sz, live[current].tf)], keeper[live[current].tf := r])
  {
    hide Lookup, ProcTable, SameAt;
    var tf := live[current].tf;
    var now, kept := (live - {current})[r := Task(sz, tf)], keeper[tf := r];
    assert TaskOk(s, live, keeper, current) && TaskOk(s, live, keeper, r);
    forall q
      ensures TaskOk(s', now, kept, q)
    {
      assert TaskOk(s, live, keeper, q);
      assert OtherUse(s.o, s'.o, r, current, tf);
      if q in live && q != r && q != current {
        SameTable(s, s', q, live[q].sz);
        assert OtherUse(s.o, s'.o, r, current, q) && OtherUse(s.o, s'.o, r, current, live[q].tf);
      }
    }
    forall p
      ensures PageOk(s', now, kept, p)
    {
      assert PageOk(s, live, keeper, p) && OtherUse(s.o, s'.o, r, current, p);
    }
  }

  lemma TakenKeeps(s: Vm, s': Vm, live: map<int, Task>, keeper: map<int, int>, p: int)
    requires Owned(s.t, s.o) && Accounted(s, live, keeper) && UseOf(s.o, p) == Free
    requires s'.t == s.t && s'.o == s.o[p := Held] && forall q :: q != p ==> Page(s'.d, q) == Page(s.d, q)
    ensures Accounted(s', live, keeper[p := KERNEL]) && SameMemory(s, s')
  {
    hide Lookup, ProcTable, Page;
    var kept := keeper[p := KERNEL];
    forall r ensures TaskOk(s', live, kept, r) { assert TaskOk(s, live, keeper, r); }
    forall q ensures PageOk(s', live, kept, q) { assert PageOk(s, live, keeper, q); }
    forall q, v ensures SameBytes(s, s', q, v) {
      assert LeafAt(s.t, s.o, q, v);
    }
  }

  lemma GivenKeeps(s: Vm, s': Vm, live: map<int, Task>, keeper: map<int, int>, p: int)
    requires Accounted(s, live, keeper) && p in keeper && keeper[p] == KERNEL && KERNEL !in live
    requires s'.t == s.t && s'.d == s.d && s'.o == s.o[p := Free]
    ensures Accounted(s', live, keeper - {p}) && SameMemory(s, s')
  {
    hide Lookup, ProcTable;
    var kept := keeper - {p};
    assert PageOk(s, live, keeper, p);
    forall r ensures TaskOk(s', live, kept, r) {
      assert TaskOk(s, live, keeper, r);
      assert r in live ==> r != KERNEL && live[r].tf != p;
    }
    forall q ensures PageOk(s', live, kept, q) { assert PageOk(s, live, keeper, q); }
    forall q, v ensures SameBytes(s, s', q, v) { }
  }

  /** Every process's table maps its own trapframe and the trampoline. */
  ghost predicate AllMapped(t: Tables, live: map<int, Task>, code: int) {
    forall r :: r in live ==> KernelPages(t, r, live[r].tf, code)
  }

  /** The kernel pages of the processes that are still there, each with its trapframe, are mapped as before. */
  lemma AllMappedStays(s: Vm, s': Vm, live: map<int, Task>, now: map<int, Task>, keeper: map<int, int>, code: int,
                       r: int)
    requires AllMapped(s.t, live, code) && Accounted(s, live, keeper)
    requires forall q :: q in now && q != r ==> q in live && now[q].tf == live[q].tf
    requires forall q, v :: q != r ==> SameAt(s.o, s.t, s'.t, q, v)
    requires r in now ==> KernelPages(s'.t, r, now[r].tf, code)
    ensures AllMapped(s'.t, now, code)
  {
    hide Lookup, ProcTable;
    forall q | q in now ensures KernelPages(s'.t, q, now[q].tf, code) {
      if q != r {
        assert TaskOk(s, live, keeper, q);
        assert SameAt(s.o, s.t, s'.t, q, TRAMPOLINE) && SameAt(s.o, s.t, s'.t, q, TRAPFRAME);
      }
    }
  }

  lemma KeepsSame(s: Vm, s': Vm, r: int)
    requires Keeps(s, s', r, 0, PAGES)
    ensures forall q, v :: q != r ==> SameAt(s.o, s.t, s'.t, q, v)
  {
    hide Lookup;
    forall q, v | q != r ensures SameAt(s.o, s.t, s'.t, q, v) { assert KeepAt(s, s', r, 0, PAGES, q, v); }
  }

  lemma MadeSame(s: Vm, s': Vm, r: int, tf: int)
    requires Made(s, s', r, tf)
    ensures forall q, v :: q != r ==> SameAt(s.o, s.t, s'.t, q, v)
  {
    hide Keeps, Owned;
    KeepsSame(s, s', r);
  }

  lemma OnlyMapped(s: Vm, s': Vm, live: map<int, Task>, keeper: map<int, int>, code: int, r: int, sz: nat)
    requires AllMapped(s.t, live, code) && Accounted(s, live, keeper) && r in live && Only(s, s', r)
    ensures AllMapped(s'.t, live[r := live[r].(sz := sz)], code)
  {
    hide Lookup, ProcTable, Frame, AllMapped, KernelPages;
    OnlyWide(s, s', r);
    KeepsSame(s, s', r);
    assert TaskOk(s, live, keeper, r);
    assert KernelPages(s.t, r, live[r].tf, code) by { AllMappedAt(s.t, live, code, r); }
    KernelPagesStay(s, s', r, live[r].tf, code);
    AllMappedStays(s, s', live, live[r := live[r].(sz := sz)], keeper, code, r);
  }

  lemma AllMappedSame(s: Vm, s': Vm, live: map<int, Task>, keeper: map<int, int>, code: int)
    requires AllMapped(s.t, live, code) && Accounted(s, live, keeper) && SameTables(s, s')
    ensures AllMapped(s'.t, live, code)
  {
    hide Lookup, ProcTable;
    forall q | q in live ensures KernelPages(s'.t, q, live[q].tf, code) {
      assert TaskOk(s, live, keeper, q);
      assert SameAt(s.o, s.t, s'.t, q, TRAMPOLINE) && SameAt(s.o, s.t, s'.t, q, TRAPFRAME);
    }
  }

  lemma ReplacedMapped(s: Vm, s': Vm, live: map<int, Task>, keeper: map<int, int>, code: int, r: int, current: int,
                       sz: nat)
    requires AllMapped(s.t, live, code) && Accounted(s, live, keeper) && current in live && r != current
    requires Replaced(s, s', r, current) && KernelPages(s'.t, r, live[current].tf, code)
    ensures AllMapped(s'.t, (live - {current})[r := Task(sz, live[current].tf)], code)
  {
    hide Lookup, ProcTable;
    var now := (live - {current})[r := Task(sz, live[current].tf)];
    forall q | q in now ensures KernelPages(s'.t, q, now[q].tf, code) {
      if q != r {
        assert TaskOk(s, live, keeper, q);
        assert SameAt(s.o, s.t, s'.t, q, TRAMPOLINE) && SameAt(s.o, s.t, s'.t, q, TRAPFRAME);
      }
    }
  }

  lemma AllMappedAt(t: Tables, live: map<int, Task>, code: int, r: int)
    requires AllMapped(t, live, code) && r in live
    ensures KernelPages(t, r, live[r].tf, code)
  {
  }

  class System {
    const k: Pager
    /** The page of the trampoline code, in the kernel's own text. */
    const trampoline: int
    var live: map<int, Task>
    /** The pages of the kernel's own. */
    var own: set<int>
    ghost var keeper: map<int, int>

    ghost predicate Valid()
      reads this, k
    {
      && k.Valid() && trampoline < k.first && Accounted(k.State(), live, keeper)
      && AllMapped(k.tables, live, trampoline)
      && forall p :: p in own <==> p in keeper && keeper[p] == KERNEL
    }

    ghost function Now(): Shot
      reads this, k
    {
      Shot(k.State(), live, own, keeper, k.free)
    }

    lemma Kernel()
      requires Valid()
      ensures UseOf(k.owner, trampoline) == Outside
    {
    }

    lemma Positive(r: int)
      requires Valid()
      ensures r in live || IsRoot(k.owner, r) ==> r > 0
    {
      assert TaskOk(k.State(), live, keeper, r);
    }

    lemma Alive(r: int)
      requires Valid() && r in live
      ensures IsRoot(k.owner, r) && ProcTable(k.tables, r, live[r].sz) && UseOf(k.owner, live[r].tf) == Held
      ensures live[r].sz <= TOP && r > 0 && live[r].tf !in own
    {
      Positive(r);
      assert TaskOk(k.State(), live, keeper, r);
    }

    constructor (end: nat, code: int)
      requires 0 < end <= PHYSTOP && code < end
      ensures Valid() && live == map[] && own == {} && fresh(k) && k.first == end && k.last == PHYSTOP
      ensures trampoline == code && forall p :: end <= p < PHYSTOP ==> UseOf(k.owner, p) == Free
    {
      k := new Pager(end);
      trampoline, live, own, keeper := code, map[], {}, map[];
      new;
      forall p
        ensures PageOk(k.State(), live, keeper, p) && TaskOk(k.State(), live, keeper, p)
      {
        assert p in k.owner ==> UseOf(k.owner, p) == Free;
      }
    }

    /** kalloc() for the kernel itself. */
    method Take() returns (p: int)
      requires Valid()
      modifies this, k
      ensures Valid() && live == old(live) && SameMemory(old(k.State()), k.State())
      ensures p == 0 <==> old(k.free) == []
      ensures own == if p == 0 then old(own) else old(own) + {p}
      ensures p != 0 ==> p !in old(own)
    {
      hide Owned, FreeOk, Accounted, AllMapped, ProcTable, Lookup;
      ghost var s := k.State();
      p := k.Kalloc();
      if p == 0 {
        Nothing(s);
      } else {
        assert p !in own by { OwnHeld(s, live, keeper, p); }
        TakenKeeps(s, k.State(), live, keeper, p);
        own, keeper := own + {p}, keeper[p := KERNEL];
      }
    }

    /** kfree() of one of its pages. */
    method Give(p: int)
      requires Valid() && p in own
      modifies this, k
      ensures Valid() && live == old(live) && own == old(own) - {p} && SameMemory(old(k.State()), k.State())
      ensures k.free == [p] + old(k.free)
    {
      hide Owned, FreeOk, Accounted, AllMapped, ProcTable, Lookup;
      ghost var s := k.State();
      assert UseOf(k.owner, p) == Held by { OwnHeld(s, live, keeper, p); }
      assert KERNEL !in live by { Positive(KERNEL); }
      Handed(k.tables, k.owner, p, Free);
      GivenKeeps(s, s.(o := s.o[p := Free]), live, keeper, p);
      k.Kfree(p);
      own, keeper := own - {p}, keeper - {p};
    }

    /** A process without user memory, as userinit() makes it. */
    method Start() returns (r: int)
      requires Valid()
      modifies this, k
      ensures Valid() && SameMemory(old(k.State()), k.State())
      ensures own == old(own)
      ensures if r == 0 then live == old(live)
              else r !in old(live) && r in live && live == old(live)[r := Task(0, live[r].tf)]
      ensures r == 0 <==> |old(k.free)| < 3
    {
      hide Nodes, Owned, FreeOk, Accounted, AllMapped, ProcTable, SameMemory, SameTables, SameUses, Made, Lookup;
      Kernel();
      ghost var s := k.State();
      var tf;
      r, tf := AllocProc(k, trampoline);
      if r == 0 {
        SameKeeps(s, k.State(), live, keeper);
        AllMappedSame(s, k.State(), live, keeper, trampoline);
        return;
      }
      NotLive(s, live, keeper, k.State(), r, tf);
      MadeKeeps(s, k.State(), live, keeper, r, tf, 0);
      MadeUnseen(s, k.State(), r, tf);
      MadeSame(s, k.State(), r, tf);
      AllMappedStays(s, k.State(), live, live[r := Task(0, tf)], keeper, trampoline, r);
      live := live[r := Task(0, tf)];
      keeper := keeper[tf := r];
    }

    /** fork(): a second process with the same memory. */
    method Fork(parent: int) returns (r: int)
      requires Valid() && parent in live
      modifies this, k
      ensures Valid() && SameMemory(old(k.State()), k.State())
      ensures own == old(own)
      ensures if r == 0 then live == old(live)
              else r !in old(live) && r in live && live == old(live)[r := Task(old(live)[parent].sz, live[r].tf)]
      ensures r != 0 ==> Copied(k.State(), parent, r, Up(old(live)[parent].sz))
      ensures r == 0 <==> |old(k.free)| < ForkCost(old(k.tables), parent, old(live)[parent].sz)
    {
      hide ForkCost, Owned, FreeOk, Accounted, AllMapped, ProcTable, SameMemory, SameTables, SameUses, Made, Lookup,
           Copied, Up;
      Kernel();
      Alive(parent);
      ghost var s := k.State();
      var sz, tf := live[parent].sz, 0;
      r, tf := ForkMemory(k, parent, sz, trampoline);
      if r == 0 {
        SameKeeps(s, k.State(), live, keeper);
        AllMappedSame(s, k.State(), live, keeper, trampoline);
        return;
      }
      NotLive(s, live, keeper, k.State(), r, tf);
      MadeKeeps(s, k.State(), live, keeper, r, tf, sz);
      MadeUnseen(s, k.State(), r, tf);
      MadeSame(s, k.State(), r, tf);
      AllMappedStays(s, k.State(), live, live[r := Task(sz, tf)], keeper, trampoline, r);
      live := live[r := Task(sz, tf)];
      keeper := keeper[tf := r];
    }

    /** freeproc() on a process that has exited: exactly its pages become free. */
    method Exit(r: int)
      requires Valid() && r in live
      modifies this, k
      ensures Valid() && live == old(live) - {r} && own == old(own)
      ensures Gone(old(k.owner), k.owner, r, old(live)[r].tf)
      ensures forall q, v :: q != r ==> SameBytes(old(k.State()), k.State(), q, v)
    {
      hide Owned, FreeOk, Accounted, AllMapped, ProcTable, Lookup, Keeps, Gone, Bytes;
      Alive(r);
      ghost var s := k.State();
      var tf := live[r].tf;
      FreeProc(k, r, live[r].sz, tf);
      GoneKeeps(s, k.State(), live, keeper, r);
      KeepsSame(s, k.State(), r);
      AllMappedStays(s, k.State(), live, live - {r}, keeper, trampoline, r);
      ghost var s' := k.State();
      forall q, v | q != r
        ensures SameBytes(s, s', q, v)
      {
        if IsRoot(s.o, q) && 0 <= v < TRAPFRAME {
          FreedBytes(s, s', r, q, v);
        }
      }
      live, keeper := live - {r}, keeper - {tf};
    }

    /** sbrk(), eager or lazy. */
    method Resize(r: int, n: int, eager: bool) returns (ok: bool)
      requires Valid() && r in live && -0x8000_0000 <= n < 0x8000_0000
      modifies this, k
      ensures Valid() && r in live && live == old(live)[r := old(live)[r].(sz := live[r].sz)] && own == old(own)
      ensures if n >= 0 then SameMemory(old(k.State()), k.State())
              else Shrunk(old(k.State()), k.State(), r, Up(live[r].sz))
      ensures var sz := old(live)[r].sz; live[r].sz == if ok && sz + n >= 0 then sz + n else sz
      ensures var sz := old(live)[r].sz;
              ok <==> n < 0 || (sz + n <= TOP && (eager ==> |old(k.free)| >= GrowCost(old(k.tables), r, sz, sz + n)))
    {
      hide GrowCost, Owned, FreeOk, Accounted, AllMapped, ProcTable, Lookup, Only, SameMemory, Up, Shrunk;
      Alive(r);
      ghost var s := k.State();
      var sz;
      ok, sz := Sbrk(k, r, live[r].sz, n, eager);
      OnlyKeeps(s, k.State(), live, keeper, r, sz);
      OnlyMapped(s, k.State(), live, keeper, trampoline, r, sz);
      live := live[r := live[r].(sz := sz)];
    }

    /** A page fault on user memory. */
    method Fault(r: int, va: nat) returns (pa: int)
      requires Valid() && r in live
      modifies this, k
      ensures Valid() && live == old(live) && own == old(own) && SameMemory(old(k.State()), k.State())
      ensures var v, t := va / PGSIZE, old(k.tables);
              pa != 0 <==> va < live[r].sz && !Lookup(t, r, v).v && |old(k.free)| >= CostOne(Nodes(t, r), v)
      ensures pa != 0 ==> Lookup(k.tables, r, va / PGSIZE) == Pte(true, pa, Perm(true, true, false, true))
    {
      hide Nodes, CostOne, Owned, FreeOk, Accounted, AllMapped, ProcTable, Lookup, Only, SameMemory, Up, Frame, Keeps;
      Alive(r);
      ghost var s, v := k.State(), va / PGSIZE;
      OnlyNone(s, r);
      var sz := live[r].sz;
      pa := Vmfault(k, r, sz, va);
      if va < sz {
        UpAbove(va, sz);
        UpMono(sz, TOP);
        UpExact(TRAPFRAME);
        ProcTableSame(s, k.State(), r, sz, v, v + 1);
        OnlyOf(s, k.State(), r, v, v + 1, v + 1);
      }
      OnlyKeeps(s, k.State(), live, keeper, r, sz);
      OnlyMapped(s, k.State(), live, keeper, trampoline, r, sz);
      assert live == live[r := live[r].(sz := sz)];
    }

    /** Copies between a kernel buffer and user memory. */
    method CopyFrom(r: int, va: nat, len: nat) returns (ok: bool, bytes: seq<int>)
      requires Valid() && r in live
      modifies this, k
      ensures Valid() && live == old(live) && own == old(own) && SameMemory(old(k.State()), k.State())
      ensures ok ==> bytes == Flat(old(k.State()), r, va, len)
      ensures ok <==> CanCopy(old(k.tables), r, live[r].sz, |old(k.free)|, va / PGSIZE, EndPage(va, len), false)
    {
      hide CanCopy, Owned, FreeOk, Accounted, AllMapped, ProcTable, Lookup, Only, SameMemory, Up, Frame, Keeps, Flat;
      Alive(r);
      ghost var s := k.State();
      var sz := live[r].sz;
      ok, bytes := Copyin(k, r, sz, va, len);
      UpMono(sz, TOP);
      UpExact(TRAPFRAME);
      ProcTableSame(s, k.State(), r, sz, 0, Up(sz));
      OnlyOf(s, k.State(), r, 0, Up(sz), Up(sz));
      OnlyKeeps(s, k.State(), live, keeper, r, sz);
      OnlyMapped(s, k.State(), live, keeper, trampoline, r, sz);
      assert live == live[r := live[r].(sz := sz)];
    }

    method CopyTo(r: int, va: nat, src: seq<int>) returns (ok: bool, ghost done: nat)
      requires Valid() && r in live
      modifies this, k
      ensures Valid() && live == old(live) && own == old(own)
      ensures done <= |src| && (ok <==> done == |src|) && Patched(old(k.State()), k.State(), r, va, src[..done])
      ensures ok <==> CanCopy(old(k.tables), r, live[r].sz, |old(k.free)|, va / PGSIZE, EndPage(va, |src|), true)
    {
      hide CanCopy, Owned, FreeOk, Accounted, AllMapped, ProcTable, Lookup, Only, SameMemory, Up, Frame, Keeps, Patched;
      Alive(r);
      ghost var s := k.State();
      var sz := live[r].sz;
      ok, done := Copyout(k, r, sz, va, src);
      UpMono(sz, TOP);
      UpExact(TRAPFRAME);
      ProcTableSame(s, k.State(), r, sz, 0, Up(sz));
      OnlyOf(s, k.State(), r, 0, TRAPFRAME, Up(sz));
      OnlyKeeps(s, k.State(), live, keeper, r, sz);
      OnlyMapped(s, k.State(), live, keeper, trampoline, r, sz);
      assert live == live[r := live[r].(sz := sz)];
    }

    /** exec(): the process gets a new table in place of its old one, or keeps the old one. */
    method Replace(r: int, phs: seq<Option<Proghdr>>, file: seq<int>, argv: seq<seq<int>>)
      returns (ok: bool, r': int, sp: nat, ustack: seq<nat>)
      requires Valid() && r in live && |argv| < MAXARG && forall i :: 0 <= i < |argv| ==> |argv[i]| < PGSIZE
      requires forall i :: 0 <= i < |phs| && phs[i].Some? ==> Fields(phs[i].value)
      modifies this, k
      ensures Valid() && own == old(own)
      ensures ok ==> r' in live && live == (old(live) - {r})[r' := Task(live[r'].sz, old(live)[r].tf)]
      ensures ok ==> Started(k.State(), r', live[r'].sz, sp, ustack, phs, file, argv)
      ensures ok ==> forall q, v :: q != r ==> SameBytes(old(k.State()), k.State(), q, v)
      ensures !ok ==> live == old(live) && SameMemory(old(k.State()), k.State())
      ensures ok <==> CanExec(|old(k.free)|, phs, file, argv)
    {
      hide CanExec, SizeAfter, ArgsDepth, Owned, FreeOk, Accounted, AllMapped, ProcTable, Lookup, Up, SameMemory,
           SameTables,
           SameUses, Replaced, Started, SameBytes, About;
      Kernel();
      Alive(r);
      ghost var s := k.State();
      var tf := live[r].tf;
      var sz;
      ok, r', sz, sp, ustack := Kexec(k, r, live[r].sz, tf, trampoline, phs, file, argv);
      if !ok {
        SameKeeps(s, k.State(), live, keeper);
        AllMappedSame(s, k.State(), live, keeper, trampoline);
        return;
      }
      StartedTable(k.State(), r', sz, sp, ustack, phs, file, argv);
      RootPositive(k, s, r', r);
      ReplacedKeeps(s, k.State(), live, keeper, r', r, sz);
      ReplacedMapped(s, k.State(), live, keeper, trampoline, r', r, sz);
      live := (live - {r})[r' := Task(sz, tf)];
      keeper := keeper[tf := r'];
    }
  }

  lemma OwnHeld(s: Vm, live: map<int, Task>, keeper: map<int, int>, p: int)
    requires Accounted(s, live, keeper)
    ensures p in keeper && keeper[p] == KERNEL ==> UseOf(s.o, p) == Held
  {
    assert PageOk(s, live, keeper, p);
  }

  lemma Nothing(s: Vm)
    ensures SameMemory(s, s)
  {
    forall q, v ensures SameBytes(s, s, q, v) { }
  }

  lemma StartedTable(s: Vm, r: int, sz: nat, sp: nat, ustack: seq<nat>, phs: seq<Option<Proghdr>>, file: seq<int>,
                     argv: seq<seq<int>>)
    requires Started(s, r, sz, sp, ustack, phs, file, argv)
    ensures ProcTable(s.t, r, sz)
  {
  }

  lemma NotLive(s: Vm, live: map<int, Task>, keeper: map<int, int>, s': Vm, r: int, tf: int)
    requires Accounted(s, live, keeper) && Made(s, s', r, tf)
    ensures r !in live && (tf in keeper ==> keeper[tf] != KERNEL)
  {
    assert TaskOk(s, live, keeper, r) && PageOk(s, live, keeper, tf);
  }

  lemma RootPositive(k: Pager, s: Vm, r: int, current: int)
    requires k.Valid() && Replaced(s, k.State(), r, current)
    ensures r > 0
  {
    assert IsRoot(k.owner, r);
  }

  datatype Event =
    | DoStart
    | DoFork(r: int)
    | DoExit(r: int)
    | DoSbrk(r: int, n: int, eager: bool)
    | DoFault(r: int, va: nat)
    | DoCopyin(r: int, va: nat, len: nat)
    | DoCopyout(r: int, va: nat, src: seq<int>)
    | DoExec(r: int, phs: seq<Option<Proghdr>>, file: seq<int>, argv: seq<seq<int>>)
    | DoTake
    | DoGive(p: int)

  predicate Sensible(e: Event) {
    match e
    case DoSbrk(_, n, _) => -0x8000_0000 <= n < 0x8000_0000
    case DoExec(_, phs, _, argv) =>
      && |argv| < MAXARG && (forall i :: 0 <= i < |argv| ==> |argv[i]| < PGSIZE)
      && forall i :: 0 <= i < |phs| && phs[i].Some? ==> Fields(phs[i].value)
    case _ => true
  }

  /** The machine between two steps: memory, processes, the kernel's own pages and who holds which, the free list. */
  datatype Shot = Shot(vm: Vm, live: map<int, Task>, own: set<int>, keeper: map<int, int>, free: seq<int>)

  /** What a step answers: no such process or page, no, yes, a page, the bytes read, or a new program. */
  datatype Answer = NoSuch | Refused | Done | At(p: int) | Got(bytes: seq<int>) | Image(r: int, sp: nat,
                                                 ustack: seq<nat>)

  /** Nothing that a process could notice is different. */
  ghost predicate Unnoticed(a: Shot, b: Shot) {
    b.live == a.live && b.own == a.own && SameMemory(a.vm, b.vm)
  }

  /** One more process, of the given size. */
  ghost predicate Born(a: Shot, b: Shot, r: int, sz: nat) {
    && r !in a.live && r in b.live && b.live == a.live[r := Task(sz, b.live[r].tf)] && b.own == a.own
    && SameMemory(a.vm, b.vm)
  }

  ghost predicate Resized(a: Shot, b: Shot, r: int, n: int, eager: bool, ok: bool)
    requires r in a.live
  {
    var sz := a.live[r].sz;
    var sz' := if ok && sz + n >= 0 then sz + n else sz;
    && (ok <==> n < 0 || (sz + n <= TOP && (eager ==> |a.free| >= GrowCost(a.vm.t, r, sz, sz + n))))
    && b.live == a.live[r := a.live[r].(sz := sz')] && b.own == a.own
    && if n >= 0 then SameMemory(a.vm, b.vm) else Shrunk(a.vm, b.vm, r, Up(sz'))
  }

  ghost predicate Faulted(a: Shot, b: Shot, r: int, va: nat, ans: Answer)
    requires r in a.live
  {
    var v := va / PGSIZE;
    && Unnoticed(a, b) && (ans == Refused || ans.At?)
    && (ans.At? <==> va < a.live[r].sz && !Lookup(a.vm.t, r, v).v && |a.free| >= CostOne(Nodes(a.vm.t, r), v))
    && (ans.At? ==> Lookup(b.vm.t, r, v) == Pte(true, ans.p, Perm(true, true, false, true)))
  }

  ghost predicate CopiedIn(a: Shot, b: Shot, r: int, va: nat, len: nat, ans: Answer)
    requires r in a.live
  {
    && Unnoticed(a, b)
    && ans == if CanCopy(a.vm.t, r, a.live[r].sz, |a.free|, va / PGSIZE, EndPage(va, len), false)
              then Got(Flat(a.vm, r, va, len)) else Refused
  }

  ghost predicate CopiedOut(a: Shot, b: Shot, r: int, va: nat, src: seq<int>, ans: Answer)
    requires r in a.live
  {
    && b.live == a.live && b.own == a.own
    && (ans == Done || ans == Refused)
    && (ans == Done <==> CanCopy(a.vm.t, r, a.live[r].sz, |a.free|, va / PGSIZE, EndPage(va, |src|), true))
    && exists done: nat :: done <= |src| && (ans == Done <==> done == |src|) && Patched(a.vm, b.vm, r, va, src[..done])
  }

  ghost predicate Executed(a: Shot, b: Shot, r: int, phs: seq<Option<Proghdr>>, file: seq<int>, argv: seq<seq<int>>,
                           ans: Answer)
    requires r in a.live
  {
    if CanExec(|a.free|, phs, file, argv) then
      && ans.Image? && ans.r in b.live && b.own == a.own
      && b.live == (a.live - {r})[ans.r := Task(b.live[ans.r].sz, a.live[r].tf)]
      && Started(b.vm, ans.r, b.live[ans.r].sz, ans.sp, ans.ustack, phs, file, argv)
      && forall q, v :: q != r ==> SameBytes(a.vm, b.vm, q, v)
    else ans == Refused && Unnoticed(a, b)
  }

  /** The process that a step is about, if any. */
  predicate Absent(a: Shot, e: Event) {
    match e
    case DoStart => false
    case DoTake => false
    case DoGive(p) => p !in a.own
    case _ => e.r !in a.live
  }

  /** What each step does, and when it succeeds. */
  ghost predicate EventOk(a: Shot, e: Event, ans: Answer, b: Shot) {
    if Absent(a, e) then ans == NoSuch && b == a
    else match e
    case DoStart => if |a.free| < 3 then ans == Refused && Unnoticed(a, b) else ans.At? && Born(a, b, ans.p, 0)
    case DoFork(r) =>
      if |a.free| < ForkCost(a.vm.t, r, a.live[r].sz) then ans == Refused && Unnoticed(a, b)
      else ans.At? && Born(a, b, ans.p, a.live[r].sz) && Copied(b.vm, r, ans.p, Up(a.live[r].sz))
    case DoExit(r) =>
      && ans == Done && b.live == a.live - {r} && b.own == a.own && Gone(a.vm.o, b.vm.o, r, a.live[r].tf)
      && forall q, v :: q != r ==> SameBytes(a.vm, b.vm, q, v)
    case DoSbrk(r, n, eager) => (ans == Done || ans == Refused) && Resized(a, b, r, n, eager, ans == Done)
    case DoFault(r, va) => Faulted(a, b, r, va, ans)
    case DoCopyin(r, va, len) => CopiedIn(a, b, r, va, len, ans)
    case DoCopyout(r, va, src) => CopiedOut(a, b, r, va, src, ans)
    case DoExec(r, phs, file, argv) => Executed(a, b, r, phs, file, argv, ans)
    case DoTake =>
      if a.free == [] then ans == Refused && Unnoticed(a, b)
      else ans.At? && ans.p !in a.own && b.own == a.own + {ans.p} && b.live == a.live && SameMemory(a.vm, b.vm)
    case DoGive(p) =>
      && ans == Done && b.own == a.own - {p} && b.live == a.live && SameMemory(a.vm, b.vm) && b.free == [p] + a.free
  }

  /** One step of one process; a step of a process that is not there is no step. */
  method Step(sys: System, e: Event) returns (ans: Answer)
    requires sys.Valid() && Sensible(e)
    modifies sys, sys.k
    ensures sys.Valid() && EventOk(old(sys.Now()), e, ans, sys.Now())
  {
    hide Owned, FreeOk, Accounted, AllMapped, SameMemory, Gone, GrowCost, ForkCost, CostOne, Nodes, CanCopy, CanExec,
         Flat, Patched,
         Started, Copied, Shrunk, Lookup, SameBytes, Up, EndPage;
    ans := NoSuch;
    match e
    case DoStart =>
      var r := sys.Start();
      ans := if r == 0 then Refused else At(r);
    case DoFork(r) =>
      if r in sys.live {
        var c := sys.Fork(r);
        ans := if c == 0 then Refused else At(c);
      }
    case DoExit(r) =>
      if r in sys.live {
        sys.Exit(r);
        ans := Done;
      }
    case DoSbrk(r, n, eager) =>
      if r in sys.live {
        var ok := sys.Resize(r, n, eager);
        ans := if ok then Done else Refused;
      }
    case DoFault(r, va) =>
      if r in sys.live {
        var pa := sys.Fault(r, va);
        ans := if pa == 0 then Refused else At(pa);
      }
    case DoCopyin(r, va, len) =>
      if r in sys.live {
        var ok, bytes := sys.CopyFrom(r, va, len);
        ans := if ok then Got(bytes) else Refused;
      }
    case DoCopyout(r, va, src) =>
      if r in sys.live {
        ghost var done;
        var ok;
        ok, done := sys.CopyTo(r, va, src);
        ans := if ok then Done else Refused;
      }
    case DoExec(r, phs, file, argv) =>
      if r in sys.live {
        var ok, r', sp, ustack := sys.Replace(r, phs, file, argv);
        ans := if ok then Image(r', sp, ustack) else Refused;
      }
    case DoTake =>
      var p := sys.Take();
      ans := if p == 0 then Refused else At(p);
    case DoGive(p) =>
      if p in sys.own {
        sys.Give(p);
        ans := Done;
      }
  }

  /** Everyone exits: every page is back on the free list but for the kernel's own. */
  method Shutdown(sys: System)
    requires sys.Valid()
    modifies sys, sys.k
    ensures sys.Valid() && sys.live == map[] && sys.own == old(sys.own)
    ensures forall p :: p in sys.k.owner ==> (p in sys.k.free <==> p !in sys.own)
  {
    hide Owned, Accounted, Gone, SameBytes;
    while sys.live.Keys != {}
      invariant sys.Valid() && sys.own == old(sys.own)
      decreases |sys.live|
    {
      var keys := sys.live.Keys;
      SomeKey(keys);
      var r :| r in keys;
      ghost var before := sys.live;
      sys.Exit(r);
      FewerLeft(before, r);
    }
    assert sys.live == map[];
    forall p | p in sys.k.owner
      ensures p in sys.k.free <==> p !in sys.own
    {
      AllReturned(sys.k.State(), sys.keeper, p);
    }
  }

  /** Each page of the machine has one use that all tables agree with, the free list holds exactly the free pages,
      and every table and every page the kernel holds belongs to one process or to the kernel itself. */
  ghost predicate ShotOk(b: Shot, end: nat, code: int) {
    && Owned(b.vm.t, b.vm.o) && FreeOk(b.free, b.vm.o) && Accounted(b.vm, b.live, b.keeper)
    && AllMapped(b.vm.t, b.live, code) && (forall p :: end <= p < PHYSTOP ==> UseOf(b.vm.o, p) != Outside)
    && forall p :: p in b.own <==> p in b.keeper && b.keeper[p] == KERNEL
  }

  /** The events with these answers go through these states. */
  ghost predicate IsTrail(trail: seq<Shot>, events: seq<Event>, answers: seq<Answer>, end: nat, code: int) {
    && |trail| == |events| + 1 && |events| == |answers|
    && (forall i :: 0 <= i < |trail| ==> ShotOk(trail[i], end, code))
    && forall i :: 0 <= i < |events| ==> EventOk(trail[i], events[i], answers[i], trail[i + 1])
  }

  /** Any run from boot: every stop is sound and every step does what it should. */
  method Run(end: nat, code: int, events: seq<Event>) returns (sys: System, answers: seq<Answer>,
             ghost trail: seq<Shot>)
    requires 0 < end <= PHYSTOP && code < end && forall i :: 0 <= i < |events| ==> Sensible(events[i])
    ensures fresh(sys) && fresh(sys.k) && sys.Valid() && sys.k.first == end && sys.k.last == PHYSTOP
    ensures IsTrail(trail, events, answers, end, code) && trail[|events|] == sys.Now()
    ensures trail[0].live == map[] && trail[0].own == {} && forall p :: end <= p < PHYSTOP ==> p in trail[0].free
  {
    hide Owned, Accounted, AllMapped, Sensible, PagesOk, EventOk, UseOf;
    sys := new System(end, code);
    answers, trail := [], [sys.Now()];
    Sound(sys);
    BootFree(sys);
    for i := 0 to |events|
      invariant sys.Valid() && fresh(sys) && fresh(sys.k) && sys.k.first == end && sys.k.last == PHYSTOP
      invariant IsTrail(trail, events[..i], answers, end, code) && trail[i] == sys.Now()
      invariant trail[0].live == map[] && trail[0].own == {} && forall p :: end <= p < PHYSTOP ==> p in trail[0].free
      invariant sys.trampoline == code
    {
      var ans := Step(sys, events[i]);
      Sound(sys);
      TrailSnoc(trail, events, answers, end, code, i, ans, sys.Now());
      answers, trail := answers + [ans], trail + [sys.Now()];
    }
    assert events[..|events|] == events;
  }

  lemma TrailSnoc(trail: seq<Shot>, events: seq<Event>, answers: seq<Answer>, end: nat, code: int, n: nat, ans: Answer,
                  b: Shot)
    requires n < |events| && IsTrail(trail, events[..n], answers, end, code) && ShotOk(b, end, code)
    requires EventOk(trail[n], events[n], ans, b)
    ensures IsTrail(trail + [b], events[..n + 1], answers + [ans], end, code)
  {
    hide ShotOk, EventOk;
  }

  lemma Sound(sys: System)
    requires sys.Valid() && sys.k.last == PHYSTOP
    ensures ShotOk(sys.Now(), sys.k.first, sys.trampoline)
  {
    hide Owned, Accounted, AllMapped;
  }

  lemma BootFree(sys: System)
    requires sys.Valid() && forall p :: sys.k.first <= p < sys.k.last ==> UseOf(sys.k.owner, p) == Free
    ensures forall p :: sys.k.first <= p < sys.k.last ==> p in sys.k.free
  {
    hide Owned, Accounted, AllMapped;
  }

  /** Any run from boot, and then the exit of whoever is left: every page is back on the free list, except
      for those that the kernel has taken for itself and not given back. */
  method RunAndExit(end: nat, code: int, events: seq<Event>)
    returns (sys: System, answers: seq<Answer>, ghost trail: seq<Shot>)
    requires 0 < end <= PHYSTOP && code < end && forall i :: 0 <= i < |events| ==> Sensible(events[i])
    ensures sys.Valid() && sys.live == map[] && IsTrail(trail, events, answers, end, code)
    ensures forall p :: end <= p < PHYSTOP ==> (p in sys.k.free <==> p !in trail[|events|].own)
  {
    hide Owned, Accounted, Sensible, PagesOk, FreeOk, ShotOk, EventOk;
    sys, answers, trail := Run(end, code, events);
    Shutdown(sys);
  }

  lemma SomeKey(keys: set<int>)
    ensures keys == {} <==> forall r :: r !in keys
  {
    if forall r :: r !in keys {
      assert keys == {};
    }
  }

  lemma FewerLeft(live: map<int, Task>, r: int)
    requires r in live
    ensures |live - {r}| < |live|
  {
    assert (live - {r}).Keys == live.Keys - {r};
  }
}
