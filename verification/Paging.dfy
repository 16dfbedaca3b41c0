/** kernel/kalloc.c and kernel/vm.c: the page allocator and the operations on page tables. */
module Paging {
  import opened PageTable
  import opened VmState
  import opened PageCost

  /** The number of the first page above memory; it is below the trapframe's. */
  const PHYSTOP := 0x3E7E

  /** The free list holds exactly the free pages, each once. */
  ghost predicate FreeOk(free: seq<int>, owner: map<int, Use>) {
    && (forall p :: p in free <==> UseOf(owner, p) == Free)
    && (forall i, j :: 0 <= i < j < |free| ==> free[i] != free[j])
  }

  ghost predicate PagesOk(d: Pages, owner: map<int, Use>) {
    forall p :: p in owner ==> p in d && |d[p]| == PGSIZE
  }

  ghost predicate FrameBut(s: Vm, s': Vm, r: int, a: int, b: int, pa: int) {
    forall p :: p != pa ==> FrameAt(s, s', r, a, b, p)
  }

  lemma Pop(free: seq<int>, owner: map<int, Use>)
    requires FreeOk(free, owner) && |free| > 0
    ensures FreeOk(free[1..], owner[free[0] := Held])
  {
    var rest, o := free[1..], owner[free[0] := Held];
    assert free == [free[0]] + rest;
    assert free[0] !in rest;
    forall p
      ensures p in rest <==> UseOf(o, p) == Free
    {
      assert p in free <==> UseOf(owner, p) == Free;
    }
  }

  lemma Push(free: seq<int>, owner: map<int, Use>, p: int)
    requires FreeOk(free, owner) && UseOf(owner, p) == Held
    ensures FreeOk([p] + free, owner[p := Free])
  {
  }

  /** The node page that walk() adds is the only change. */
  lemma WalkFrame(s: Vm, d: Pages, r: int, i: int, p: int)
    requires Owned(s.t, s.o) && IsRoot(s.o, r) && 0 <= i < PAGES / PTES && !Entry(s.t, r, i).v
    requires UseOf(s.o, p) == Free && forall q :: q != p ==> Page(d, q) == Page(s.d, q)
    ensures var s' := Vm(Hang(s.t, r, i, p), d, s.o[p := Held][p := Node(r, i)]);
            Owned(s'.t, s'.o) && Frame(s, s', r, 0, 0) && Keeps(s, s', r, 0, 0)
  {
    hide Hang, Lookup, Page;
    Handed(s.t, s.o, p, Held);
    HangOwned(s.t, s.o[p := Held], r, i, p);
    var s' := Vm(Hang(s.t, r, i, p), d, s.o[p := Held][p := Node(r, i)]);
    forall q
      ensures FrameAt(s, s', r, 0, 0, q)
    {
    }
    forall q, v
      ensures KeepAt(s, s', r, 0, 0, q, v)
    {
      assert SameAt(s.o[p := Held], s.t, s'.t, q, v);
    }
  }

  lemma BecomesBut(s: Vm, s': Vm, r: int, v: int, pa: int)
    requires Frame(s, s', r, v, v + 1)
    ensures FrameBut(s, s', r, v, v + 1, pa)
  {
  }

  lemma MapFrame(s: Vm, m: Vm, r: int, v: int, e: Pte)
    requires Frame(s, m, r, 0, 0) && Keeps(s, m, r, 0, 0) && Owned(m.t, m.o)
    requires Reaches(m.t, m.o, r, v) && Mappable(s.o, v, e.ppn)
    ensures var s' := Vm(Write(m.t, r, v, e), m.d, Mapped(m.o, r, v, e.ppn));
            && FrameBut(s, s', r, v, v + 1, e.ppn) && Keeps(s, s', r, v, v + 1)
            && Lookup(s'.t, r, v) == e
            && UseOf(m.o, e.ppn) == UseOf(s.o, e.ppn) && Page(s'.d, e.ppn) == Page(s.d, e.ppn)
  {
    hide Lookup, Write, Reaches;
    var s', b := Vm(Write(m.t, r, v, e), m.d, Mapped(m.o, r, v, e.ppn)), v + 1;
    ReachesRoot(m, r, v);
    WriteLookup(m.t, m.o, r, v, e, r, v);
    assert FrameAt(s, m, r, 0, 0, e.ppn);
    forall p | p != e.ppn
      ensures FrameAt(s, s', r, v, b, p)
    {
      assert FrameAt(s, m, r, 0, 0, p);
    }
    forall q, w
      ensures KeepAt(s, s', r, v, b, q, w)
    {
      assert KeepAt(s, m, r, 0, 0, q, w);
      FrameRoot(s, m, r, 0, 0, q);
      if IsRoot(m.o, q) && 0 <= w < PAGES {
        WriteLookup(m.t, m.o, r, v, e, q, w);
      }
    }
  }

  lemma ReachesRoot(s: Vm, r: int, v: int)
    requires Reaches(s.t, s.o, r, v)
    ensures IsRoot(s.o, r) && 0 <= v < PAGES
  {
  }

  /** A page the kernel holds; above user memory also one that the allocator does not manage. */
  ghost predicate Mappable(o: map<int, Use>, v: int, p: int) {
    UseOf(o, p) == Held || (TRAPFRAME <= v && UseOf(o, p) == Outside)
  }

  lemma NoNode(s: Vm, r: int, v: int)
    ensures !Entry(s.t, r, Hi(v)).v ==> !Lookup(s.t, r, v).v
  {
  }

  lemma NodeEntry(s: Vm, r: int, v: int)
    requires Reaches(s.t, s.o, r, v)
    ensures Lookup(s.t, r, v) == Entry(s.t, Entry(s.t, r, Hi(v)).ppn, Lo(v))
  {
  }

  lemma UserPage(s: Vm, r: int, v: int)
    requires Owned(s.t, s.o) && IsRoot(s.o, r) && 0 <= v < TRAPFRAME && Lookup(s.t, r, v).v
    ensures UseOf(s.o, Lookup(s.t, r, v).ppn) == Leaf(r, v)
  {
    assert LeafAt(s.t, s.o, r, v);
  }

  lemma CountedStill(free: seq<int>, owner: map<int, Use>, p: int)
    requires FreeOk(free, owner) && UseOf(owner, p) != Free
    ensures FreeOk(free, owner[p := Held])
  {
    var o := owner[p := Held];
    forall q
      ensures q in free <==> UseOf(o, q) == Free
    {
      assert q in free <==> UseOf(owner, q) == Free;
    }
  }

  lemma UnmapFrame(s: Vm, r: int, v: int)
    requires Owned(s.t, s.o) && Reaches(s.t, s.o, r, v) && Lookup(s.t, r, v).v
    ensures var o := Unmapped(s.o, v, Lookup(s.t, r, v));
            var s' := Vm(Write(s.t, r, v, NONE), s.d, if v < TRAPFRAME then o[Lookup(s.t, r, v).ppn := Free] else o);
            Frame(s, s', r, v, v + 1) && Keeps(s, s', r, v, v + 1) && !Lookup(s'.t, r, v).v
  {
    hide Lookup, Write, Reaches;
    ReachesRoot(s, r, v);
    var pa, b := Lookup(s.t, r, v).ppn, v + 1;
    var o := Unmapped(s.o, v, Lookup(s.t, r, v));
    var s' := Vm(Write(s.t, r, v, NONE), s.d, if v < TRAPFRAME then o[pa := Free] else o);
    assert LeafAt(s.t, s.o, r, v);
    forall p
      ensures FrameAt(s, s', r, v, b, p)
    {
    }
    WriteLookup(s.t, s.o, r, v, NONE, r, v);
    forall q, w
      ensures KeepAt(s, s', r, v, b, q, w)
    {
      if IsRoot(s.o, q) && 0 <= w < PAGES {
        WriteLookup(s.t, s.o, r, v, NONE, q, w);
      }
    }
  }

  /** Pages [a, b) of the table are not mapped. */
  ghost predicate Vacant(t: Tables, r: int, a: int, b: int) {
    forall v :: a <= v < b ==> !Lookup(t, r, v).v
  }

  lemma VacantNone(t: Tables, r: int, a: int)
    ensures Vacant(t, r, a, a)
  {
  }

  lemma VacantMore(s: Vm, s': Vm, r: int, a: int, v: int)
    requires Vacant(s.t, r, a, v) && IsRoot(s.o, r) && 0 <= a <= v < PAGES
    requires Keeps(s, s', r, v, v + 1) && !Lookup(s'.t, r, v).v
    ensures Vacant(s'.t, r, a, v + 1)
  {
    hide Lookup;
    forall w | a <= w < v + 1
      ensures !Lookup(s'.t, r, w).v
    {
      assert KeepAt(s, s', r, v, v + 1, r, w);
    }
  }

  /** A page taken from the free list ends up behind the new mapping, or back where it was. */
  lemma FreshFrame(s: Vm, m: Vm, s': Vm, r: int, v: int, pa: int)
    requires UseOf(s.o, pa) == Free && m.t == s.t && m.o == s.o[pa := Held]
    requires forall q :: q != pa ==> Page(m.d, q) == Page(s.d, q)
    requires FrameBut(m, s', r, v, v + 1, pa) && Keeps(m, s', r, v, v + 1)
    requires UseOf(s'.o, pa) == Free || UseOf(s'.o, pa) == Leaf(r, v)
    ensures Frame(s, s', r, v, v + 1) && Keeps(s, s', r, v, v + 1)
  {
    hide Lookup, Page;
    var b := v + 1;
    forall p
      ensures FrameAt(s, s', r, v, b, p)
    {
      assert p != pa ==> FrameAt(m, s', r, v, b, p);
    }
    forall q, w
      ensures KeepAt(s, s', r, v, b, q, w)
    {
      assert KeepAt(m, s', r, v, b, q, w);
    }
  }

  lemma FreedAgain(m: Vm, r: int, v: int, pa: int)
    ensures FrameBut(m, m.(o := m.o[pa := Free]), r, v, v + 1, pa)
    ensures Keeps(m, m.(o := m.o[pa := Free]), r, v, v + 1)
  {
    var s', b := m.(o := m.o[pa := Free]), v + 1;
    forall p | p != pa
      ensures FrameAt(m, s', r, v, b, p)
    {
    }
    forall q, w
      ensures KeepAt(m, s', r, v, b, q, w)
    {
    }
  }

  /** Pages [a, b) of the table are mapped with these permissions and hold zeros. */
  ghost predicate ZeroAt(s: Vm, r: int, v: int, perm: Perm) {
    Lookup(s.t, r, v).v && Lookup(s.t, r, v).perm == perm && Bytes(s, r, v) == Zeros()
  }

  ghost predicate Zeroed(s: Vm, r: int, a: int, b: int, perm: Perm) {
    forall v :: a <= v < b ==> ZeroAt(s, r, v, perm)
  }

  lemma ZeroedMore(s: Vm, s': Vm, r: int, a: int, v: int, perm: Perm)
    requires Owned(s.t, s.o) && IsRoot(s.o, r) && 0 <= a <= v < TRAPFRAME
    requires Zeroed(s, r, a, v, perm) && Frame(s, s', r, v, v + 1) && Keeps(s, s', r, v, v + 1)
    requires ZeroAt(s', r, v, perm)
    ensures Zeroed(s', r, a, v + 1, perm)
  {
    hide Lookup, Bytes, Zeros, Owned, Frame;
    forall w | a <= w < v + 1
      ensures ZeroAt(s', r, w, perm)
    {
      if w < v {
        assert ZeroAt(s, r, w, perm) && KeepAt(s, s', r, v, v + 1, r, w);
        KeepsBytes(s, s', r, v, v + 1, r, w);
      }
    }
  }

  /** Fresh zeros, or nothing at all, where nothing was mapped: the program sees no difference. */
  lemma ZerosUnseen(s: Vm, s': Vm, r: int, a: int, b: int)
    requires Owned(s.t, s.o) && Frame(s, s', r, a, b) && Keeps(s, s', r, a, b)
    requires Vacant(s.t, r, a, b) && forall v :: a <= v < b ==> Bytes(s', r, v) == Zeros()
    ensures SameMemory(s, s')
  {
    hide Lookup, Owned, Frame, Keeps;
    forall v | a <= v < b
      ensures SameBytes(s, s', r, v)
    {
      assert !Lookup(s.t, r, v).v;
    }
    MemoryStays(s, s', r, a, b);
  }

  lemma Empty(t: Tables, o: map<int, Use>)
    requires forall p :: UseOf(o, p) == Held || UseOf(o, p) == Outside
    ensures Owned(t, o) && FreeOk([], o)
  {
    forall p ensures TableAt(t, o, p) && NodeBack(t, o, p) && LeafBack(t, o, p) {
      assert UseOf(o, p) == Held || UseOf(o, p) == Outside;
    }
    forall r, i ensures NodeAt(t, o, r, i) { }
    forall r, v ensures LeafAt(t, o, r, v) { }
  }

  class Pager {
    const first: int
    const last: int
    var free: seq<int>
    var tables: Tables
    var data: Pages
    ghost var owner: map<int, Use>

    ghost function State(): Vm
      reads this
    {
      Vm(tables, data, owner)
    }

    /** Every page from the end of the kernel to the top of memory has a use; page 0 is not among them. */
    ghost predicate Counted()
      reads this
    {
      && 0 < first <= last <= PHYSTOP && (forall p :: p in owner <==> first <= p < last)
      && (forall p :: p in owner ==> owner[p] != Outside)
      && FreeOk(free, owner) && PagesOk(data, owner)
    }

    ghost predicate Valid()
      reads this
    {
      Counted() && Owned(tables, owner)
    }

    /** kinit(): every whole page from the end of the kernel to the top of memory goes on the free list. */
    constructor (end: nat)
      requires 0 < end <= PHYSTOP
      ensures Valid() && first == end && last == PHYSTOP
      ensures forall p :: first <= p < last ==> UseOf(owner, p) == Free
    {
      first, last := end, PHYSTOP;
      free, tables := [], map[];
      data := map p | p in Range(end, PHYSTOP) :: Zeros();
      owner := map p | p in Range(end, PHYSTOP) :: Held;
      new;
      hide Range, Owned, Zeros;
      Empty(tables, owner);
      ZerosSize();
      var p := first;
      while p + 1 <= last
        invariant first <= p <= last && Counted() && Owned(tables, owner) && first == end && last == PHYSTOP
        invariant forall q :: first <= q < last ==> UseOf(owner, q) == if q < p then Free else Held
      {
        Handed(tables, owner, p, Free);
        ghost var o := owner;
        Kfree(p);
        forall q | first <= q < last
          ensures UseOf(owner, q) == if q < p + 1 then Free else Held
        {
          assert UseOf(o, q) == if q < p then Free else Held;
        }
        p := p + 1;
      }
    }

    method Kalloc() returns (p: int)
      requires Valid()
      modifies this
      ensures Valid() && tables == old(tables)
      ensures p == 0 <==> old(free) == []
      ensures p == 0 ==> free == old(free) && State() == old(State())
      ensures p != 0 ==> UseOf(old(owner), p) == Free && owner == old(owner)[p := Held]
      ensures p != 0 ==> |old(free)| > 0 && p == old(free)[0] && free == old(free)[1..]
      ensures forall q :: q != p ==> Page(data, q) == Page(old(data), q)
    {
      hide Owned;
      if |free| == 0 {
        return 0;
      }
      Pop(free, owner);
      p := free[0];
      Handed(tables, owner, p, Held);
      free := free[1..];
      owner := owner[p := Held];
      assert |Zeros()| == PGSIZE;
      var junk: seq<int> :| |junk| == PGSIZE;
      data := data[p := junk];
    }

    method Kfree(p: int)
      requires Counted() && UseOf(owner, p) == Held
      modifies `free, `owner
      ensures Counted() && owner == old(owner)[p := Free] && free == [p] + old(free)
    {
      assert first <= p < last;
      Push(free, owner, p);
      free := [p] + free;
      owner := owner[p := Free];
    }

    /** Finds the node for page `v`, adding one if asked to; no mapping of any table changes. */
    method Walk(r: int, v: int, alloc: bool) returns (n: int)
      requires Valid() && IsRoot(owner, r) && 0 <= v < PAGES
      modifies this
      ensures Valid() && Frame(old(State()), State(), r, 0, 0) && Keeps(old(State()), State(), r, 0, 0)
      ensures !alloc ==> free == old(free) && State() == old(State())
      ensures n == 0 ==>
                free == old(free) && State() == old(State()) && !Entry(tables, r, Hi(v)).v && (alloc ==> free == [])
      ensures n != 0 ==> Reaches(tables, owner, r, v) && n == Entry(tables, r, Hi(v)).ppn
      ensures Lookup(tables, r, v) == old(Lookup(tables, r, v))
      ensures n == 0 <==> Hi(v) !in Nodes(old(tables), r) && (alloc ==> old(free) == [])
      ensures n != 0 ==> Nodes(tables, r) == Nodes(old(tables), r) + {Hi(v)}
      ensures |free| == |old(free)| - if n != 0 && Hi(v) !in Nodes(old(tables), r) then 1 else 0
    {
      hide Owned, Frame, Keeps, Hang, Nodes;
      HasNode(tables, r, v);
      ghost var s := State();
      Split(v, v);
      Refl(s, r, 0, 0);
      var pte := Entry(tables, r, Hi(v));
      if pte.v {
        ReachesNode(tables, owner, r, v);
        n := pte.ppn;
      } else {
        if !alloc {
          return 0;
        }
        var p := Kalloc();
        if p == 0 {
          return 0;
        }
        WalkFrame(s, data, r, Hi(v), p);
        RootTable(s.t, s.o, r);
        HangEntry(tables, r, Hi(v), p, r, Hi(v));
        HangEntry(tables, r, Hi(v), p, p, Lo(v));
        HangNodes(tables, r, Hi(v), p);
        tables := Hang(tables, r, Hi(v), p);
        owner := owner[p := Node(r, Hi(v))];
        n := p;
      }
    }

    /** Maps one page that the caller holds; on failure the page is still the caller's. */
    method MapPages(r: int, v: int, pa: int, perm: Perm) returns (ok: bool)
      requires Valid() && IsRoot(owner, r) && 0 <= v < PAGES && !Lookup(tables, r, v).v
      requires perm.r && (perm.u ==> v < TRAPFRAME) && Mappable(owner, v, pa)
      modifies this
      ensures Valid() && Keeps(old(State()), State(), r, v, v + 1) && FrameBut(old(State()), State(), r, v, v + 1, pa)
      ensures UseOf(owner, pa) == if ok && v < TRAPFRAME then Leaf(r, v) else old(UseOf(owner, pa))
      ensures Page(data, pa) == old(Page(data, pa))
      ensures ok ==> Lookup(tables, r, v) == Pte(true, pa, perm)
      ensures !ok ==> free == old(free) == [] && State() == old(State())
      ensures ok <==> |old(free)| + 1 >= CostOne(Nodes(old(tables), r), v)
      ensures ok ==> Nodes(tables, r) == Nodes(old(tables), r) + {Hi(v)}
      ensures ok ==> |free| == |old(free)| + 1 - CostOne(Nodes(old(tables), r), v)
    {
      hide Owned, Frame, Keeps, Write, Lookup, FrameBut, Reaches, Nodes;
      ghost var s := State();
      var n := Walk(r, v, true);
      if n == 0 {
        Refl(s, r, v, v + 1);
        BecomesBut(s, s, r, v, pa);
        return false;
      }
      ghost var m := State();
      var e := Pte(true, pa, perm);
      MapFrame(s, m, r, v, e);
      MapOwned(m.t, m.o, r, v, e);
      WriteNodes(m.t, m.o, r, v, e);
      tables := Write(tables, r, v, e);
      owner := Mapped(owner, r, v, pa);
      ok := true;
    }

    /** Takes one page out of a table and gives it back to the allocator if asked to. */
    method UnmapOne(r: int, v: int, doFree: bool)
      requires Valid() && IsRoot(owner, r) && 0 <= v < PAGES && (doFree <==> v < TRAPFRAME)
      modifies this
      ensures Valid() && data == old(data)
      ensures Frame(old(State()), State(), r, v, v + 1) && Keeps(old(State()), State(), r, v, v + 1)
      ensures !Lookup(tables, r, v).v
    {
      hide Owned, Frame, Keeps, Write, Lookup, Reaches, FreeOk;
      ghost var s := State();
      Refl(s, r, v, v + 1);
      var n := Walk(r, v, false);
      NoNode(s, r, v);
      if n == 0 {
        return;
      }
      var pte := Entry(tables, n, Lo(v));
      NodeEntry(s, r, v);
      if !pte.v {
        return;
      }
      UnmapFrame(s, r, v);
      UnmapOwned(s.t, s.o, r, v);
      if doFree {
        UserPage(s, r, v);
        owner := owner[pte.ppn := Held];
        CountedStill(free, s.o, pte.ppn);
        Kfree(pte.ppn);
        Handed(Write(s.t, r, v, NONE), Unmapped(s.o, v, pte), pte.ppn, Free);
      }
      tables := Write(tables, r, v, NONE);
    }

    /** Empties `n` pages from `v` on, mapped or not. */
    method Uvmunmap(r: int, v: int, n: nat, doFree: bool)
      requires Valid() && IsRoot(owner, r) && 0 <= v && v + n <= PAGES
      requires if doFree then v + n <= TRAPFRAME else TRAPFRAME <= v
      modifies this
      ensures Valid() && data == old(data)
      ensures Frame(old(State()), State(), r, v, v + n) && Keeps(old(State()), State(), r, v, v + n)
      ensures Vacant(tables, r, v, v + n)
    {
      hide Owned, Frame, Keeps, Lookup, Counted, Vacant;
      ghost var s := State();
      Refl(s, r, v, v + n);
      VacantNone(tables, r, v);
      var a := v;
      while a < v + n
        invariant v <= a <= v + n && Valid() && data == s.d && IsRoot(owner, r)
        invariant Frame(s, State(), r, v, v + n) && Keeps(s, State(), r, v, v + n)
        invariant Vacant(tables, r, v, a)
      {
        ghost var m := State();
        UnmapOne(r, a, doFree);
        VacantMore(m, State(), r, v, a);
        FrameRoot(m, State(), r, a, a + 1, r);
        Then(s, m, State(), r, v, v + n, a, a + 1, v, v + n);
        a := a + 1;
      }
    }

    /** A cleared page for `v`; if memory runs out, nothing is mapped and nothing is lost. */
    method MapFresh(r: int, v: int, perm: Perm) returns (pa: int)
      requires Valid() && IsRoot(owner, r) && 0 <= v < TRAPFRAME && !Lookup(tables, r, v).v && perm.r
      modifies this
      ensures Valid() && Frame(old(State()), State(), r, v, v + 1) && Keeps(old(State()), State(), r, v, v + 1)
      ensures pa != 0 ==> Lookup(tables, r, v) == Pte(true, pa, perm) && ZeroAt(State(), r, v, perm)
      ensures pa == 0 ==>
                !Lookup(tables, r, v).v && forall p :: UseOf(owner, p) == Held <==> UseOf(old(owner), p) == Held
      ensures pa == 0 <==> |old(free)| < CostOne(Nodes(old(tables), r), v)
      ensures pa == 0 ==> free == old(free) && tables == old(tables)
      ensures pa != 0 ==> Nodes(tables, r) == Nodes(old(tables), r) + {Hi(v)}
      ensures pa != 0 ==> |free| == |old(free)| - CostOne(Nodes(old(tables), r), v)
    {
      hide Owned, Frame, Keeps, Lookup, FrameBut, Zeros, FreeOk, Nodes;
      ghost var s := State();
      Refl(s, r, v, v + 1);
      pa := Kalloc();
      if pa == 0 {
        return 0;
      }
      ZerosSize();
      data := data[pa := Zeros()];
      ghost var m := State();
      var ok := MapPages(r, v, pa, perm);
      if !ok {
        FreedAgain(m, r, v, pa);
        Kfree(pa);
        Handed(tables, m.o, pa, Free);
        FreshFrame(s, m, State(), r, v, pa);
        return 0;
      }
      FreshFrame(s, m, State(), r, v, pa);
    }
  }

  lemma HasNode(t: Tables, r: int, v: int)
    requires 0 <= v < PAGES
    ensures Hi(v) in Nodes(t, r) <==> Entry(t, r, Hi(v)).v
    ensures Hi(v) in Nodes(t, r) ==> Nodes(t, r) + {Hi(v)} == Nodes(t, r)
  {
  }

  lemma HangNodes(t: Tables, r: int, i: int, p: int)
    requires r in t && |t[r]| == PTES && 0 <= i < PTES && p != r
    ensures Nodes(Hang(t, r, i, p), r) == Nodes(t, r) + {i}
  {
    forall j ensures j in Nodes(Hang(t, r, i, p), r) <==> j in Nodes(t, r) + {i} {
      HangEntry(t, r, i, p, r, j);
    }
  }

  /** Entries of a second-level table are no nodes of any table. */
  lemma WriteNodes(t: Tables, owner: map<int, Use>, r: int, v: int, e: Pte)
    requires Owned(t, owner) && Reaches(t, owner, r, v)
    ensures Nodes(Write(t, r, v, e), r) == Nodes(t, r)
  {
    hide Write, Entry, Owned;
    ReachesNode(t, owner, r, v);
    forall j ensures j in Nodes(Write(t, r, v, e), r) <==> j in Nodes(t, r) {
      WriteEntry(t, r, v, e, r, j);
    }
  }

  lemma ZerosSize()
    ensures |Zeros()| == PGSIZE
  {
  }

  lemma RootTable(t: Tables, owner: map<int, Use>, r: int)
    requires Owned(t, owner) && IsRoot(owner, r)
    ensures r in t && |t[r]| == PTES
  {
    assert TableAt(t, owner, r);
  }
}
