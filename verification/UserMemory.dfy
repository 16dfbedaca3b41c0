/** kernel/vm.c and kernel/proc.c: growing, shrinking, copying and freeing the memory of a process. */
module UserMemory {
  import opened Base
  import opened PageTable
  import opened VmState
  import opened PageCost
  import opened Paging

  /** Pages needed for `sz` bytes: PGROUNDUP(sz) / PGSIZE. */
  function Up(sz: nat): (n: nat)
    ensures sz <= n * PGSIZE < sz + PGSIZE
  {
    (sz + PGSIZE - 1) / PGSIZE
  }

  const TOP := TRAPFRAME * PGSIZE

  lemma UpMono(a: nat, b: nat)
    requires a <= b
    ensures Up(a) <= Up(b)
  {
  }

  /** User pages lie below the size of the process; above them only the trapframe and the trampoline. */
  ghost predicate ProcTable(t: Tables, r: int, sz: int) {
    && 0 <= sz <= TOP
    && forall v :: Up(sz) <= v < PAGES && v != TRAPFRAME && v != TRAMPOLINE ==> !Lookup(t, r, v).v
  }

  method Uvmdealloc(k: Pager, r: int, oldsz: nat, newsz: nat) returns (sz: nat)
    requires k.Valid() && IsRoot(k.owner, r) && oldsz <= TOP
    modifies k
    ensures k.Valid() && sz == (if newsz >= oldsz then oldsz else newsz)
    ensures Frame(old(k.State()), k.State(), r, Up(sz), Up(oldsz))
    ensures Keeps(old(k.State()), k.State(), r, Up(sz), Up(oldsz))
    ensures Vacant(k.tables, r, Up(sz), Up(oldsz))
  {
    hide Owned, Frame, Keeps, Vacant, Lookup, Up;
    UpMono(oldsz, TOP);
    UpExact(TRAPFRAME);
    if newsz >= oldsz {
      Refl(k.State(), r, Up(oldsz), Up(oldsz));
      VacantNone(k.tables, r, Up(oldsz));
      return oldsz;
    }
    UpMono(newsz, oldsz);
    if Up(newsz) < Up(oldsz) {
      k.Uvmunmap(r, Up(newsz), Up(oldsz) - Up(newsz), true);
    } else {
      Refl(k.State(), r, Up(newsz), Up(oldsz));
      VacantNone(k.tables, r, Up(oldsz));
    }
    return newsz;
  }

  lemma UpExact(n: nat)
    ensures Up(n * PGSIZE) == n
  {
  }

  lemma UpLess(n: nat, sz: nat)
    ensures n * PGSIZE < sz <==> n < Up(sz)
  {
  }

  /** Pages [0, n) of the table are mapped for the user. */
  ghost predicate Dense(t: Tables, r: int, n: int) {
    forall v :: 0 <= v < n ==> Lookup(t, r, v).v && Lookup(t, r, v).perm.u
  }

  /** Where growth to `newsz` bytes must stop: at the trapframe, if not before. */
  function Cap(newsz: nat): (n: nat)
    ensures n <= TRAPFRAME
  {
    if newsz <= TOP then Up(newsz) else TRAPFRAME
  }

  lemma {:induction false} Behinds(s: Vm, r: int, n: nat) returns (pages: set<int>)
    requires Owned(s.t, s.o) && IsRoot(s.o, r) && Dense(s.t, r, n) && n <= TRAPFRAME
    ensures |pages| == n
    ensures forall p :: p in pages ==> UseOf(s.o, p).Leaf? && UseOf(s.o, p).vpn < n
  {
    hide Lookup, Owned;
    if n == 0 {
      pages := {};
    } else {
      var rest := Behinds(s, r, n - 1);
      UserPage(s, r, n - 1);
      pages := rest + {Lookup(s.t, r, n - 1).ppn};
    }
  }

  /** A table cannot have more user pages than there is memory. */
  lemma Pigeonhole(s: Vm, r: int, n: nat, first: int, last: int)
    requires Owned(s.t, s.o) && IsRoot(s.o, r) && Dense(s.t, r, n) && n <= TRAPFRAME && first <= last
    requires forall p :: p in s.o <==> first <= p < last
    ensures n <= last - first
  {
    hide Owned, Dense;
    var pages := Behinds(s, r, n);
    SubsetBound(pages, Range(first, last));
  }

  /**
   * Growing maps zeroed pages from the first whole page above `oldsz` on. If memory runs out, the
   * pages mapped so far are taken back. Either way no program sees its memory change. A table that
   * is mapped from page 0 on may be asked for any size: it runs out of memory below the trapframe.
   */
  method Uvmalloc(k: Pager, r: int, oldsz: nat, newsz: nat, w: bool, x: bool) returns (sz: nat)
    requires k.Valid() && IsRoot(k.owner, r) && oldsz <= TOP && Vacant(k.tables, r, Up(oldsz), Cap(newsz))
    requires newsz <= TOP || Dense(k.tables, r, Up(oldsz))
    modifies k
    ensures k.Valid() && SameMemory(old(k.State()), k.State())
    ensures Frame(old(k.State()), k.State(), r, Up(oldsz), Cap(newsz))
    ensures Keeps(old(k.State()), k.State(), r, Up(oldsz), Cap(newsz))
    ensures newsz < oldsz ==> sz == oldsz && k.State() == old(k.State())
    ensures newsz >= oldsz ==> sz == newsz || sz == 0
    ensures newsz >= oldsz && sz == newsz ==>
              newsz <= TOP && Zeroed(k.State(), r, Up(oldsz), Up(newsz), Perm(true, w, x, true))
    ensures newsz >= oldsz && sz != newsz ==> Vacant(k.tables, r, Up(oldsz), Cap(newsz))
    ensures newsz >= oldsz ==>
              (sz == newsz <==> newsz <= TOP && |old(k.free)| >= GrowCost(old(k.tables), r, oldsz, newsz))
    ensures newsz < oldsz ==> k.free == old(k.free)
    ensures newsz >= oldsz && sz == newsz ==>
              Spent(|old(k.free)|, Nodes(old(k.tables), r), |k.free|, Nodes(k.tables, r), Range(Up(oldsz), Up(newsz)))
  {
    hide Owned, Frame, Keeps, Vacant, Lookup, Up, SameMemory, Zeroed, Dense, FreeOk, Cap, Nodes, Spent, Cost, Range,
         CostOne;
    ghost var s, free0, nodes0 := k.State(), |k.free|, Nodes(k.tables, r);
    Refl(s, r, Up(oldsz), Cap(newsz));
    if newsz < oldsz {
      Unchanged(s);
      return oldsz;
    }
    var lo := Up(oldsz);
    ghost var hi := Cap(newsz);
    CapBelow(oldsz, newsz);
    var perm := Perm(true, w, x, true);
    var a := lo;
    Refl(s, r, lo, lo);
    ZeroedNone(s, r, lo, perm);
    RangeNone(lo);
    SpentNone(free0, nodes0);
    while a * PGSIZE < newsz
      invariant lo <= a <= hi && k.Valid() && IsRoot(k.owner, r)
      invariant Frame(s, k.State(), r, lo, a) && Keeps(s, k.State(), r, lo, a)
      invariant Zeroed(k.State(), r, lo, a, perm)
      invariant Spent(free0, nodes0, |k.free|, Nodes(k.tables, r), Range(lo, a))
      decreases hi - a
    {
      if newsz > TOP {
        Filled(s, k.State(), r, lo, a, perm, k.first, k.last);
      }
      CapLess(a, newsz);
      VacantKept(s, k.State(), r, lo, a, hi);
      RangeMore(lo, a);
      SpentMore(free0, nodes0, |k.free|, Nodes(k.tables, r), Range(lo, a), a);
      ghost var m := k.State();
      var mem := k.MapFresh(r, a, perm);
      FrameRoot(m, k.State(), r, a, a + 1, r);
      if mem == 0 {
        Then(s, m, k.State(), r, lo, a, a, a + 1, lo, a + 1);
        ghost var f := k.State();
        UpExact(a);
        UpExact(lo);
        var back := Uvmdealloc(k, r, a * PGSIZE, lo * PGSIZE);
        Then(s, f, k.State(), r, lo, a + 1, lo, a, lo, hi);
        GaveBack(s, f, k.State(), r, lo, a, hi);
        if newsz <= TOP {
          UpLess(a, newsz);
          RangeGrows(nodes0, lo, a + 1, Up(newsz));
        }
        return 0;
      }
      ZeroedMore(m, k.State(), r, lo, a, perm);
      Then(s, m, k.State(), r, lo, a, a, a + 1, lo, a + 1);
      a := a + 1;
    }
    CapLess(a, newsz);
    Then(s, k.State(), k.State(), r, lo, a, lo, lo, lo, hi) by { Refl(k.State(), r, lo, lo); }
    ZeroedSame(s, k.State(), r, lo, a, perm);
    SpentAll(free0, nodes0, |k.free|, Nodes(k.tables, r), Range(lo, a));
    return newsz;
  }

  /** The pages that growing from `oldsz` to `newsz` bytes takes. */
  ghost function GrowCost(t: Tables, r: int, oldsz: nat, newsz: nat): nat {
    Cost(Nodes(t, r), Range(Up(oldsz), Up(newsz)))
  }

  lemma RangeNone(a: int)
    ensures Range(a, a) == {}
  {
  }

  lemma RangeMore(a: int, b: int)
    requires a <= b
    ensures Range(a, b + 1) == Range(a, b) + {b} && b !in Range(a, b)
  {
  }

  lemma RangeGrows(nodes: set<int>, a: int, b: int, c: int)
    requires b <= c
    ensures Cost(nodes, Range(a, b)) <= Cost(nodes, Range(a, c))
  {
    hide Cost;
    CostGrows(nodes, Range(a, b), Range(a, c));
  }

  lemma SpentAll(free: nat, nodes: set<int>, free': nat, nodes': set<int>, pages: set<int>)
    requires Spent(free, nodes, free', nodes', pages)
    ensures free >= Cost(nodes, pages)
  {
  }

  lemma CapBelow(oldsz: nat, newsz: nat)
    requires oldsz <= newsz && oldsz <= TOP
    ensures Up(oldsz) <= Cap(newsz)
  {
    UpMono(oldsz, TOP);
    UpExact(TRAPFRAME);
    if newsz <= TOP {
      UpMono(oldsz, newsz);
    }
  }

  lemma CapLess(a: nat, newsz: nat)
    requires a < TRAPFRAME || newsz <= TOP
    ensures a * PGSIZE < newsz && a <= Cap(newsz) ==> a < Cap(newsz)
    ensures a * PGSIZE >= newsz && a <= Cap(newsz) ==> newsz <= TOP && a == Cap(newsz) == Up(newsz)
  {
    UpLess(a, newsz);
  }

  /** With every page below `a` mapped, `a` is still below the trapframe. */
  lemma Filled(s: Vm, s': Vm, r: int, lo: nat, a: nat, perm: Perm, first: int, last: int)
    requires Dense(s.t, r, lo) && Keeps(s, s', r, lo, a) && Zeroed(s', r, lo, a, perm) && perm.u
    requires IsRoot(s.o, r) && IsRoot(s'.o, r) && Owned(s'.t, s'.o) && lo <= a <= TRAPFRAME
    requires 0 < first <= last <= PHYSTOP && forall p :: p in s'.o <==> first <= p < last
    ensures a < TRAPFRAME && Dense(s'.t, r, a)
  {
    hide Lookup, Owned;
    forall v | 0 <= v < a
      ensures Lookup(s'.t, r, v).v && Lookup(s'.t, r, v).perm.u
    {
      assert v < lo ==> KeepAt(s, s', r, lo, a, r, v);
      assert lo <= v ==> ZeroAt(s', r, v, perm);
    }
    Pigeonhole(s', r, a, first, last);
  }

  lemma Unchanged(s: Vm)
    ensures SameMemory(s, s)
  {
    forall q, v ensures SameBytes(s, s, q, v) { }
  }

  lemma ZeroedNone(s: Vm, r: int, a: int, perm: Perm)
    ensures Zeroed(s, r, a, a, perm)
  {
  }

  lemma VacantKept(s: Vm, s': Vm, r: int, lo: int, a: int, hi: int)
    requires Vacant(s.t, r, lo, hi) && Keeps(s, s', r, lo, a) && IsRoot(s.o, r) && 0 <= lo <= a < hi <= PAGES
    ensures !Lookup(s'.t, r, a).v
  {
    hide Lookup;
    assert KeepAt(s, s', r, lo, a, r, a);
  }

  lemma ZeroedSame(s: Vm, s': Vm, r: int, lo: int, hi: int, perm: Perm)
    requires Owned(s.t, s.o) && Frame(s, s', r, lo, hi) && Keeps(s, s', r, lo, hi)
    requires Vacant(s.t, r, lo, hi) && Zeroed(s', r, lo, hi, perm)
    ensures SameMemory(s, s')
  {
    hide Owned, Frame, Keeps, Lookup, Vacant, SameMemory;
    forall v | lo <= v < hi
      ensures Bytes(s', r, v) == Zeros()
    {
      assert ZeroAt(s', r, v, perm);
    }
    ZerosUnseen(s, s', r, lo, hi);
  }

  /** After a failure all pages from `lo` on are unmapped again. */
  lemma GaveBack(s: Vm, f: Vm, s': Vm, r: int, lo: int, a: int, hi: int)
    requires Owned(s.t, s.o) && Vacant(s.t, r, lo, hi) && IsRoot(s.o, r) && 0 <= lo <= a < hi <= PAGES
    requires Frame(s, f, r, lo, a + 1) && Keeps(s, f, r, lo, a + 1) && !Lookup(f.t, r, a).v
    requires Frame(f, s', r, lo, a) && Keeps(f, s', r, lo, a) && Vacant(s'.t, r, lo, a)
    requires Frame(s, s', r, lo, hi) && Keeps(s, s', r, lo, hi)
    ensures Vacant(s'.t, r, lo, hi) && SameMemory(s, s')
  {
    hide Owned, Lookup, SameMemory;
    FrameRoot(s, f, r, lo, a + 1, r);
    forall v | lo <= v < hi
      ensures !Lookup(s'.t, r, v).v
    {
      assert KeepAt(s, f, r, lo, a + 1, r, v) && KeepAt(f, s', r, lo, a, r, v);
    }
    ZerosUnseen(s, s', r, lo, hi);
  }

  /** Demand paging: a page below `sz` that is not mapped yet becomes a page of zeros, which is what it was. */
  method Vmfault(k: Pager, r: int, sz: nat, va: nat) returns (pa: int)
    requires k.Valid() && IsRoot(k.owner, r) && sz <= TOP
    modifies k
    ensures k.Valid() && SameMemory(old(k.State()), k.State())
    ensures var v := va / PGSIZE;
            Frame(old(k.State()), k.State(), r, v, v + 1) && Keeps(old(k.State()), k.State(), r, v, v + 1)
    ensures pa != 0 ==> va < sz && !Lookup(old(k.tables), r, va / PGSIZE).v
                        && Lookup(k.tables, r, va / PGSIZE) == Pte(true, pa, Perm(true, true, false, true))
    ensures pa == 0 ==> Lookup(k.tables, r, va / PGSIZE).v == Lookup(old(k.tables), r, va / PGSIZE).v
    ensures va >= sz ==> k.State() == old(k.State())
    ensures var v, nodes := va / PGSIZE, Nodes(old(k.tables), r);
            pa != 0 <==> va < sz && !Lookup(old(k.tables), r, v).v && |old(k.free)| >= CostOne(nodes, v)
    ensures pa == 0 ==> k.free == old(k.free) && k.tables == old(k.tables)
    ensures pa != 0 ==> |k.free| == |old(k.free)| - CostOne(Nodes(old(k.tables), r), va / PGSIZE)
    ensures pa != 0 ==> Nodes(k.tables, r) == Nodes(old(k.tables), r) + {Hi(va / PGSIZE)}
  {
    hide Owned, Frame, Keeps, Lookup, SameMemory, Entry, Zeros, Nodes, CostOne;
    ghost var s := k.State();
    var v := va / PGSIZE;
    Refl(s, r, v, v + 1);
    Unchanged(s);
    if va >= sz {
      return 0;
    }
    var n := k.Walk(r, v, false);
    NoNode(s, r, v);
    if n != 0 {
      NodeEntry(s, r, v);
      if Entry(k.tables, n, Lo(v)).v {
        return 0;
      }
    }
    VacantOne(s, r, v);
    pa := k.MapFresh(r, v, Perm(true, true, false, true));
    FreshBytes(k.State(), r, v);
    ZerosUnseen(s, k.State(), r, v, v + 1);
  }

  lemma VacantOne(s: Vm, r: int, v: int)
    requires !Lookup(s.t, r, v).v
    ensures Vacant(s.t, r, v, v + 1)
  {
  }

  lemma FreshBytes(s: Vm, r: int, v: int)
    requires !Lookup(s.t, r, v).v || ZeroAt(s, r, v, Perm(true, true, false, true))
    ensures Bytes(s, r, v) == Zeros()
  {
  }

  // ---- fork ----

  /** The page is mapped in both tables or in neither, with equal permissions and equal contents. */
  ghost predicate CopiedAt(s: Vm, parent: int, child: int, v: int) {
    && Lookup(s.t, child, v).v == Lookup(s.t, parent, v).v
    && (Lookup(s.t, child, v).v ==> Lookup(s.t, child, v).perm == Lookup(s.t, parent, v).perm)
    && Bytes(s, child, v) == Bytes(s, parent, v)
  }

  ghost predicate Copied(s: Vm, parent: int, child: int, n: int) {
    forall v :: 0 <= v < n ==> CopiedAt(s, parent, child, v)
  }

  lemma CopiedMore(s: Vm, s': Vm, parent: int, child: int, i: int)
    requires Owned(s.t, s.o) && IsRoot(s.o, parent) && IsRoot(s.o, child) && parent != child && 0 <= i < TRAPFRAME
    requires Copied(s, parent, child, i) && Frame(s, s', child, i, i + 1) && Keeps(s, s', child, i, i + 1)
    requires CopiedAt(s', parent, child, i)
    ensures Copied(s', parent, child, i + 1)
  {
    hide Lookup, Bytes, Owned, Frame;
    forall v | 0 <= v < i + 1
      ensures CopiedAt(s', parent, child, v)
    {
      if v < i {
        assert CopiedAt(s, parent, child, v);
        assert KeepAt(s, s', child, i, i + 1, child, v) && KeepAt(s, s', child, i, i + 1, parent, v);
        KeepsBytes(s, s', child, i, i + 1, child, v);
        KeepsBytes(s, s', child, i, i + 1, parent, v);
      }
    }
  }

  /** One page of the parent, in a page of the child's own. */
  method CopyPage(k: Pager, parent: int, child: int, i: int) returns (ok: bool)
    requires k.Valid() && IsRoot(k.owner, parent) && IsRoot(k.owner, child) && parent != child
    requires 0 <= i < TRAPFRAME && !Lookup(k.tables, child, i).v
    modifies k
    ensures k.Valid() && Frame(old(k.State()), k.State(), child, i, i + 1)
    ensures Keeps(old(k.State()), k.State(), child, i, i + 1)
    ensures ok ==> CopiedAt(k.State(), parent, child, i)
    ensures !ok ==> !Lookup(k.tables, child, i).v
    ensures !Lookup(old(k.tables), parent, i).v ==> ok && k.free == old(k.free) && k.tables == old(k.tables)
    ensures Lookup(old(k.tables), parent, i).v ==>
              var nodes := Nodes(old(k.tables), child);
              && (ok <==> |old(k.free)| >= CostOne(nodes, i))
              && (ok ==> |k.free| == |old(k.free)| - CostOne(nodes, i) && Nodes(k.tables, child) == nodes + {Hi(i)})
  {
    hide Owned, Frame, Keeps, Lookup, FrameBut, Bytes, Entry, FreeOk, Zeros, Nodes;
    ghost var s := k.State();
    Refl(s, child, i, i + 1);
    NoNode(s, parent, i);
    NeitherMapped(s, parent, child, i);
    var n := k.Walk(parent, i, false);
    if n == 0 {
      return true;
    }
    var pte := Entry(k.tables, n, Lo(i));
    NodeEntry(s, parent, i);
    if !pte.v {
      return true;
    }
    UserPage(s, parent, i);
    var mem := k.Kalloc();
    if mem == 0 {
      return false;
    }
    k.data := k.data[mem := Page(k.data, pte.ppn)];
    ghost var m := k.State();
    LeafReadable(s, parent, i);
    var mapped := k.MapPages(child, i, mem, pte.perm);
    if !mapped {
      FreedAgain(m, child, i, mem);
      k.Kfree(mem);
      Handed(k.tables, m.o, mem, Free);
      FreshFrame(s, m, k.State(), child, i, mem);
      return false;
    }
    FreshFrame(s, m, k.State(), child, i, mem);
    SameContents(s, k.State(), parent, child, i, mem);
    return true;
  }

  lemma NeitherMapped(s: Vm, parent: int, child: int, i: int)
    requires !Lookup(s.t, child, i).v
    ensures !Lookup(s.t, parent, i).v ==> CopiedAt(s, parent, child, i)
  {
  }

  lemma LeafReadable(s: Vm, r: int, i: int)
    requires Owned(s.t, s.o) && IsRoot(s.o, r) && 0 <= i < PAGES && Lookup(s.t, r, i).v
    ensures Lookup(s.t, r, i).perm.r
  {
    assert LeafAt(s.t, s.o, r, i);
  }

  lemma SameContents(s: Vm, s': Vm, parent: int, child: int, i: int, mem: int)
    requires Owned(s.t, s.o) && IsRoot(s.o, parent) && 0 <= i < TRAPFRAME && parent != child
    requires Frame(s, s', child, i, i + 1) && Keeps(s, s', child, i, i + 1) && Lookup(s.t, parent, i).v
    requires Lookup(s'.t, child, i) == Pte(true, mem, Lookup(s.t, parent, i).perm)
    requires Page(s'.d, mem) == Page(s.d, Lookup(s.t, parent, i).ppn)
    ensures CopiedAt(s', parent, child, i)
  {
    hide Lookup;
    KeepsBytes(s, s', child, i, i + 1, parent, i);
    assert KeepAt(s, s', child, i, i + 1, parent, i);
  }

  /**
   * The child gets equal memory on pages of its own; the parent and everyone else keep theirs. On
   * failure the child has nothing mapped.
   */
  method Uvmcopy(k: Pager, parent: int, child: int, sz: nat) returns (ok: bool)
    requires k.Valid() && IsRoot(k.owner, parent) && IsRoot(k.owner, child) && parent != child
    requires sz <= TOP && Vacant(k.tables, child, 0, Up(sz))
    modifies k
    ensures k.Valid() && Frame(old(k.State()), k.State(), child, 0, Up(sz))
    ensures Keeps(old(k.State()), k.State(), child, 0, Up(sz))
    ensures ok ==> Copied(k.State(), parent, child, Up(sz))
    ensures !ok ==> Vacant(k.tables, child, 0, Up(sz))
    ensures ok <==> |old(k.free)| >= Cost(Nodes(old(k.tables), child), MappedIn(old(k.tables), parent, Up(sz)))
  {
    hide Owned, Frame, Keeps, Lookup, Bytes, Up, Vacant, Copied, Nodes, Spent, MappedIn, Cost, CostOne;
    ghost var s, n := k.State(), Up(sz);
    ghost var free0, nodes0 := |k.free|, Nodes(k.tables, child);
    MappedNone(s.t, parent);
    SpentNone(free0, nodes0);
    UpMono(sz, TOP);
    UpExact(TRAPFRAME);
    Refl(s, child, 0, 0);
    CopiedNone(s, parent, child);
    var i := 0;
    while i * PGSIZE < sz
      invariant 0 <= i <= n && k.Valid() && IsRoot(k.owner, parent) && IsRoot(k.owner, child)
      invariant Frame(s, k.State(), child, 0, i) && Keeps(s, k.State(), child, 0, i)
      invariant Copied(k.State(), parent, child, i)
      invariant Spent(free0, nodes0, |k.free|, Nodes(k.tables, child), MappedIn(s.t, parent, i))
      decreases n - i
    {
      UpLess(i, sz);
      VacantKept(s, k.State(), child, 0, i, n);
      ghost var m := k.State();
      ParentStays(s, m, parent, child, i);
      MappedMore(s.t, parent, i);
      SpentMore(free0, nodes0, |k.free|, Nodes(k.tables, child), MappedIn(s.t, parent, i), i);
      ok := CopyPage(k, parent, child, i);
      FrameRoot(m, k.State(), child, i, i + 1, child);
      FrameRoot(m, k.State(), child, i, i + 1, parent);
      Then(s, m, k.State(), child, 0, i, i, i + 1, 0, i + 1);
      if !ok {
        ghost var f := k.State();
        k.Uvmunmap(child, 0, i, true);
        Then(s, f, k.State(), child, 0, i + 1, 0, i, 0, n);
        GaveBack(s, f, k.State(), child, 0, i, n);
        MappedGrows(nodes0, s.t, parent, i + 1, n);
        return false;
      }
      CopiedMore(m, k.State(), parent, child, i);
      i := i + 1;
    }
    UpLess(i, sz);
    SpentAll(free0, nodes0, |k.free|, Nodes(k.tables, child), MappedIn(s.t, parent, i));
    return true;
  }

  /** The first `n` pages that are mapped in table `r`. */
  ghost function MappedIn(t: Tables, r: int, n: int): set<int> {
    set v | 0 <= v < n && Lookup(t, r, v).v
  }

  lemma MappedNone(t: Tables, r: int)
    ensures MappedIn(t, r, 0) == {}
  {
  }

  lemma MappedMore(t: Tables, r: int, i: int)
    requires 0 <= i
    ensures i !in MappedIn(t, r, i)
    ensures MappedIn(t, r, i + 1) == if Lookup(t, r, i).v then MappedIn(t, r, i) + {i} else MappedIn(t, r, i)
  {
  }

  lemma MappedGrows(nodes: set<int>, t: Tables, r: int, a: int, b: int)
    requires a <= b
    ensures Cost(nodes, MappedIn(t, r, a)) <= Cost(nodes, MappedIn(t, r, b))
  {
    hide Cost;
    CostGrows(nodes, MappedIn(t, r, a), MappedIn(t, r, b));
  }

  lemma ParentStays(s: Vm, s': Vm, parent: int, child: int, i: int)
    requires Keeps(s, s', child, 0, i) && IsRoot(s.o, parent) && parent != child && 0 <= i < PAGES
    ensures Lookup(s'.t, parent, i) == Lookup(s.t, parent, i)
  {
    assert KeepAt(s, s', child, 0, i, parent, i);
  }

  lemma CopiedNone(s: Vm, parent: int, child: int)
    ensures Copied(s, parent, child, 0)
  {
  }

  /** Parent and child share no physical page. */
  lemma CopiesDisjoint(s: Vm, parent: int, child: int, v: int, w: int)
    requires Owned(s.t, s.o) && IsRoot(s.o, parent) && IsRoot(s.o, child) && parent != child
    requires 0 <= v < TRAPFRAME && 0 <= w < TRAPFRAME && Lookup(s.t, parent, v).v && Lookup(s.t, child, w).v
    ensures Lookup(s.t, parent, v).ppn != Lookup(s.t, child, w).ppn
  {
    assert LeafAt(s.t, s.o, parent, v) && LeafAt(s.t, s.o, child, w);
  }
}
