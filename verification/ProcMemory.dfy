/** kernel/proc.c and kernel/vm.c: the life of a process's page table, from allocproc() to freeproc(). */
module ProcMemory {
  import opened PageTable
  import opened VmState
  import opened PageCost
  import opened Paging
  import opened UserMemory

  // ---- freewalk ----

  ghost predicate ClearTo(t: Tables, r: int, i: int) {
    forall j :: 0 <= j < i ==> !Entry(t, r, j).v
  }

  lemma UnhangStep(s: Vm, r: int, i: int)
    requires Owned(s.t, s.o) && IsRoot(s.o, r) && 0 <= i < PTES && Entry(s.t, r, i).v
    requires Vacant(s.t, r, 0, PAGES) && ClearTo(s.t, r, i)
    ensures var p := Entry(s.t, r, i).ppn;
            var s' := Vm(Unhang(s.t, r, i), s.d, s.o[p := Held][p := Free]);
            && UseOf(s.o, p) == Node(r, i) && Clear(s.t, p)
            && Owned(s'.t, s'.o) && Frame(s, s', r, 0, 0) && Keeps(s, s', r, 0, PAGES)
            && Vacant(s'.t, r, 0, PAGES) && ClearTo(s'.t, r, i + 1)
  {
    hide Lookup, Unhang, Owned;
    var p := Entry(s.t, r, i).ppn;
    NodeClear(s.t, s.o, r, i);
    UnhangOwned(s.t, s.o, r, i);
    RootTable(s.t, s.o, r);
    var s' := Vm(Unhang(s.t, r, i), s.d, s.o[p := Held][p := Free]);
    Handed(s'.t, s.o[p := Held], p, Free);
    forall q
      ensures FrameAt(s, s', r, 0, 0, q)
    {
    }
    forall q, v
      ensures KeepAt(s, s', r, 0, PAGES, q, v)
    {
      UnhangLookup(s.t, s.o, r, i, q, v);
    }
    forall v | 0 <= v < PAGES
      ensures !Lookup(s'.t, r, v).v
    {
      UnhangLookup(s.t, s.o, r, i, r, v);
    }
    forall j | 0 <= j < i + 1
      ensures !Entry(s'.t, r, j).v
    {
      UnhangEntry(s.t, r, i, r, j);
    }
  }

  /** freewalk() on a lower-level page: "freewalk: leaf" exactly if an entry is left, and else the page is
      given back. */
  method FreeWalkNode(k: Pager, p: int) returns (leaf: bool)
    requires k.Counted() && UseOf(k.owner, p) == Held
    requires forall j :: 0 <= j < PTES && Entry(k.tables, p, j).v ==>
               var perm := Entry(k.tables, p, j).perm; perm.r || perm.w || perm.x
    modifies k`free, k`owner
    ensures leaf <==> !Clear(k.tables, p)
    ensures k.Counted() && k.owner == if leaf then old(k.owner) else old(k.owner)[p := Free]
  {
    var j := 0;
    while j < PTES
      invariant 0 <= j <= PTES && forall i :: 0 <= i < j ==> !Entry(k.tables, p, i).v
    {
      if Entry(k.tables, p, j).v {
        return true;
      }
      j := j + 1;
    }
    k.Kfree(p);
    return false;
  }

  /** Gives back the root and every node behind it, and no other page. */
  method FreeWalk(k: Pager, r: int)
    requires k.Valid() && IsRoot(k.owner, r) && Vacant(k.tables, r, 0, PAGES)
    modifies k
    ensures k.Valid() && UseOf(k.owner, r) == Free && k.data == old(k.data)
    ensures FrameBut(old(k.State()), k.State(), r, 0, 0, r) && Keeps(old(k.State()), k.State(), r, 0, PAGES)
  {
    hide Owned, Frame, Keeps, Vacant, Lookup, Unhang, FreeOk, ClearTo, FrameBut;
    ghost var s := k.State();
    Refl(s, r, 0, 0);
    Refl(s, r, 0, PAGES);
    ClearNone(s.t, r);
    var i := 0;
    while i < PTES
      invariant 0 <= i <= PTES && k.Valid() && IsRoot(k.owner, r) && k.data == s.d
      invariant Frame(s, k.State(), r, 0, 0) && Keeps(s, k.State(), r, 0, PAGES)
      invariant Vacant(k.tables, r, 0, PAGES) && ClearTo(k.tables, r, i)
    {
      var pte := Entry(k.tables, r, i);
      ghost var m := k.State();
      NodeNotLeaf(m, r, i);
      if pte.v && !pte.perm.r && !pte.perm.w && !pte.perm.x {
        UnhangStep(m, r, i);
        CountedStill(k.free, m.o, pte.ppn);
        k.owner := k.owner[pte.ppn := Held];
        var leaf := FreeWalkNode(k, pte.ppn);
        k.tables := Unhang(k.tables, r, i);
        FrameRoot(m, k.State(), r, 0, 0, r);
        ThenApart(s, m, k.State(), r);
      } else {
        assert !pte.v;
        ClearNext(k.tables, r, i);
      }
      i := i + 1;
    }
    ghost var m := k.State();
    ClearAll(m.t, r);
    UnrootOwned(m.t, m.o, r);
    CountedStill(k.free, m.o, r);
    k.owner := k.owner[r := Held];
    k.Kfree(r);
    Handed(m.t, m.o[r := Held], r, Free);
    LastPage(s, m, r);
  }

  lemma NodeNotLeaf(s: Vm, r: int, i: int)
    requires Owned(s.t, s.o) && IsRoot(s.o, r) && 0 <= i < PTES
    ensures Entry(s.t, r, i).v ==> Entry(s.t, r, i).perm == NOPERM
  {
    assert NodeAt(s.t, s.o, r, i);
  }

  lemma ThenApart(s0: Vm, s1: Vm, s2: Vm, r: int)
    requires Frame(s0, s1, r, 0, 0) && Keeps(s0, s1, r, 0, PAGES) && Frame(s1, s2, r, 0, 0)
    requires Keeps(s1, s2, r, 0, PAGES)
    ensures Frame(s0, s2, r, 0, 0) && Keeps(s0, s2, r, 0, PAGES)
  {
    hide Lookup;
    forall p
      ensures FrameAt(s0, s2, r, 0, 0, p)
    {
      assert FrameAt(s0, s1, r, 0, 0, p) && FrameAt(s1, s2, r, 0, 0, p);
    }
    forall q, v
      ensures KeepAt(s0, s2, r, 0, PAGES, q, v)
    {
      assert KeepAt(s0, s1, r, 0, PAGES, q, v) && KeepAt(s1, s2, r, 0, PAGES, q, v);
      FrameRoot(s0, s1, r, 0, 0, q);
    }
  }

  lemma ClearNone(t: Tables, r: int)
    ensures ClearTo(t, r, 0)
  {
  }

  lemma ClearNext(t: Tables, r: int, i: int)
    requires ClearTo(t, r, i) && !Entry(t, r, i).v
    ensures ClearTo(t, r, i + 1)
  {
  }

  lemma ClearAll(t: Tables, r: int)
    requires ClearTo(t, r, PTES)
    ensures Clear(t, r)
  {
  }

  lemma LastPage(s: Vm, m: Vm, r: int)
    requires Frame(s, m, r, 0, 0) && Keeps(s, m, r, 0, PAGES)
    ensures var s' := m.(o := m.o[r := Held][r := Free]);
            FrameBut(s, s', r, 0, 0, r) && Keeps(s, s', r, 0, PAGES)
  {
    hide Lookup;
    var s' := m.(o := m.o[r := Held][r := Free]);
    forall p | p != r
      ensures FrameAt(s, s', r, 0, 0, p)
    {
      assert FrameAt(s, m, r, 0, 0, p);
    }
    forall q, v
      ensures KeepAt(s, s', r, 0, PAGES, q, v)
    {
      assert KeepAt(s, m, r, 0, PAGES, q, v);
    }
  }

  // ---- A table from first to last ----

  /** The page belongs to the table with root `r`. */
  ghost predicate About(u: Use, r: int) {
    (u.Node? || u.Leaf?) && u.root == r
  }

  /** Every page of the table is free, and every other page has the use it had. */
  ghost predicate ReleasedAt(o: map<int, Use>, o': map<int, Use>, r: int, p: int) {
    UseOf(o', p) == if p == r || About(UseOf(o, p), r) then Free else UseOf(o, p)
  }

  ghost predicate Released(o: map<int, Use>, o': map<int, Use>, r: int) {
    forall p :: ReleasedAt(o, o', r, p)
  }

  lemma ReleasedBy(s: Vm, s': Vm, r: int)
    requires Owned(s.t, s.o) && Owned(s'.t, s'.o) && FrameBut(s, s', r, 0, TRAPFRAME, r) && UseOf(s'.o, r) == Free
    ensures Released(s.o, s'.o, r)
  {
    hide Lookup;
    forall p
      ensures ReleasedAt(s.o, s'.o, r, p)
    {
      assert p != r ==> FrameAt(s, s', r, 0, TRAPFRAME, p);
      assert NodeBack(s'.t, s'.o, p) && LeafBack(s'.t, s'.o, p);
      assert NodeBack(s.t, s.o, p) && LeafBack(s.t, s.o, p);
    }
  }

  lemma FrameThenBut(s0: Vm, s1: Vm, s2: Vm, r: int, a: int, b: int)
    requires Frame(s0, s1, r, a, b) && Keeps(s0, s1, r, a, b) && FrameBut(s1, s2, r, 0, 0, r)
    requires Keeps(s1, s2, r, 0, PAGES)
    requires 0 <= a && b <= PAGES
    ensures Keeps(s0, s2, r, 0, PAGES)
    ensures b <= TRAPFRAME ==> FrameBut(s0, s2, r, 0, TRAPFRAME, r)
  {
    hide Lookup;
    forall p | p != r && b <= TRAPFRAME
      ensures FrameAt(s0, s2, r, 0, TRAPFRAME, p)
    {
      assert FrameAt(s0, s1, r, a, b, p) && FrameAt(s1, s2, r, 0, 0, p);
    }
    forall q, v
      ensures KeepAt(s0, s2, r, 0, PAGES, q, v)
    {
      assert KeepAt(s0, s1, r, a, b, q, v) && KeepAt(s1, s2, r, 0, PAGES, q, v);
      FrameRoot(s0, s1, r, a, b, q);
    }
  }

  method Uvmfree(k: Pager, r: int, sz: nat)
    requires k.Valid() && IsRoot(k.owner, r) && sz <= TOP && Vacant(k.tables, r, Up(sz), PAGES)
    modifies k
    ensures k.Valid() && Released(old(k.owner), k.owner, r) && Keeps(old(k.State()), k.State(), r, 0, PAGES)
    ensures k.data == old(k.data)
  {
    hide Owned, Frame, Keeps, Vacant, Lookup, FreeOk, FrameBut, Up, Released;
    ghost var s := k.State();
    UpMono(sz, TOP);
    UpExact(TRAPFRAME);
    Refl(s, r, 0, Up(sz));
    UpZero(s.t, r, sz);
    if sz > 0 {
      k.Uvmunmap(r, 0, Up(sz), true);
    }
    ghost var m := k.State();
    FrameRoot(s, m, r, 0, Up(sz), r);
    AllVacant(s, m, r, Up(sz));
    FreeWalk(k, r);
    FrameThenBut(s, m, k.State(), r, 0, Up(sz));
    ReleasedBy(s, k.State(), r);
  }

  lemma UpZero(t: Tables, r: int, sz: nat)
    ensures sz == 0 ==> Up(sz) == 0 && Vacant(t, r, 0, Up(sz))
  {
  }

  lemma AllVacant(s: Vm, m: Vm, r: int, n: int)
    requires Keeps(s, m, r, 0, n) && IsRoot(s.o, r) && 0 <= n <= PAGES
    requires Vacant(s.t, r, n, PAGES) && Vacant(m.t, r, 0, n)
    ensures Vacant(m.t, r, 0, PAGES)
  {
    hide Lookup;
    forall v | 0 <= v < PAGES
      ensures !Lookup(m.t, r, v).v
    {
      assert KeepAt(s, m, r, 0, n, r, v);
    }
  }

  /** All memory of a process returns to the free list; no other page and no other table changes. */
  method ProcFreepagetable(k: Pager, r: int, sz: nat)
    requires k.Valid() && IsRoot(k.owner, r) && ProcTable(k.tables, r, sz)
    modifies k
    ensures k.Valid() && Released(old(k.owner), k.owner, r) && Keeps(old(k.State()), k.State(), r, 0, PAGES)
    ensures k.data == old(k.data)
  {
    hide Owned, Frame, Keeps, Vacant, Lookup, FreeOk, Up, Released;
    ghost var s := k.State();
    k.Uvmunmap(r, TRAMPOLINE, 1, false);
    ghost var m := k.State();
    FrameRoot(s, m, r, TRAMPOLINE, TRAMPOLINE + 1, r);
    k.Uvmunmap(r, TRAPFRAME, 1, false);
    ghost var f := k.State();
    FrameRoot(m, f, r, TRAPFRAME, TRAPFRAME + 1, r);
    BothGone(s, m, f, r, sz);
    Then(s, m, f, r, TRAMPOLINE, TRAMPOLINE + 1, TRAPFRAME, TRAPFRAME + 1, TRAPFRAME, TRAMPOLINE + 1);
    Uvmfree(k, r, sz);
    ReleasedSame(s, f, k.State(), r);
  }

  lemma BothGone(s: Vm, m: Vm, f: Vm, r: int, sz: nat)
    requires ProcTable(s.t, r, sz) && IsRoot(s.o, r) && IsRoot(m.o, r)
    requires Keeps(s, m, r, TRAMPOLINE, TRAMPOLINE + 1) && Vacant(m.t, r, TRAMPOLINE, TRAMPOLINE + 1)
    requires Keeps(m, f, r, TRAPFRAME, TRAPFRAME + 1) && Vacant(f.t, r, TRAPFRAME, TRAPFRAME + 1)
    ensures Vacant(f.t, r, Up(sz), PAGES)
  {
    hide Lookup;
    forall v | Up(sz) <= v < PAGES
      ensures !Lookup(f.t, r, v).v
    {
      assert KeepAt(s, m, r, TRAMPOLINE, TRAMPOLINE + 1, r, v) && KeepAt(m, f, r, TRAPFRAME, TRAPFRAME + 1, r, v);
    }
  }

  lemma ReleasedSame(s: Vm, f: Vm, s': Vm, r: int)
    requires Frame(s, f, r, TRAPFRAME, TRAMPOLINE + 1) && Keeps(s, f, r, TRAPFRAME, TRAMPOLINE + 1)
    requires Owned(s.t, s.o) && Owned(f.t, f.o)
    requires Released(f.o, s'.o, r) && Keeps(f, s', r, 0, PAGES)
    ensures Released(s.o, s'.o, r) && Keeps(s, s', r, 0, PAGES)
  {
    hide Lookup;
    forall p
      ensures ReleasedAt(s.o, s'.o, r, p)
    {
      assert FrameAt(s, f, r, TRAPFRAME, TRAMPOLINE + 1, p) && ReleasedAt(f.o, s'.o, r, p);
    }
    forall q, v
      ensures KeepAt(s, s', r, 0, PAGES, q, v)
    {
      assert KeepAt(s, f, r, TRAPFRAME, TRAMPOLINE + 1, q, v) && KeepAt(f, s', r, 0, PAGES, q, v);
      FrameRoot(s, f, r, TRAPFRAME, TRAMPOLINE + 1, q);
    }
  }

  /** An empty table on a fresh page. */
  method Uvmcreate(k: Pager) returns (r: int)
    requires k.Valid()
    modifies k
    ensures k.Valid()
    ensures r == 0 ==> k.State() == old(k.State())
    ensures r != 0 ==> UseOf(old(k.owner), r) == Free && IsRoot(k.owner, r) && Vacant(k.tables, r, 0, PAGES)
    ensures FrameBut(old(k.State()), k.State(), r, 0, 0, r) && Keeps(old(k.State()), k.State(), r, 0, PAGES)
    ensures r == 0 <==> old(k.free) == []
    ensures r != 0 ==> |k.free| == |old(k.free)| - 1 && Nodes(k.tables, r) == {}
  {
    hide Owned, FrameBut, Keeps, Vacant, Frame, FreeOk, Nodes;
    ghost var s := k.State();
    r := k.Kalloc();
    Created(s, k.State(), r);
    if r == 0 {
      return 0;
    }
    ghost var m := k.State();
    RootOwned(m.t, m.o, r);
    k.tables := k.tables[r := Blank()];
    k.owner := k.owner[r := Root];
    CountedRoot(k.free, m.o, r);
    BlankNodes(m.t, r);
  }

  lemma BlankNodes(t: Tables, r: int)
    ensures Nodes(t[r := Blank()], r) == {}
  {
    var t' := t[r := Blank()];
    forall i ensures !Entry(t', r, i).v {
      BlankEntry(t, r, r, i);
    }
  }

  lemma CountedRoot(free: seq<int>, owner: map<int, Use>, p: int)
    requires FreeOk(free, owner) && UseOf(owner, p) != Free
    ensures FreeOk(free, owner[p := Root])
  {
    var o := owner[p := Root];
    forall q
      ensures q in free <==> UseOf(o, q) == Free
    {
      assert q in free <==> UseOf(owner, q) == Free;
    }
  }

  lemma Created(s: Vm, m: Vm, r: int)
    requires Owned(s.t, s.o) && m.t == s.t
    requires r == 0 ==> m == s
    requires r != 0 ==> UseOf(s.o, r) == Free && m.o == s.o[r := Held]
    requires forall q :: q != r ==> Page(m.d, q) == Page(s.d, q)
    ensures r == 0 ==> FrameBut(s, m, r, 0, 0, r) && Keeps(s, m, r, 0, PAGES)
    ensures r != 0 ==> var s' := Vm(m.t[r := Blank()], m.d, m.o[r := Root]);
                       FrameBut(s, s', r, 0, 0, r) && Keeps(s, s', r, 0, PAGES) && Vacant(s'.t, r, 0, PAGES)
  {
    hide Lookup, Page;
    var s' := if r == 0 then m else Vm(m.t[r := Blank()], m.d, m.o[r := Root]);
    if r != 0 {
      Handed(s.t, s.o, r, Held);
      forall v | 0 <= v < PAGES
        ensures !Lookup(s'.t, r, v).v
      {
        RootLookup(m.t, m.o, r, r, v);
      }
    }
    forall p | p != r
      ensures FrameAt(s, s', r, 0, 0, p)
    {
    }
    forall q, v
      ensures KeepAt(s, s', r, 0, PAGES, q, v)
    {
      if r != 0 && 0 <= v < PAGES {
        RootLookup(m.t, m.o, r, q, v);
      }
    }
  }

  lemma MapAbove(s: Vm, s': Vm, r: int, v: int, pa: int)
    requires FrameBut(s, s', r, v, v + 1, pa) && UseOf(s'.o, pa) == UseOf(s.o, pa) && Page(s'.d, pa) == Page(s.d, pa)
    ensures Frame(s, s', r, v, v + 1)
  {
    var b := v + 1;
    forall p
      ensures FrameAt(s, s', r, v, b, p)
    {
      assert p != pa ==> FrameAt(s, s', r, v, b, p);
    }
  }

  lemma ButThen(s0: Vm, s1: Vm, s2: Vm, r: int, a: int, b: int)
    requires FrameBut(s0, s1, r, 0, PAGES, r) && Keeps(s0, s1, r, 0, PAGES)
    requires Frame(s1, s2, r, a, b) && Keeps(s1, s2, r, a, b) && 0 <= a <= b <= PAGES
    requires !IsRoot(s0.o, r)
    ensures FrameBut(s0, s2, r, 0, PAGES, r) && Keeps(s0, s2, r, 0, PAGES)
  {
    hide Lookup;
    forall p | p != r
      ensures FrameAt(s0, s2, r, 0, PAGES, p)
    {
      assert FrameAt(s0, s1, r, 0, PAGES, p) && FrameAt(s1, s2, r, a, b, p);
    }
    forall q, v
      ensures KeepAt(s0, s2, r, 0, PAGES, q, v)
    {
      assert KeepAt(s0, s1, r, 0, PAGES, q, v) && KeepAt(s1, s2, r, a, b, q, v);
      assert q != r ==> FrameAt(s0, s1, r, 0, PAGES, q);
    }
  }

  lemma Wider(s: Vm, s': Vm, r: int)
    requires FrameBut(s, s', r, 0, 0, r)
    ensures FrameBut(s, s', r, 0, PAGES, r)
  {
    forall p | p != r
      ensures FrameAt(s, s', r, 0, PAGES, p)
    {
      assert FrameAt(s, s', r, 0, 0, p);
    }
  }

  ghost predicate SameUses(o: map<int, Use>, o': map<int, Use>) {
    forall p :: UseOf(o', p) == UseOf(o, p)
  }

  ghost predicate SameTables(s: Vm, s': Vm) {
    forall q, v :: SameAt(s.o, s.t, s'.t, q, v)
  }

  /** A table made and released leaves every page with the use it had before. */
  lemma BackToStart(s0: Vm, s1: Vm, s': Vm, r: int)
    requires Owned(s0.t, s0.o) && UseOf(s0.o, r) == Free
    requires FrameBut(s0, s1, r, 0, PAGES, r) && Keeps(s0, s1, r, 0, PAGES)
    requires Released(s1.o, s'.o, r) && Keeps(s1, s', r, 0, PAGES)
    ensures SameUses(s0.o, s'.o) && SameTables(s0, s')
  {
    hide Lookup;
    forall p
      ensures UseOf(s'.o, p) == UseOf(s0.o, p)
    {
      assert p != r ==> FrameAt(s0, s1, r, 0, PAGES, p);
      assert ReleasedAt(s1.o, s'.o, r, p) && NodeBack(s0.t, s0.o, p) && LeafBack(s0.t, s0.o, p);
    }
    forall q, v
      ensures SameAt(s0.o, s0.t, s'.t, q, v)
    {
      assert KeepAt(s0, s1, r, 0, PAGES, q, v) && KeepAt(s1, s', r, 0, PAGES, q, v);
      assert q != r ==> FrameAt(s0, s1, r, 0, PAGES, q);
    }
  }

  lemma BuiltBytes(s0: Vm, s: Vm, r: int, q: int, v: int)
    requires Owned(s0.t, s0.o) && UseOf(s0.o, r) == Free && FrameBut(s0, s, r, 0, PAGES, r) && Keeps(s0, s, r, 0, PAGES)
    requires IsRoot(s0.o, q) && 0 <= v < TRAPFRAME
    ensures IsRoot(s.o, q) && Bytes(s, q, v) == Bytes(s0, q, v)
  {
    hide Lookup;
    assert KeepAt(s0, s, r, 0, PAGES, q, v) && LeafAt(s0.t, s0.o, q, v);
    assert FrameAt(s0, s, r, 0, PAGES, q);
    assert Lookup(s0.t, q, v).ppn != r ==> FrameAt(s0, s, r, 0, PAGES, Lookup(s0.t, q, v).ppn);
  }

  lemma FreedBytes(s: Vm, s': Vm, r: int, q: int, v: int)
    requires Keeps(s, s', r, 0, PAGES) && s'.d == s.d && IsRoot(s.o, q) && q != r && 0 <= v < TRAPFRAME
    ensures Bytes(s', q, v) == Bytes(s, q, v)
  {
    hide Lookup;
    assert KeepAt(s, s', r, 0, PAGES, q, v);
  }

  /** Making a table and giving it up is invisible to every program. */
  lemma Unseen(s0: Vm, s: Vm, s': Vm, r: int)
    requires Owned(s0.t, s0.o) && UseOf(s0.o, r) == Free && FrameBut(s0, s, r, 0, PAGES, r) && Keeps(s0, s, r, 0, PAGES)
    requires Keeps(s, s', r, 0, PAGES) && s'.d == s.d
    ensures SameMemory(s0, s')
  {
    hide Owned, Bytes, FrameBut, Keeps;
    forall q, v
      ensures SameBytes(s0, s', q, v)
    {
      if IsRoot(s0.o, q) && 0 <= v < TRAPFRAME {
        BuiltBytes(s0, s, r, q, v);
        FreedBytes(s, s', r, q, v);
      }
    }
  }

  const TRAMPOLINE_PERM := Perm(true, false, true, false)
  const TRAPFRAME_PERM := Perm(true, true, false, false)

  /** The table maps the trampoline's code and the process's trapframe, for the kernel only. */
  ghost predicate KernelPages(t: Tables, r: int, trapframe: int, trampoline: int) {
    && Lookup(t, r, TRAMPOLINE) == Pte(true, trampoline, Perm(true, false, true, false))
    && Lookup(t, r, TRAPFRAME) == Pte(true, trapframe, Perm(true, true, false, false))
  }

  lemma KernelPagesStay(s: Vm, s': Vm, r: int, trapframe: int, trampoline: int)
    requires KernelPages(s.t, r, trapframe, trampoline) && Only(s, s', r) && IsRoot(s.o, r)
    ensures KernelPages(s'.t, r, trapframe, trampoline)
  {
    hide Lookup, Frame;
    assert KeepAt(s, s', r, 0, TRAPFRAME, r, TRAMPOLINE) && KeepAt(s, s', r, 0, TRAPFRAME, r, TRAPFRAME);
  }

  /** The second-level table that holds the two kernel pages. */
  const TOPNODE := Hi(TRAMPOLINE)

  /**
   * A table with the two kernel pages at its top and no user memory, or no change at all. It takes two
   * pages, for the root and for the node that both kernel pages share: once the trampoline is mapped,
   * mapping the trapframe cannot fail.
   */
  method ProcPagetable(k: Pager, trapframe: int, trampoline: int) returns (r: int)
    requires k.Valid() && UseOf(k.owner, trapframe) == Held && UseOf(k.owner, trampoline) == Outside
    modifies k
    ensures k.Valid()
    ensures r == 0 ==> SameUses(old(k.owner), k.owner) && SameTables(old(k.State()), k.State())
    ensures r == 0 ==> SameMemory(old(k.State()), k.State())
    ensures r != 0 ==>
              && UseOf(old(k.owner), r) == Free && IsRoot(k.owner, r) && UseOf(k.owner, trapframe) == Held
              && ProcTable(k.tables, r, 0)
              && KernelPages(k.tables, r, trapframe, trampoline)
              && FrameBut(old(k.State()), k.State(), r, 0, PAGES, r) && Keeps(old(k.State()), k.State(), r, 0, PAGES)
    ensures r == 0 <==> |old(k.free)| < 2
    ensures r != 0 ==> |k.free| == |old(k.free)| - 2 && Nodes(k.tables, r) == {TOPNODE}
  {
    hide Owned, Frame, FrameBut, Keeps, Vacant, Lookup, FreeOk, Up, Released, SameUses, SameTables, SameMemory,
         ProcTable, Nodes;
    ghost var s0 := k.State();
    r := Uvmcreate(k);
    ghost var s1 := k.State();
    if r == 0 {
      NoChange(s0);
      Unchanged(s0);
      return 0;
    }
    Wider(s0, s1, r);
    StillUsed(s0, s1, r, trapframe);
    StillUsed(s0, s1, r, trampoline);
    VacantAt(s1.t, r, TRAMPOLINE);
    UpExact(0);
    var ok := k.MapPages(r, TRAMPOLINE, trampoline, TRAMPOLINE_PERM);
    ghost var s2 := k.State();
    if !ok {
      Uvmfree(k, r, 0);
      BackToStart(s0, s1, k.State(), r);
      Unseen(s0, s1, k.State(), r);
      return 0;
    }
    MapAbove(s1, s2, r, TRAMPOLINE, trampoline);
    FrameRoot(s1, s2, r, TRAMPOLINE, TRAMPOLINE + 1, r);
    FrameRoot(s1, s2, r, TRAMPOLINE, TRAMPOLINE + 1, trapframe);
    ButThen(s0, s1, s2, r, TRAMPOLINE, TRAMPOLINE + 1);
    NextVacant(s1, s2, r);
    ok := k.MapPages(r, TRAPFRAME, trapframe, TRAPFRAME_PERM);
    ghost var s3 := k.State();
    if !ok {
      assert false;
    }
    MapAbove(s2, s3, r, TRAPFRAME, trapframe);
    FrameRoot(s2, s3, r, TRAPFRAME, TRAPFRAME + 1, r);
    ButThen(s0, s2, s3, r, TRAPFRAME, TRAPFRAME + 1);
    TwoPages(s1, s2, s3, r);
  }

  lemma NoChange(s: Vm)
    ensures SameUses(s.o, s.o) && SameTables(s, s)
  {
    forall q, v ensures SameAt(s.o, s.t, s.t, q, v) { }
  }

  lemma StillUsed(s: Vm, s': Vm, r: int, p: int)
    requires FrameBut(s, s', r, 0, PAGES, r) && UseOf(s.o, r) == Free
    requires (UseOf(s.o, p) == Held || UseOf(s.o, p) == Outside)
    ensures UseOf(s'.o, p) == UseOf(s.o, p)
  {
    assert FrameAt(s, s', r, 0, PAGES, p);
  }

  lemma VacantAt(t: Tables, r: int, v: int)
    requires Vacant(t, r, 0, PAGES) && 0 <= v < PAGES
    ensures !Lookup(t, r, v).v
  {
  }

  lemma NextVacant(s1: Vm, s2: Vm, r: int)
    requires Vacant(s1.t, r, 0, PAGES) && IsRoot(s1.o, r) && Keeps(s1, s2, r, TRAMPOLINE, TRAMPOLINE + 1)
    ensures !Lookup(s2.t, r, TRAPFRAME).v
  {
    hide Lookup;
    assert KeepAt(s1, s2, r, TRAMPOLINE, TRAMPOLINE + 1, r, TRAPFRAME);
  }

  lemma TwoPages(s1: Vm, s2: Vm, s3: Vm, r: int)
    requires Vacant(s1.t, r, 0, PAGES) && IsRoot(s1.o, r) && IsRoot(s2.o, r)
    requires Keeps(s1, s2, r, TRAMPOLINE, TRAMPOLINE + 1) && Keeps(s2, s3, r, TRAPFRAME, TRAPFRAME + 1)
    ensures ProcTable(s3.t, r, 0) && Lookup(s3.t, r, TRAMPOLINE) == Lookup(s2.t, r, TRAMPOLINE)
  {
    hide Lookup;
    UpExact(0);
    forall v | 0 <= v < PAGES && v != TRAPFRAME && v != TRAMPOLINE
      ensures !Lookup(s3.t, r, v).v
    {
      assert KeepAt(s1, s2, r, TRAMPOLINE, TRAMPOLINE + 1, r, v) && KeepAt(s2, s3, r, TRAPFRAME, TRAPFRAME + 1, r, v);
    }
    assert KeepAt(s2, s3, r, TRAPFRAME, TRAPFRAME + 1, r, TRAMPOLINE);
  }

  // ---- growproc ----

  const WORD := 0x1_0000_0000

  lemma ProcTableMoves(s: Vm, s': Vm, r: int, sz: nat, lo: int, hi: int, n: nat)
    requires ProcTable(s.t, r, sz) && IsRoot(s.o, r) && Keeps(s, s', r, lo, hi) && 0 <= lo <= hi <= TRAPFRAME
    requires n <= TOP
    requires (Up(n) == hi && lo == Up(sz)) || (Up(n) == lo && (hi == Up(sz) || lo == Up(sz)) && Vacant(s'.t, r, lo, hi))
    ensures ProcTable(s'.t, r, n)
  {
    hide Lookup, Up;
    forall v | Up(n) <= v < PAGES && v != TRAPFRAME && v != TRAMPOLINE
      ensures !Lookup(s'.t, r, v).v
    {
      assert KeepAt(s, s', r, lo, hi, r, v);
    }
  }

  lemma AboveVacant(t: Tables, r: int, sz: nat, n: nat)
    requires ProcTable(t, r, sz) && n <= TOP
    ensures Vacant(t, r, Up(sz), Up(n))
  {
    UpMono(n, TOP);
    UpExact(TRAPFRAME);
  }

  /** Growing and shrinking keep a process's pages below its size, so a later growth never meets a mapped page. */
  method Growproc(k: Pager, r: int, sz: nat, n: int) returns (ok: bool, sz': nat)
    requires k.Valid() && IsRoot(k.owner, r) && ProcTable(k.tables, r, sz) && -0x8000_0000 <= n < 0x8000_0000
    modifies k
    ensures k.Valid() && IsRoot(k.owner, r) && ProcTable(k.tables, r, sz')
    ensures ok ==> sz' == if sz + n < 0 then sz else sz + n
    ensures !ok ==> sz' == sz && n > 0
    ensures ok <==> n <= 0 || (sz + n <= TOP && |old(k.free)| >= GrowCost(old(k.tables), r, sz, sz + n))
    ensures n >= 0 ==> SameMemory(old(k.State()), k.State())
    ensures Only(old(k.State()), k.State(), r)
    ensures n < 0 ==>
              && Frame(old(k.State()), k.State(), r, Up(sz'), Up(sz))
              && Keeps(old(k.State()), k.State(), r, Up(sz'), Up(sz))
              && Shrunk(old(k.State()), k.State(), r, Up(sz'))
  {
    hide Owned, Frame, Keeps, Vacant, Lookup, Up, SameMemory, Zeroed, Only, ProcTable, GrowCost, Spent, Nodes, Shrunk;
    ghost var s := k.State();
    TopBound(s.t, r, sz);
    UpMono(sz, TOP);
    UpExact(TRAPFRAME);
    Unchanged(s);
    OnlyNone(s, r);
    if n > 0 {
      if sz + n > TOP {
        return false, sz;
      }
      UpMono(sz + n, TOP);
      UpMono(sz, sz + n);
      AboveVacant(k.tables, r, sz, sz + n);
      var got := Uvmalloc(k, r, sz, sz + n, true, false);
      FrameRoot(s, k.State(), r, Up(sz), Up(sz + n), r);
      OnlyOf(s, k.State(), r, Up(sz), Up(sz + n), Up(sz + n));
      if got == 0 {
        ProcTableMoves(s, k.State(), r, sz, Up(sz), Up(sz + n), sz);
        return false, sz;
      }
      ProcTableMoves(s, k.State(), r, sz, Up(sz), Up(sz + n), sz + n);
      return true, got;
    } else if n < 0 {
      var want := if sz + n < 0 then sz + n + WORD else sz + n;
      var got := Uvmdealloc(k, r, sz, want);
      FrameRoot(s, k.State(), r, Up(got), Up(sz), r);
      OnlyOf(s, k.State(), r, Up(got), Up(sz), Up(sz));
      UpMono(got, sz);
      ProcTableMoves(s, k.State(), r, sz, Up(got), Up(sz), got);
      ShrunkBytes(s, k.State(), r, sz, got);
      return true, got;
    }
    return true, sz;
  }

  ghost predicate ShrunkAt(s: Vm, s': Vm, r: int, n: int, q: int, v: int) {
    IsRoot(s.o, q) && 0 <= v < TRAPFRAME ==> Bytes(s', q, v) == if q == r && v >= n then Zeros() else Bytes(s, q, v)
  }

  /** The program has lost its pages from `n` on, and nothing else reads differently. */
  ghost predicate Shrunk(s: Vm, s': Vm, r: int, n: int) {
    forall q, v :: ShrunkAt(s, s', r, n, q, v)
  }

  lemma ShrunkBytes(s: Vm, s': Vm, r: int, sz: nat, sz': nat)
    requires Owned(s.t, s.o) && Frame(s, s', r, Up(sz'), Up(sz)) && Keeps(s, s', r, Up(sz'), Up(sz))
    requires ProcTable(s.t, r, sz) && ProcTable(s'.t, r, sz')
    ensures Shrunk(s, s', r, Up(sz'))
  {
    hide Owned, Frame, Keeps, Lookup, Up;
    forall q, v ensures ShrunkAt(s, s', r, Up(sz'), q, v) {
      if IsRoot(s.o, q) && 0 <= v < TRAPFRAME {
        if q == r && v >= Up(sz') {
          assert !Lookup(s'.t, r, v).v;
        } else {
          KeepsBytes(s, s', r, Up(sz'), Up(sz), q, v);
        }
      }
    }
  }

  lemma LazyKeeps(t: Tables, r: int, sz: nat, n: nat)
    requires ProcTable(t, r, sz) && sz <= n <= TOP
    ensures ProcTable(t, r, n)
  {
    UpMono(sz, n);
  }

  /** sbrk(): growing lazily only raises the size; either way the new bytes above the last page read as zeros. */
  method Sbrk(k: Pager, r: int, sz: nat, n: int, eager: bool) returns (ok: bool, sz': nat)
    requires k.Valid() && IsRoot(k.owner, r) && ProcTable(k.tables, r, sz) && -0x8000_0000 <= n < 0x8000_0000
    modifies k
    ensures k.Valid() && IsRoot(k.owner, r) && ProcTable(k.tables, r, sz')
    ensures ok ==> sz' == if sz + n < 0 then sz else sz + n
    ensures !ok ==> sz' == sz && n > 0
    ensures n >= 0 ==> SameMemory(old(k.State()), k.State())
    ensures Only(old(k.State()), k.State(), r)
    ensures n >= 0 ==> forall v :: Up(sz) <= v < Up(sz') ==> Bytes(k.State(), r, v) == Zeros()
    ensures n >= 0 && !eager ==> k.State() == old(k.State())
    ensures n < 0 ==> Shrunk(old(k.State()), k.State(), r, Up(sz'))
    ensures n >= 0 ==>
              (ok <==> sz + n <= TOP && (eager ==> |old(k.free)| >= GrowCost(old(k.tables), r, sz, sz + n)))
  {
    hide Owned, Frame, Keeps, Lookup, Up, SameMemory, ProcTable, FreeOk, Bytes, Only, GrowCost, Shrunk;
    NoGrowth(k.tables, r, sz);
    ghost var s := k.State();
    Unchanged(s);
    OnlyNone(s, r);
    TopBound(s.t, r, sz);
    if eager || n < 0 {
      ok, sz' := Growproc(k, r, sz, n);
    } else if sz + n > TOP {
      ok, sz' := false, sz;
    } else {
      LazyKeeps(k.tables, r, sz, sz + n);
      ok, sz' := true, sz + n;
    }
    if n >= 0 {
      TopBound(k.tables, r, sz');
      NewZeros(s, k.State(), r, sz, sz');
    }
  }

  lemma NoGrowth(t: Tables, r: int, sz: nat)
    ensures GrowCost(t, r, sz, sz) == 0
  {
    RangeNone(Up(sz));
    CostNone(Nodes(t, r));
  }

  lemma TopBound(t: Tables, r: int, sz: nat)
    requires ProcTable(t, r, sz)
    ensures sz <= TOP
  {
  }

  lemma NewZeros(s: Vm, s': Vm, r: int, sz: nat, n: nat)
    requires ProcTable(s.t, r, sz) && IsRoot(s.o, r) && SameMemory(s, s') && n <= TOP
    ensures forall v :: Up(sz) <= v < Up(n) ==> Bytes(s', r, v) == Zeros()
  {
    UpMono(n, TOP);
    UpExact(TRAPFRAME);
    hide Lookup, Up;
    forall v | Up(sz) <= v < Up(n)
      ensures Bytes(s', r, v) == Zeros()
    {
      assert SameBytes(s, s', r, v) && !Lookup(s.t, r, v).v;
    }
  }

  // ---- allocproc, freeproc and the memory side of fork ----

  /** Table `r` and page `tf` were taken off the free list since `s0`, and nothing else has changed. */
  ghost predicate Made(s0: Vm, s: Vm, r: int, tf: int) {
    && Owned(s0.t, s0.o) && UseOf(s0.o, r) == Free && UseOf(s0.o, tf) == Free && r != tf
    && IsRoot(s.o, r) && UseOf(s.o, tf) == Held
    && (forall p :: p != r && p != tf ==> FrameAt(s0, s, r, 0, PAGES, p))
    && Keeps(s0, s, r, 0, PAGES)
  }

  lemma MadeFirst(s0: Vm, s1: Vm, s2: Vm, r: int, tf: int)
    requires Owned(s0.t, s0.o) && UseOf(s0.o, tf) == Free && s1.t == s0.t && s1.o == s0.o[tf := Held]
    requires forall q :: q != tf ==> Page(s1.d, q) == Page(s0.d, q)
    requires UseOf(s1.o, r) == Free && IsRoot(s2.o, r) && UseOf(s2.o, tf) == Held
    requires FrameBut(s1, s2, r, 0, PAGES, r) && Keeps(s1, s2, r, 0, PAGES)
    ensures Made(s0, s2, r, tf)
  {
    hide Lookup, Page, Owned;
    forall p | p != r && p != tf
      ensures FrameAt(s0, s2, r, 0, PAGES, p)
    {
      assert FrameAt(s1, s2, r, 0, PAGES, p);
    }
    forall q, v
      ensures KeepAt(s0, s2, r, 0, PAGES, q, v)
    {
      assert KeepAt(s1, s2, r, 0, PAGES, q, v);
    }
  }

  lemma MadeThen(s0: Vm, s1: Vm, s2: Vm, r: int, tf: int)
    requires Made(s0, s1, r, tf) && Only(s1, s2, r)
    ensures Made(s0, s2, r, tf)
  {
    hide Lookup, Owned;
    OnlyWide(s1, s2, r);
    FrameRoot(s1, s2, r, 0, PAGES, r);
    FrameRoot(s1, s2, r, 0, PAGES, tf);
    forall p | p != r && p != tf
      ensures FrameAt(s0, s2, r, 0, PAGES, p)
    {
      assert FrameAt(s0, s1, r, 0, PAGES, p) && FrameAt(s1, s2, r, 0, PAGES, p);
    }
    forall q, v
      ensures KeepAt(s0, s2, r, 0, PAGES, q, v)
    {
      assert KeepAt(s0, s1, r, 0, PAGES, q, v) && KeepAt(s1, s2, r, 0, PAGES, q, v);
      assert q != r && q != tf ==> FrameAt(s0, s1, r, 0, PAGES, q);
    }
  }

  /** Programs that were there before keep their memory and their tables. */
  lemma MadeUnseen(s0: Vm, s: Vm, r: int, tf: int)
    requires Made(s0, s, r, tf)
    ensures SameMemory(s0, s) && SameTables(s0, s)
    ensures forall q :: q != r ==> (IsRoot(s0.o, q) <==> IsRoot(s.o, q))
    ensures forall q :: q != tf ==> (UseOf(s0.o, q) == Held <==> UseOf(s.o, q) == Held)
  {
    hide Lookup;
    forall q
      ensures q != r ==> (IsRoot(s0.o, q) <==> IsRoot(s.o, q))
      ensures q != tf ==> (UseOf(s0.o, q) == Held <==> UseOf(s.o, q) == Held)
    {
      assert q != r && q != tf ==> FrameAt(s0, s, r, 0, PAGES, q);
    }
    forall q, v
      ensures SameBytes(s0, s, q, v) && SameAt(s0.o, s0.t, s.t, q, v)
    {
      assert KeepAt(s0, s, r, 0, PAGES, q, v) && LeafAt(s0.t, s0.o, q, v);
      var p := Lookup(s0.t, q, v).ppn;
      assert p != r && p != tf ==> FrameAt(s0, s, r, 0, PAGES, p);
    }
  }

  /** The pages of the process are free and every other page has the use it had. */
  ghost predicate GoneAt(o: map<int, Use>, o': map<int, Use>, r: int, tf: int, p: int) {
    UseOf(o', p) == if p == r || p == tf || About(UseOf(o, p), r) then Free else UseOf(o, p)
  }

  ghost predicate Gone(o: map<int, Use>, o': map<int, Use>, r: int, tf: int) {
    forall p :: GoneAt(o, o', r, tf, p)
  }

  /** allocproc(): a page for the trapframe and a table that maps it, or no change at all. */
  method AllocProc(k: Pager, trampoline: int) returns (r: int, tf: int)
    requires k.Valid() && UseOf(k.owner, trampoline) == Outside
    modifies k
    ensures k.Valid()
    ensures r == 0 ==>
              && SameUses(old(k.owner), k.owner) && SameTables(old(k.State()), k.State())
              && SameMemory(old(k.State()), k.State())
    ensures r != 0 ==> Made(old(k.State()), k.State(), r, tf) && ProcTable(k.tables, r, 0)
    ensures r != 0 ==> KernelPages(k.tables, r, tf, trampoline)
    ensures r == 0 <==> |old(k.free)| < 3
    ensures r != 0 ==> |k.free| == |old(k.free)| - 3 && Nodes(k.tables, r) == {TOPNODE}
  {
    hide Owned, FreeOk, SameTables, SameMemory, ProcTable, Lookup, SameUses, Made, FrameBut, Keeps, Nodes, KernelPages;
    ghost var s0 := k.State();
    tf := k.Kalloc();
    if tf == 0 {
      NoChange(s0);
      Unchanged(s0);
      return 0, 0;
    }
    ghost var s1 := k.State();
    r := ProcPagetable(k, tf, trampoline);
    ghost var s2 := k.State();
    if r == 0 {
      PageUnseen(s0, s1, tf);
      SameThen(s0, s1, s2);
      UsesAgain(s0.o, s2.o, tf);
      TablesTwice(s0, s1, s2);
      HeldStill(s1, s2, tf);
      k.Kfree(tf);
      Handed(s2.t, s2.o, tf, Free);
      PageUnseen(s2, k.State(), tf);
      SameThen(s0, s2, k.State());
      TablesSame(s0, s2, k.State());
      return;
    }
    MadeFirst(s0, s1, s2, r, tf);
  }

  /** A page taken from or given back to the free list is nobody's memory. */
  lemma PageUnseen(s: Vm, m: Vm, p: int)
    requires Owned(s.t, s.o) && m.t == s.t && (UseOf(s.o, p) == Free || UseOf(s.o, p) == Held)
    requires forall q :: q != p ==> Page(m.d, q) == Page(s.d, q)
    ensures SameMemory(s, m)
  {
    hide Lookup, Page;
    forall q, v
      ensures SameBytes(s, m, q, v)
    {
      assert LeafAt(s.t, s.o, q, v);
    }
  }

  lemma UsesAgain(o: map<int, Use>, m: map<int, Use>, p: int)
    requires UseOf(o, p) == Free && SameUses(o[p := Held], m)
    ensures SameUses(o, m[p := Free]) && forall q :: IsRoot(o, q) ==> IsRoot(m, q)
  {
    forall q
      ensures UseOf(m[p := Free], q) == UseOf(o, q) && (IsRoot(o, q) ==> IsRoot(m, q))
    {
      assert UseOf(m, q) == UseOf(o[p := Held], q);
    }
  }

  lemma TablesTwice(s0: Vm, s1: Vm, s2: Vm)
    requires s1.t == s0.t && SameTables(s1, s2) && forall q :: IsRoot(s0.o, q) ==> IsRoot(s1.o, q)
    ensures SameTables(s0, s2)
  {
    hide Lookup;
    forall q, v
      ensures SameAt(s0.o, s0.t, s2.t, q, v)
    {
      assert SameAt(s1.o, s1.t, s2.t, q, v);
    }
  }

  lemma HeldStill(s1: Vm, s2: Vm, p: int)
    requires SameUses(s1.o, s2.o) && UseOf(s1.o, p) == Held
    ensures UseOf(s2.o, p) == Held
  {
  }

  lemma TablesSame(s0: Vm, s2: Vm, s3: Vm)
    requires SameTables(s0, s2) && s3.t == s2.t
    ensures SameTables(s0, s3)
  {
    hide Lookup;
    forall q, v
      ensures SameAt(s0.o, s0.t, s3.t, q, v)
    {
      assert SameAt(s0.o, s0.t, s2.t, q, v);
    }
  }

  /** freeproc(): the trapframe and the table go back to the free list, and no one else notices. */
  method FreeProc(k: Pager, r: int, sz: nat, tf: int)
    requires k.Valid() && IsRoot(k.owner, r) && ProcTable(k.tables, r, sz) && UseOf(k.owner, tf) == Held
    modifies k
    ensures k.Valid() && Gone(old(k.owner), k.owner, r, tf) && Keeps(old(k.State()), k.State(), r, 0, PAGES)
    ensures k.data == old(k.data)
  {
    hide Owned, FreeOk, ProcTable, Lookup, Keeps, Released, Gone;
    ghost var s := k.State();
    k.Kfree(tf);
    Handed(s.t, s.o, tf, Free);
    ghost var m := k.State();
    ProcFreepagetable(k, r, sz);
    GoneBoth(s, m, k.State(), r, tf);
  }

  lemma GoneBoth(s: Vm, m: Vm, s': Vm, r: int, tf: int)
    requires UseOf(s.o, tf) == Held && m.t == s.t && m.o == s.o[tf := Free] && IsRoot(s.o, r)
    requires Released(m.o, s'.o, r) && Keeps(m, s', r, 0, PAGES)
    ensures Gone(s.o, s'.o, r, tf) && Keeps(s, s', r, 0, PAGES)
  {
    hide Lookup;
    forall p
      ensures GoneAt(s.o, s'.o, r, tf, p)
    {
      assert ReleasedAt(m.o, s'.o, r, p);
    }
    forall q, v
      ensures KeepAt(s, s', r, 0, PAGES, q, v)
    {
      assert KeepAt(m, s', r, 0, PAGES, q, v);
    }
  }

  /** What was made since `s0` is gone again. */
  lemma MadeAndGone(s0: Vm, s: Vm, s': Vm, r: int, tf: int)
    requires Made(s0, s, r, tf) && Gone(s.o, s'.o, r, tf) && Keeps(s, s', r, 0, PAGES) && s'.d == s.d
    ensures SameUses(s0.o, s'.o) && SameTables(s0, s') && SameMemory(s0, s')
  {
    MadeUnseen(s0, s, r, tf);
    hide Lookup, Bytes;
    forall p
      ensures UseOf(s'.o, p) == UseOf(s0.o, p)
    {
      assert p != r && p != tf ==> FrameAt(s0, s, r, 0, PAGES, p);
      assert GoneAt(s.o, s'.o, r, tf, p) && NodeBack(s0.t, s0.o, p) && LeafBack(s0.t, s0.o, p);
    }
    forall q, v
      ensures SameAt(s0.o, s0.t, s'.t, q, v) && SameBytes(s0, s', q, v)
    {
      assert SameAt(s0.o, s0.t, s.t, q, v) && SameBytes(s0, s, q, v) && KeepAt(s, s', r, 0, PAGES, q, v);
      if IsRoot(s0.o, q) && 0 <= v < TRAPFRAME {
        FreedBytes(s, s', r, q, v);
      }
    }
  }

  lemma ForkStart(t: Tables, child: int, sz: nat)
    requires ProcTable(t, child, 0) && sz <= TOP
    ensures Vacant(t, child, 0, Up(sz))
  {
    UpMono(sz, TOP);
    UpExact(TRAPFRAME);
    UpExact(0);
  }

  lemma ChildTable(s1: Vm, s2: Vm, child: int, sz: nat)
    requires ProcTable(s1.t, child, 0) && IsRoot(s1.o, child) && Keeps(s1, s2, child, 0, Up(sz)) && sz <= TOP
    ensures ProcTable(s2.t, child, sz)
    ensures Vacant(s2.t, child, 0, Up(sz)) ==> ProcTable(s2.t, child, 0)
  {
    hide Lookup;
    UpExact(0);
    forall v | 0 <= v < PAGES && v != TRAPFRAME && v != TRAMPOLINE && (Up(sz) <= v || Vacant(s2.t, child, 0, Up(sz)))
      ensures !Lookup(s2.t, child, v).v
    {
      assert KeepAt(s1, s2, child, 0, Up(sz), child, v);
    }
  }

  /** The pages of a forked process, trapframe included: all of them with a copy of the parent's memory, or none. */
  method ForkMemory(k: Pager, parent: int, sz: nat, trampoline: int) returns (child: int, tf: int)
    requires k.Valid() && IsRoot(k.owner, parent) && ProcTable(k.tables, parent, sz)
    requires UseOf(k.owner, trampoline) == Outside
    modifies k
    ensures k.Valid()
    ensures child == 0 ==>
              && SameUses(old(k.owner), k.owner) && SameTables(old(k.State()), k.State())
              && SameMemory(old(k.State()), k.State())
    ensures child != 0 ==> Made(old(k.State()), k.State(), child, tf) && ProcTable(k.tables, child, sz)
    ensures child != 0 ==> KernelPages(k.tables, child, tf, trampoline)
    ensures child != 0 ==> Copied(k.State(), parent, child, Up(sz))
    ensures child == 0 <==> |old(k.free)| < ForkCost(old(k.tables), parent, sz)
  {
    hide Owned, FreeOk, SameTables, SameMemory, ProcTable, Copied, Lookup, SameUses, Up, Made, Frame, Keeps, Vacant,
         Only, Gone, Nodes, Cost, MappedIn, KernelPages;
    ghost var s0 := k.State();
    TopBound(s0.t, parent, sz);
    child, tf := AllocProc(k, trampoline);
    if child == 0 {
      return;
    }
    ghost var s1 := k.State();
    MadeRoots(s0, s1, child, tf, parent);
    ForkStart(s1.t, child, sz);
    SameMapped(s0, s1, child, tf, parent, sz);
    var ok := Uvmcopy(k, parent, child, sz);
    ghost var s2 := k.State();
    UpMono(sz, TOP);
    UpExact(TRAPFRAME);
    ChildTable(s1, s2, child, sz);
    OnlyOf(s1, s2, child, 0, Up(sz), Up(sz));
    MadeThen(s0, s1, s2, child, tf);
    KernelPagesStay(s1, s2, child, tf, trampoline);
    if !ok {
      MadeRoots(s0, s2, child, tf, parent);
      FreeProc(k, child, 0, tf);
      MadeAndGone(s0, s2, k.State(), child, tf);
      return 0, 0;
    }
  }

  /** The pages that a fork takes: trapframe, root and node for the kernel pages, and the copy. */
  ghost function ForkCost(t: Tables, parent: int, sz: nat): nat {
    3 + Cost({TOPNODE}, MappedIn(t, parent, Up(sz)))
  }

  lemma SameMapped(s0: Vm, s: Vm, r: int, tf: int, q: int, sz: nat)
    requires Made(s0, s, r, tf) && IsRoot(s0.o, q) && sz <= TOP
    ensures MappedIn(s.t, q, Up(sz)) == MappedIn(s0.t, q, Up(sz))
  {
    MadeUnseen(s0, s, r, tf);
    UpMono(sz, TOP);
    UpExact(TRAPFRAME);
    hide Lookup, Up, Made, SameMemory;
    forall v | 0 <= v < Up(sz) ensures Lookup(s.t, q, v) == Lookup(s0.t, q, v) {
      assert SameAt(s0.o, s0.t, s.t, q, v);
    }
  }

  lemma MadeRoots(s0: Vm, s: Vm, r: int, tf: int, q: int)
    requires Made(s0, s, r, tf)
    ensures IsRoot(s.o, r) && UseOf(s.o, tf) == Held && (IsRoot(s0.o, q) ==> q != r && IsRoot(s.o, q))
  {
    assert q != r && q != tf ==> FrameAt(s0, s, r, 0, PAGES, q);
  }
}
