/** kernel/exec.c: building the memory of a new program. */
module Exec {
  import opened Base
  import opened PageTable
  import opened VmState
  import opened PageCost
  import opened Paging
  import opened UserMemory
  import opened UserCopy
  import opened ProcMemory

  const MAXARG := 32
  const LOAD := 1

  datatype Proghdr = Proghdr(kind: nat, off: nat, vaddr: nat, filesz: nat, memsz: nat, w: bool, x: bool)

  predicate Fields(ph: Proghdr) {
    ph.off < WORD && ph.vaddr < WORD && ph.filesz < WORD && ph.memsz < WORD
  }

  /** The bytes that a segment takes from the file. */
  function Segment(ph: Proghdr, file: seq<int>): seq<int> {
    if ph.kind == LOAD && ph.off + ph.filesz <= |file| then file[ph.off..ph.off + ph.filesz] else []
  }

  /** Page `v` of the image after the first `i` headers: zeros with the segments laid over them in turn. */
  function ImagePage(phs: seq<Option<Proghdr>>, file: seq<int>, i: nat, v: int): seq<int>
    requires i <= |phs|
  {
    if i == 0 then Zeros()
    else if phs[i - 1].None? then ImagePage(phs, file, i - 1, v)
    else Overlay(ImagePage(phs, file, i - 1, v), v * PGSIZE, phs[i - 1].value.vaddr, Segment(phs[i - 1].value, file))
  }

  ghost predicate Image(s: Vm, r: int, phs: seq<Option<Proghdr>>, file: seq<int>, i: nat)
    requires i <= |phs|
  {
    forall v :: 0 <= v < TRAPFRAME ==> Bytes(s, r, v) == ImagePage(phs, file, i, v)
  }

  // ---- loadseg ----

  /** A page that is mapped for the user is found; its contents become the bytes read from the file. */
  method LoadPage(k: Pager, r: int, n: nat, va: nat, bytes: seq<int>)
    requires k.Valid() && IsRoot(k.owner, r) && n <= TRAPFRAME && Dense(k.tables, r, n) && va / PGSIZE < n
    requires va % PGSIZE + |bytes| <= PGSIZE
    modifies k
    ensures k.Valid() && k.tables == old(k.tables) && k.owner == old(k.owner) && k.free == old(k.free)
    ensures Touches(old(k.State()), k.State(), r, 0) && Patched(old(k.State()), k.State(), r, va, bytes)
  {
    hide Owned, Lookup, Patched, Touches, Overlay, FreeOk;
    ghost var s := k.State();
    var off := va % PGSIZE;
    var pa := Walkaddr(k, r, va / PGSIZE);
    assert pa != 0;
    var page := k.data[pa];
    SpliceOverlay(page, va / PGSIZE * PGSIZE, off, bytes);
    PatchPage(s, r, va, pa, bytes);
    WriteTouches(s, r, va / PGSIZE, pa, page[..off] + bytes + page[off + |bytes|..], 0);
    k.data := k.data[pa := page[..off] + bytes + page[off + |bytes|..]];
  }

  method Loadseg(k: Pager, r: int, n: nat, va: nat, file: seq<int>, off: nat, sz: nat) returns (ok: bool)
    requires k.Valid() && IsRoot(k.owner, r) && n <= TRAPFRAME && Dense(k.tables, r, n) && va + sz <= n * PGSIZE
    modifies k
    ensures k.Valid() && k.tables == old(k.tables) && k.owner == old(k.owner) && k.free == old(k.free)
    ensures Touches(old(k.State()), k.State(), r, 0)
    ensures ok <==> off + sz <= |file| || sz == 0
    ensures ok && sz > 0 ==> Patched(old(k.State()), k.State(), r, va, file[off..off + sz])
    ensures ok && sz == 0 ==> Patched(old(k.State()), k.State(), r, va, [])
  {
    hide Owned, Lookup, Patched, Touches, Dense, FreeOk, SameMemory;
    ghost var s := k.State();
    Unchanged(s);
    TouchesNone(s, r, 0);
    PatchedNothing(s, s, r, va);
    var i := 0;
    while i < sz
      invariant 0 <= i <= sz && k.Valid() && k.tables == s.t && k.owner == s.o && k.free == old(k.free)
      invariant Touches(s, k.State(), r, 0)
      invariant i > 0 ==> off + i <= |file|
      invariant Patched(s, k.State(), r, va, if i == 0 then [] else file[off..off + i])
    {
      var va1 := va + i;
      var m := PGSIZE - va1 % PGSIZE;
      if sz - i < m {
        m := sz - i;
      }
      if off + i + m > |file| {
        return false;
      }
      ghost var t := k.State();
      ghost var done := if i == 0 then [] else file[off..off + i];
      LoadPage(k, r, n, va1, file[off + i..off + i + m]);
      TouchesThen(s, t, k.State(), r, 0);
      PatchedThen(s, t, k.State(), r, va, done, file[off + i..off + i + m]);
      assert done + file[off + i..off + i + m] == file[off..off + (i + m)];
      i := i + m;
    }
    ok := true;
  }

  // ---- The segments ----

  /** A table under construction: user pages 0 up to its size are all mapped, and nothing above. */
  ghost predicate Growing(k: Pager, r: int, sz: nat)
    reads k
  {
    && k.Valid() && IsRoot(k.owner, r) && ProcTable(k.tables, r, sz) && Dense(k.tables, r, Up(sz))
  }

  lemma DenseGrows(s: Vm, s': Vm, r: int, lo: nat, hi: nat, perm: Perm)
    requires Dense(s.t, r, lo) && Keeps(s, s', r, lo, hi) && Zeroed(s', r, lo, hi, perm) && perm.u
    requires IsRoot(s.o, r) && lo <= hi <= PAGES
    ensures Dense(s'.t, r, hi)
  {
    hide Lookup;
    forall v | 0 <= v < hi
      ensures Lookup(s'.t, r, v).v && Lookup(s'.t, r, v).perm.u
    {
      assert v < lo ==> KeepAt(s, s', r, lo, hi, r, v);
      assert lo <= v ==> ZeroAt(s', r, v, perm);
    }
  }

  lemma AboveVacantTo(t: Tables, r: int, sz: nat, n: nat)
    requires ProcTable(t, r, sz)
    ensures Vacant(t, r, Up(sz), Cap(n))
  {
  }

  /** Grows a table to any size it is asked for, or fails and leaves it as it was. */
  method Extend(k: Pager, r: int, sz: nat, newsz: nat, w: bool, x: bool) returns (sz1: nat)
    requires Growing(k, r, sz)
    modifies k
    ensures k.Valid() && Only(old(k.State()), k.State(), r) && SameMemory(old(k.State()), k.State())
    ensures sz1 != 0 ==> sz1 == (if newsz < sz then sz else newsz) && Growing(k, r, sz1)
    ensures sz1 != 0 ==> forall v :: Up(sz) <= v < Up(sz1) ==> Lookup(k.tables, r, v).perm == Perm(true, w, x, true)
    ensures sz1 != 0 ==> forall v :: 0 <= v < Up(sz) ==> Lookup(k.tables, r, v) == old(Lookup(k.tables, r, v))
    ensures sz1 == 0 ==> IsRoot(k.owner, r) && ProcTable(k.tables, r, sz)
    ensures var end := if newsz < sz then sz else newsz;
            sz1 != 0 <==> 0 < end <= TOP && |old(k.free)| >= Cost(Nodes(old(k.tables), r), Range(Up(sz), Up(end)))
    ensures sz1 != 0 ==>
              Spent(|old(k.free)|, Nodes(old(k.tables), r), |k.free|, Nodes(k.tables, r), Range(Up(sz), Up(sz1)))
  {
    hide Owned, Frame, Keeps, Vacant, Lookup, Up, SameMemory, Zeroed, Dense, FreeOk, Cap, ProcTable, Only, Nodes,
         Cost, Spent, Range;
    NothingToGrow(|k.free|, Nodes(k.tables, r), sz);
    ghost var s := k.State();
    InBounds(s.t, r, sz);
    AboveVacantTo(s.t, r, sz, newsz);
    sz1 := Uvmalloc(k, r, sz, newsz, w, x);
    OnlyOf(s, k.State(), r, Up(sz), Cap(newsz), Cap(newsz));
    FrameRoot(s, k.State(), r, Up(sz), Cap(newsz), r);
    LowKept(s, k.State(), r, sz, Cap(newsz));
    if newsz >= sz {
      CapBelow(sz, newsz);
      Extended(s, k.State(), r, sz, newsz, sz1, Perm(true, w, x, true));
    }
  }

  lemma LowKept(s: Vm, s': Vm, r: int, sz: nat, b: int)
    requires Keeps(s, s', r, Up(sz), b) && IsRoot(s.o, r) && sz <= TOP
    ensures forall v :: 0 <= v < Up(sz) ==> Lookup(s'.t, r, v) == Lookup(s.t, r, v)
  {
    UpMono(sz, TOP);
    UpExact(TRAPFRAME);
    hide Lookup, Up;
    forall v | 0 <= v < Up(sz) ensures Lookup(s'.t, r, v) == Lookup(s.t, r, v) {
      assert KeepAt(s, s', r, Up(sz), b, r, v);
    }
  }

  lemma NothingToGrow(free: nat, nodes: set<int>, sz: nat)
    ensures Cost(nodes, Range(Up(sz), Up(sz))) == 0 && Spent(free, nodes, free, nodes, Range(Up(sz), Up(sz)))
  {
    RangeNone(Up(sz));
    CostNone(nodes);
    SpentNone(free, nodes);
  }

  lemma InBounds(t: Tables, r: int, sz: nat)
    requires ProcTable(t, r, sz)
    ensures sz <= TOP
  {
  }

  lemma Extended(s: Vm, s': Vm, r: int, sz: nat, newsz: nat, got: nat, perm: Perm)
    requires ProcTable(s.t, r, sz) && Dense(s.t, r, Up(sz)) && IsRoot(s.o, r) && perm.u
    requires sz <= newsz && (got == newsz || got == 0) && Up(sz) <= Cap(newsz) && Keeps(s, s', r, Up(sz), Cap(newsz))
    requires got == newsz ==> newsz <= TOP && Zeroed(s', r, Up(sz), Up(newsz), perm)
    requires got != newsz ==> Vacant(s'.t, r, Up(sz), Cap(newsz))
    ensures got == newsz ==> ProcTable(s'.t, r, newsz) && Dense(s'.t, r, Up(newsz))
    ensures got == newsz ==> forall v :: Up(sz) <= v < Up(newsz) ==> Lookup(s'.t, r, v).perm == perm
    ensures got != newsz ==> ProcTable(s'.t, r, sz)
  {
    hide Lookup, Up, Vacant, ProcTable, Keeps, Dense;
    if got == newsz {
      UpMono(newsz, TOP);
      UpExact(TRAPFRAME);
      ProcTableMoves(s, s', r, sz, Up(sz), Up(newsz), newsz);
      DenseGrows(s, s', r, Up(sz), Up(newsz), perm);
      forall v | Up(sz) <= v < Up(newsz)
        ensures Lookup(s'.t, r, v).perm == perm
      {
        assert ZeroAt(s', r, v, perm);
      }
    } else {
      ProcTableMoves(s, s', r, sz, Up(sz), Cap(newsz), sz);
    }
  }

  /** The size of the image after a header, given the size before it. */
  function NextSize(sz: nat, ph: Proghdr): nat {
    if ph.kind != LOAD || ph.vaddr + ph.memsz < sz then sz else ph.vaddr + ph.memsz
  }

  /** A header that exec accepts. */
  predicate GoodHeader(ph: Proghdr, sz: nat, file: seq<int>) {
    ph.kind == LOAD ==>
      && ph.filesz <= ph.memsz && ph.vaddr + ph.memsz < WORD && 0 < NextSize(sz, ph) <= TOP
      && (ph.filesz == 0 || ph.off + ph.filesz <= |file|)
  }

  /**
   * One program header. It fails exactly if the header is not acceptable or memory runs out; the table is
   * then still one that can be freed at size `sz1`.
   */
  method LoadOne(k: Pager, r: int, sz: nat, ph: Proghdr, file: seq<int>) returns (ok: bool, sz1: nat)
    requires Growing(k, r, sz) && Fields(ph)
    modifies k
    ensures k.Valid() && IsRoot(k.owner, r) && ProcTable(k.tables, r, sz1) && Only(old(k.State()), k.State(), r)
    ensures ok ==> Growing(k, r, sz1) && Patched(old(k.State()), k.State(), r, ph.vaddr, Segment(ph, file))
    ensures ok && ph.kind == LOAD ==> ph.filesz <= ph.memsz && ph.vaddr + ph.memsz <= sz1
    ensures ok && ph.kind == LOAD ==>
              forall v :: Up(sz) <= v < Up(sz1) ==> Lookup(k.tables, r, v).perm == Perm(true, ph.w, ph.x, true)
    ensures ok ==> forall v :: 0 <= v < Up(sz) ==> Lookup(k.tables, r, v) == old(Lookup(k.tables, r, v))
    ensures ok <==> && GoodHeader(ph, sz, file)
                    && |old(k.free)| >= Cost(Nodes(old(k.tables), r), Range(Up(sz), Up(NextSize(sz, ph))))
    ensures ok ==> sz1 == NextSize(sz, ph)
    ensures ok ==>
              Spent(|old(k.free)|, Nodes(old(k.tables), r), |k.free|, Nodes(k.tables, r), Range(Up(sz), Up(sz1)))
  {
    hide Owned, Frame, Keeps, Lookup, Up, SameMemory, Dense, FreeOk, ProcTable, Only, Patched, Touches, Nodes, Cost,
         Spent, Range;
    ghost var s := k.State();
    OnlyNone(s, r);
    Unchanged(s);
    PatchedNothing(s, s, r, ph.vaddr);
    NothingToGrow(|k.free|, Nodes(k.tables, r), sz);
    if ph.kind != LOAD {
      return true, sz;
    }
    if ph.memsz < ph.filesz {
      return false, sz;
    }
    if ph.vaddr + ph.memsz >= WORD {
      return false, sz;
    }
    var got := Extend(k, r, sz, ph.vaddr + ph.memsz, ph.w, ph.x);
    if got == 0 {
      return false, sz;
    }
    sz1 := got;
    ghost var m := k.State();
    InBounds(m.t, r, sz1);
    UpMono(sz1, TOP);
    UpExact(TRAPFRAME);
    ok := Loadseg(k, r, Up(sz1), ph.vaddr, file, ph.off, ph.filesz);
    TouchesOnly(m, k.State(), r);
    OnlyThen(s, m, k.State(), r);
    if ok {
      PatchedNothing(s, m, r, ph.vaddr);
      OnlyRoots(s, m, r);
      ghost var bytes := if ph.filesz == 0 then [] else file[ph.off..ph.off + ph.filesz];
      PatchedThen(s, m, k.State(), r, ph.vaddr, [], bytes);
      assert [] + bytes == bytes == Segment(ph, file);
    }
  }

  lemma TouchesOnly(s: Vm, s': Vm, r: int)
    requires Touches(s, s', r, 0)
    ensures Only(s, s', r)
  {
    OnlyOf(s, s', r, 0, TRAPFRAME, 0);
  }

  lemma ImageStep(s: Vm, s': Vm, r: int, phs: seq<Option<Proghdr>>, file: seq<int>, i: nat)
    requires i < |phs| && phs[i].Some? && Image(s, r, phs, file, i) && IsRoot(s.o, r)
    requires Patched(s, s', r, phs[i].value.vaddr, Segment(phs[i].value, file))
    ensures Image(s', r, phs, file, i + 1)
  {
    hide Bytes, Overlay, Segment;
    forall v | 0 <= v < TRAPFRAME
      ensures Bytes(s', r, v) == ImagePage(phs, file, i + 1, v)
    {
      assert PatchedAt(s, s', r, phs[i].value.vaddr, Segment(phs[i].value, file), r, v);
    }
  }

  lemma ImageStart(s: Vm, r: int, phs: seq<Option<Proghdr>>, file: seq<int>)
    requires ProcTable(s.t, r, 0)
    ensures Image(s, r, phs, file, 0) && Dense(s.t, r, Up(0))
  {
    UpExact(0);
  }

  /** The size of the image after the first `i` headers. */
  function SizeAfter(phs: seq<Option<Proghdr>>, i: nat): nat
    requires i <= |phs|
  {
    if i == 0 then 0
    else if phs[i - 1].None? then SizeAfter(phs, i - 1)
    else NextSize(SizeAfter(phs, i - 1), phs[i - 1].value)
  }

  /** The pages that the image grows by with header `j` have the permissions of its segment. */
  ghost predicate SegmentPerms(t: Tables, r: int, phs: seq<Option<Proghdr>>, j: int) {
    0 <= j < |phs| && phs[j].Some? && phs[j].value.kind == LOAD ==>
      forall v :: Up(SizeAfter(phs, j)) <= v < Up(SizeAfter(phs, j + 1)) ==>
        Lookup(t, r, v).v && Lookup(t, r, v).perm == Perm(true, phs[j].value.w, phs[j].value.x, true)
  }

  ghost predicate Permitted(t: Tables, r: int, phs: seq<Option<Proghdr>>, i: nat) {
    forall j :: 0 <= j < i ==> SegmentPerms(t, r, phs, j)
  }

  lemma PermittedStays(t: Tables, t': Tables, r: int, phs: seq<Option<Proghdr>>, i: nat)
    requires Permitted(t, r, phs, i) && i <= |phs|
    requires forall v :: 0 <= v < Up(SizeAfter(phs, i)) ==> Lookup(t', r, v) == Lookup(t, r, v)
    ensures Permitted(t', r, phs, i)
  {
    hide Lookup, Up;
    forall j | 0 <= j < i ensures SegmentPerms(t', r, phs, j) {
      assert SegmentPerms(t, r, phs, j);
      HeadersBefore(phs, [], j + 1, i);
      UpMono(SizeAfter(phs, j + 1), SizeAfter(phs, i));
      UpMono(0, SizeAfter(phs, j));
      UpExact(0);
    }
  }

  lemma PermittedMore(t: Tables, t': Tables, r: int, phs: seq<Option<Proghdr>>, i: nat)
    requires Permitted(t, r, phs, i) && i < |phs| && phs[i].Some?
    requires forall v :: 0 <= v < Up(SizeAfter(phs, i)) ==> Lookup(t', r, v) == Lookup(t, r, v)
    requires phs[i].value.kind == LOAD ==>
               forall v :: Up(SizeAfter(phs, i)) <= v < Up(SizeAfter(phs, i + 1)) ==>
                 Lookup(t', r, v).perm == Perm(true, phs[i].value.w, phs[i].value.x, true)
    requires Dense(t', r, Up(SizeAfter(phs, i + 1)))
    ensures Permitted(t', r, phs, i + 1)
  {
    hide Lookup, Up;
    PermittedStays(t, t', r, phs, i);
    UpMono(0, SizeAfter(phs, i));
    UpExact(0);
  }

  /** The first `i` headers can be read and are acceptable. */
  predicate GoodHeaders(phs: seq<Option<Proghdr>>, file: seq<int>, i: nat)
    requires i <= |phs|
  {
    i > 0 ==> && GoodHeaders(phs, file, i - 1) && phs[i - 1].Some?
              && GoodHeader(phs[i - 1].value, SizeAfter(phs, i - 1), file)
  }

  lemma {:induction false} HeadersBefore(phs: seq<Option<Proghdr>>, file: seq<int>, i: nat, j: nat)
    requires i <= j <= |phs|
    ensures GoodHeaders(phs, file, j) ==> GoodHeaders(phs, file, i)
    ensures SizeAfter(phs, i) <= SizeAfter(phs, j)
    decreases j
  {
    if i < j {
      HeadersBefore(phs, file, i, j - 1);
    }
  }

  /** Loading stopped at header `i`: it could not be accepted, or there is not memory enough for the image. */
  lemma LoadFails(phs: seq<Option<Proghdr>>, file: seq<int>, i: nat, free: nat, nodes: set<int>, free1: nat,
                  nodes1: set<int>)
    requires i < |phs| && phs[i].Some?
    requires Spent(free, nodes, free1, nodes1, Range(0, Up(SizeAfter(phs, i))))
    ensures var sz := SizeAfter(phs, i);
            var sz1 := NextSize(sz, phs[i].value);
            && (free1 < Cost(nodes1, Range(Up(sz), Up(sz1))) ==>
                  free < Cost(nodes, Range(0, Up(SizeAfter(phs, |phs|)))))
            && (!GoodHeader(phs[i].value, sz, file) ==> !GoodHeaders(phs, file, |phs|))
  {
    hide Cost, Spent, GoodHeader, Range, Up;
    var sz := SizeAfter(phs, i);
    var sz1 := NextSize(sz, phs[i].value);
    HeadersBefore(phs, file, i + 1, |phs|);
    UpMono(sz, sz1);
    UpMono(sz1, SizeAfter(phs, |phs|));
    RangeSplit(0, Up(sz), Up(sz1));
    SpentTwice(free, nodes, free1, nodes1, free1, nodes1, Range(0, Up(sz)), Range(Up(sz), Up(sz1)));
    RangeGrows(nodes, 0, Up(sz1), Up(SizeAfter(phs, |phs|)));
  }

  lemma LoadedMore(sz: nat, sz1: nat, free: nat, nodes: set<int>, free1: nat, nodes1: set<int>, free2: nat,
                   nodes2: set<int>)
    requires Spent(free, nodes, free1, nodes1, Range(0, Up(sz))) && sz <= sz1
    requires Spent(free1, nodes1, free2, nodes2, Range(Up(sz), Up(sz1)))
    ensures Spent(free, nodes, free2, nodes2, Range(0, Up(sz1)))
  {
    hide Cost, Spent, Range, Up;
    UpMono(sz, sz1);
    RangeSplit(0, Up(sz), Up(sz1));
    SpentTwice(free, nodes, free1, nodes1, free2, nodes2, Range(0, Up(sz)), Range(Up(sz), Up(sz1)));
  }

  /**
   * Loads the segments in order; on success user memory is exactly the image that the headers describe. It
   * fails exactly if a header is not acceptable or there is not memory enough for the whole image.
   */
  method LoadSegments(k: Pager, r: int, phs: seq<Option<Proghdr>>, file: seq<int>) returns (ok: bool, sz: nat)
    requires Growing(k, r, 0) && forall i :: 0 <= i < |phs| && phs[i].Some? ==> Fields(phs[i].value)
    modifies k
    ensures k.Valid() && IsRoot(k.owner, r) && ProcTable(k.tables, r, sz) && Only(old(k.State()), k.State(), r)
    ensures ok ==> Growing(k, r, sz) && Image(k.State(), r, phs, file, |phs|) && Permitted(k.tables, r, phs, |phs|)
    ensures ok <==> && GoodHeaders(phs, file, |phs|)
                    && |old(k.free)| >= Cost(Nodes(old(k.tables), r), Range(0, Up(SizeAfter(phs, |phs|))))
    ensures ok ==> && sz == SizeAfter(phs, |phs|)
                   && Spent(|old(k.free)|, Nodes(old(k.tables), r), |k.free|, Nodes(k.tables, r), Range(0, Up(sz)))
  {
    hide Owned, Lookup, Up, Dense, FreeOk, ProcTable, Only, Patched, Image, Segment, Nodes, Cost, Spent, Range,
         GoodHeader, SegmentPerms;
    ghost var s, free0, nodes0 := k.State(), |k.free|, Nodes(k.tables, r);
    OnlyNone(s, r);
    ImageStart(s, r, phs, file);
    UpExact(0);
    NothingToGrow(free0, nodes0, 0);
    sz := 0;
    var i := 0;
    while i < |phs|
      invariant 0 <= i <= |phs| && Growing(k, r, sz) && Only(s, k.State(), r)
      invariant Image(k.State(), r, phs, file, i) && Permitted(k.tables, r, phs, i)
      invariant sz == SizeAfter(phs, i) && GoodHeaders(phs, file, i)
      invariant Spent(free0, nodes0, |k.free|, Nodes(k.tables, r), Range(0, Up(sz)))
    {
      if phs[i].None? {
        HeadersBefore(phs, file, i + 1, |phs|);
        return false, sz;
      }
      ghost var m, sz0, free1, nodes1 := k.State(), sz, |k.free|, Nodes(k.tables, r);
      LoadFails(phs, file, i, free0, nodes0, free1, nodes1);
      ok, sz := LoadOne(k, r, sz, phs[i].value, file);
      OnlyThen(s, m, k.State(), r);
      if !ok {
        return false, sz;
      }
      ImageStep(m, k.State(), r, phs, file, i);
      GrowingShape(k, r, sz);
      PermittedMore(m.t, k.tables, r, phs, i);
      LoadedMore(sz0, sz, free0, nodes0, free1, nodes1, |k.free|, Nodes(k.tables, r));
      i := i + 1;
    }
    SpentAll(free0, nodes0, |k.free|, Nodes(k.tables, r), Range(0, Up(sz)));
    ok := true;
  }

  // ---- The stack ----

  lemma ClearFrame(s: Vm, r: int, v: int, e: Pte)
    requires Owned(s.t, s.o) && Reaches(s.t, s.o, r, v) && e.v && e.ppn == Lookup(s.t, r, v).ppn && Lookup(s.t, r, v).v
    ensures var s' := Vm(Write(s.t, r, v, e), s.d, s.o);
            && Frame(s, s', r, v, v + 1) && Keeps(s, s', r, v, v + 1) && SameMemory(s, s') && Lookup(s'.t, r, v) == e
  {
    hide Lookup, Write, Reaches;
    ReachesRoot(s, r, v);
    var s', b := Vm(Write(s.t, r, v, e), s.d, s.o), v + 1;
    forall p ensures FrameAt(s, s', r, v, b, p) { }
    forall q, w
      ensures KeepAt(s, s', r, v, b, q, w) && SameBytes(s, s', q, w)
    {
      if IsRoot(s.o, q) && 0 <= w < PAGES {
        WriteLookup(s.t, s.o, r, v, e, q, w);
      }
    }
    WriteLookup(s.t, s.o, r, v, e, r, v);
  }

  /** The page stays mapped and keeps its contents but the program can no longer reach it. */
  method Uvmclear(k: Pager, r: int, v: nat)
    requires k.Valid() && IsRoot(k.owner, r) && v < TRAPFRAME && Lookup(k.tables, r, v).v
    modifies k
    ensures k.Valid() && SameMemory(old(k.State()), k.State())
    ensures Frame(old(k.State()), k.State(), r, v, v + 1) && Keeps(old(k.State()), k.State(), r, v, v + 1)
    ensures Lookup(k.tables, r, v) == var e := old(Lookup(k.tables, r, v)); e.(perm := e.perm.(u := false))
  {
    hide Owned, Lookup, Write, Reaches, FreeOk, Frame, Keeps, SameMemory, Entry;
    ghost var s := k.State();
    NoNode(s, r, v);
    var n := k.Walk(r, v, false);
    NodeEntry(s, r, v);
    var pte := Entry(k.tables, n, Lo(v));
    var e := pte.(perm := pte.perm.(u := false));
    LeafReadable(s, r, v);
    ClearFrame(s, r, v, e);
    PermOwned(s.t, s.o, r, v, e);
    k.tables := Write(k.tables, r, v, e);
  }

  /** The bytes stand in the program's memory at `va`. */
  ghost predicate Holds(s: Vm, r: int, va: int, bytes: seq<int>) {
    forall j :: 0 <= j < |bytes| ==> ByteAt(s, r, va + j) == bytes[j]
  }

  lemma HoldsNew(s: Vm, s': Vm, r: int, va: nat, bytes: seq<int>)
    requires Patched(s, s', r, va, bytes) && IsRoot(s.o, r) && Owned(s.t, s.o) && PagesOk(s.d, s.o)
    requires va + |bytes| <= TOP
    ensures Holds(s', r, va, bytes)
  {
    hide ByteAt, Patched, Owned;
    forall j | 0 <= j < |bytes|
      ensures ByteAt(s', r, va + j) == bytes[j]
    {
      BytesSize(s, r, (va + j) / PGSIZE);
      PatchedReads(s, s', r, va, bytes, j);
    }
  }

  lemma HoldsStill(s: Vm, s': Vm, r: int, va: nat, bytes: seq<int>, at: nat, more: seq<int>)
    requires Holds(s, r, at, bytes) && Patched(s, s', r, va, more) && IsRoot(s.o, r)
    requires va + |more| <= at && at + |bytes| <= TOP
    ensures Holds(s', r, at, bytes)
  {
    hide Bytes;
    forall j | 0 <= j < |bytes|
      ensures ByteAt(s', r, at + j) == bytes[j]
    {
      assert ByteAt(s, r, at + j) == bytes[j];
      assert PatchedAt(s, s', r, va, more, r, (at + j) / PGSIZE);
    }
  }

  /** The strings lie in the stack page, aligned, each below the one before it. */
  ghost predicate Placed(ustack: seq<nat>, argv: seq<seq<int>>, sp: nat, top: nat) {
    && |ustack| <= |argv|
    && (forall i :: 0 <= i < |ustack| ==> sp <= ustack[i] && ustack[i] % 16 == 0 && ustack[i] + |argv[i]| + 1 <= top)
    && (forall i, j :: 0 <= i < j < |ustack| ==> ustack[j] + |argv[j]| + 1 <= ustack[i])
  }

  ghost predicate AllHold(s: Vm, r: int, ustack: seq<nat>, argv: seq<seq<int>>)
    requires |ustack| <= |argv|
  {
    forall i :: 0 <= i < |ustack| ==> Holds(s, r, ustack[i], argv[i] + [0])
  }

  /** Memory below `base` is as it was. */
  ghost predicate LowSame(s: Vm, s': Vm, r: int, base: int) {
    forall v :: 0 <= v && v * PGSIZE + PGSIZE <= base ==> Bytes(s', r, v) == Bytes(s, r, v)
  }

  lemma LowThen(s0: Vm, s1: Vm, s2: Vm, r: int, base: int, va: int, bytes: seq<int>)
    requires LowSame(s0, s1, r, base) && Patched(s1, s2, r, va, bytes) && base <= va && base <= TOP
    requires Owned(s1.t, s1.o) && PagesOk(s1.d, s1.o) && IsRoot(s1.o, r)
    ensures LowSame(s0, s2, r, base)
  {
    hide Bytes, Overlay, Owned;
    forall v | 0 <= v && v * PGSIZE + PGSIZE <= base
      ensures Bytes(s2, r, v) == Bytes(s0, r, v)
    {
      assert PatchedAt(s1, s2, r, va, bytes, r, v);
      BytesSize(s1, r, v);
      OverlayNone(Bytes(s1, r, v), v * PGSIZE, va, bytes);
    }
  }

  lemma PushKeeps(s: Vm, s': Vm, r: int, ustack: seq<nat>, argv: seq<seq<int>>, above: nat, top: nat, sp: nat,
                  bytes: seq<int>)
    requires Placed(ustack, argv, above, top) && AllHold(s, r, ustack, argv) && Patched(s, s', r, sp, bytes)
    requires IsRoot(s.o, r)
    requires sp + |bytes| <= above && top <= TOP
    ensures AllHold(s', r, ustack, argv)
  {
    hide Patched, Holds;
    forall i | 0 <= i < |ustack|
      ensures Holds(s', r, ustack[i], argv[i] + [0])
    {
      HoldsStill(s, s', r, sp, argv[i] + [0], ustack[i], bytes);
    }
  }

  /** The machine's little-endian words. */
  function Words(ws: seq<nat>): (b: seq<int>)
    ensures |b| == 4 * |ws|
  {
    if ws == [] then []
    else [ws[0] % 256, ws[0] / 256 % 256, ws[0] / 65536 % 256, ws[0] / 16777216 % 256] + Words(ws[1..])
  }

  lemma {:induction false} WordBytes(ws: seq<nat>, i: nat)
    requires i < |ws|
    ensures Words(ws)[4 * i] == ws[i] % 256 && Words(ws)[4 * i + 1] == ws[i] / 256 % 256
    ensures Words(ws)[4 * i + 2] == ws[i] / 65536 % 256 && Words(ws)[4 * i + 3] == ws[i] / 16777216 % 256
    decreases |ws|
  {
    if i > 0 {
      WordBytes(ws[1..], i - 1);
    }
  }

  /** The word at `va` as the program reads it, low byte first. */
  function WordIn(s: Vm, r: int, va: int): int {
    ByteAt(s, r, va) + 256 * ByteAt(s, r, va + 1) + 65536 * ByteAt(s, r, va + 2) + 16777216 * ByteAt(s, r, va + 3)
  }

  /** Element `i` of the array of pointers at `sp`. */
  function Pointer(s: Vm, r: int, sp: int, i: int): int {
    WordIn(s, r, sp + 4 * i)
  }

  /** The array of pointers at `sp`: the addresses of the strings, and a null pointer behind them. */
  ghost predicate Vector(s: Vm, r: int, sp: int, ustack: seq<nat>) {
    forall i :: 0 <= i <= |ustack| ==> Pointer(s, r, sp, i) == if i < |ustack| then ustack[i] else 0
  }

  /** Following pointer `i` from `sp` finds argument `i` and its terminating zero. */
  ghost predicate Argument(s: Vm, r: int, sp: int, argv: seq<seq<int>>, i: int) {
    0 <= i < |argv| ==> Holds(s, r, Pointer(s, r, sp, i), argv[i] + [0])
  }

  lemma FourBytes(w: nat)
    requires w < WORD
    ensures w % 256 + 256 * (w / 256 % 256) + 65536 * (w / 65536 % 256) + 16777216 * (w / 16777216 % 256) == w
  {
    assert w / 65536 == (w / 256) / 256 && w / 16777216 == (w / 65536) / 256;
  }

  lemma {:induction false} VectorHeld(s: Vm, r: int, sp: int, ustack: seq<nat>)
    requires Holds(s, r, sp, Words(ustack + [0])) && forall i :: 0 <= i < |ustack| ==> ustack[i] < WORD
    ensures Vector(s, r, sp, ustack)
  {
    hide Holds, Words, Pointer;
    var ws := ustack + [0];
    forall i | 0 <= i <= |ustack| ensures Pointer(s, r, sp, i) == ws[i] {
      WordHeld(s, r, sp, ws, i);
    }
  }

  lemma {:induction false} WordHeld(s: Vm, r: int, sp: int, ws: seq<nat>, i: nat)
    requires Holds(s, r, sp, Words(ws)) && i < |ws| && ws[i] < WORD
    ensures Pointer(s, r, sp, i) == ws[i]
  {
    hide ByteAt, Words;
    WordBytes(ws, i);
    FourBytes(ws[i]);
    HeldByte(s, r, sp, Words(ws), 4 * i);
    HeldByte(s, r, sp, Words(ws), 4 * i + 1);
    HeldByte(s, r, sp, Words(ws), 4 * i + 2);
    HeldByte(s, r, sp, Words(ws), 4 * i + 3);
    hide Holds;
  }

  lemma {:induction false} HeldByte(s: Vm, r: int, va: int, bytes: seq<int>, j: nat)
    requires Holds(s, r, va, bytes) && j < |bytes|
    ensures ByteAt(s, r, va + j) == bytes[j]
  {
  }

  lemma PlacedWords(ustack: seq<nat>, argv: seq<seq<int>>, sp: nat, top: nat)
    requires Placed(ustack, argv, sp, top) && top <= TOP
    ensures forall i :: 0 <= i < |ustack| ==> ustack[i] < WORD
  {
  }

  lemma ArgumentsFound(s: Vm, r: int, sp: int, ustack: seq<nat>, argv: seq<seq<int>>)
    requires Vector(s, r, sp, ustack) && |ustack| == |argv| && AllHold(s, r, ustack, argv)
    ensures forall i :: Argument(s, r, sp, argv, i)
  {
    hide Holds, Pointer;
  }

  /** The page that starts at byte `base` is mapped for the program to write to. */
  ghost predicate StackPage(t: Tables, r: int, base: int) {
    base % PGSIZE == 0 && Access(t, r, 0, base / PGSIZE, true) && Lookup(t, r, base / PGSIZE).v
  }

  /** A copy to a page that is mapped for writing needs no memory, whatever the size of the process. */
  lemma StackCopy(t: Tables, r: int, base: nat, sp: nat, n: nat, free: nat)
    requires StackPage(t, r, base) && base <= sp && sp + n <= base + PGSIZE
    ensures CanCopy(t, r, 0, free, sp / PGSIZE, EndPage(sp, n), true)
  {
    hide Lookup;
    var a, b := sp / PGSIZE, EndPage(sp, n);
    forall v | a <= v < b ensures Access(t, r, 0, v, true) && Lookup(t, r, v).v {
      assert v == base / PGSIZE;
    }
    assert MissingIn(t, r, a, b) == {};
    CostNone(Nodes(t, r));
  }

  lemma StackStays(s: Vm, s': Vm, r: int, base: nat)
    requires StackPage(s.t, r, base) && Touches(s, s', r, 0) && IsRoot(s.o, r)
    ensures StackPage(s'.t, r, base)
  {
    hide Lookup;
    assert KeepAt(s, s', r, 0, 0, r, base / PGSIZE);
  }

  /** A write to the new stack: it cannot fail, and changes no mapping and nothing below the stack. */
  method Push(k: Pager, r: int, sp: nat, bytes: seq<int>, ghost base: nat, ghost s: Vm)
    requires k.Valid() && IsRoot(k.owner, r) && base <= sp && sp + |bytes| <= base + PGSIZE <= TOP
    requires StackPage(k.tables, r, base) && Touches(s, k.State(), r, 0) && LowSame(s, k.State(), r, base)
    modifies k
    ensures k.Valid() && IsRoot(k.owner, r) && Touches(s, k.State(), r, 0) && StackPage(k.tables, r, base)
    ensures LowSame(s, k.State(), r, base)
    ensures Patched(old(k.State()), k.State(), r, sp, bytes) && Holds(k.State(), r, sp, bytes)
  {
    hide Owned, Patched, Touches, LowSame, Holds, FreeOk, StackPage, CanCopy;
    ghost var m := k.State();
    ghost var done: nat;
    UpExact(0);
    StackCopy(k.tables, r, base, sp, |bytes|, |k.free|);
    var ok;
    ok, done := Copyout(k, r, 0, sp, bytes);
    TouchesRoots(m, k.State(), r, 0);
    StackStays(m, k.State(), r, base);
    TouchesThen(s, m, k.State(), r, 0);
    assert bytes[..done] == bytes;
    HoldsNew(m, k.State(), r, sp, bytes);
    LowThen(s, m, k.State(), r, base, sp, bytes);
  }

  /** The next multiple of 16. */
  function Up16(n: nat): (m: nat)
    ensures n <= m < n + 16 && m % 16 == 0
  {
    (n + 15) / 16 * 16
  }

  /** How far the stack reaches down with the first `i` strings on it. */
  function Depth(argv: seq<seq<int>>, i: nat): nat
    requires i <= |argv|
  {
    if i == 0 then 0 else Up16(Depth(argv, i - 1) + |argv[i - 1]| + 1)
  }

  /** The same with the array of pointers below them. */
  function ArgsDepth(argv: seq<seq<int>>): nat {
    Up16(Depth(argv, |argv|) + 4 * (|argv| + 1))
  }

  lemma {:induction false} DeeperStill(argv: seq<seq<int>>, i: nat, j: nat)
    requires i <= j <= |argv|
    ensures Depth(argv, i) <= Depth(argv, j) <= ArgsDepth(argv)
    decreases |argv| - i
  {
    hide Up16;
    if i < j {
      DeeperStill(argv, i + 1, j);
    } else if i < |argv| {
      DeeperStill(argv, i + 1, i + 1);
    }
  }

  function Down16(n: nat): nat {
    n - n % 16
  }

  /** Rounding the stack pointer down rounds the depth up. */
  lemma RoundDown(top: nat, depth: nat, n: nat)
    requires top % 16 == 0 && depth % 16 == 0 && depth + n <= top
    ensures Down16(top - depth - n) == top - Up16(depth + n) && Down16(top - depth - n) % 16 == 0
    ensures Down16(top - depth - n) + n <= top - depth
  {
    var a, b := top / 16, depth / 16;
    assert top == 16 * a && depth == 16 * b;
  }

  /** Each step leaves the stack pointer aligned, a whole page above the stack at first. */
  lemma DepthAligned(argv: seq<seq<int>>, i: nat)
    requires i <= |argv|
    ensures Depth(argv, i) % 16 == 0
  {
  }

  /** Where the stack stands with some of the strings on it. */
  ghost predicate Pushed(s: Vm, s': Vm, r: int, ustack: seq<nat>, argv: seq<seq<int>>, sp: nat, top: nat) {
    && |ustack| <= |argv| && top - PGSIZE <= sp <= top && sp == top - Depth(argv, |ustack|) && sp % 16 == 0
    && LowSame(s, s', r, top - PGSIZE) && Placed(ustack, argv, sp, top) && AllHold(s', r, ustack, argv)
  }

  /** One string; it fails exactly if the stack page has no room for it. */
  method PushString(k: Pager, r: int, sp: nat, base: nat, ustack: seq<nat>, argv: seq<seq<int>>, ghost s: Vm)
    returns (ok: bool, sp': nat)
    requires k.Valid() && IsRoot(k.owner, r) && Touches(s, k.State(), r, 0) && StackPage(k.tables, r, base)
    requires PGSIZE <= base <= TOP - PGSIZE && base % 16 == 0 && |ustack| < |argv| && |argv[|ustack|]| < PGSIZE
    requires Pushed(s, k.State(), r, ustack, argv, sp, base + PGSIZE)
    modifies k
    ensures k.Valid() && IsRoot(k.owner, r) && Touches(s, k.State(), r, 0) && StackPage(k.tables, r, base)
    ensures ok <==> Depth(argv, |ustack| + 1) <= PGSIZE
    ensures ok ==> Pushed(s, k.State(), r, ustack + [sp'], argv, sp', base + PGSIZE)
  {
    hide Owned, Patched, Touches, LowSame, Holds, FreeOk, Placed, AllHold, StackPage, Up16, Down16;
    var arg := argv[|ustack|];
    DepthAligned(argv, |ustack|);
    StackTop(base);
    RoundDown(base + PGSIZE, Depth(argv, |ustack|), |arg| + 1);
    sp' := sp - (|arg| + 1);
    sp' := Down16(sp');
    if sp' < base {
      return false, sp';
    }
    ghost var m := k.State();
    Push(k, r, sp', arg + [0], base, s);
    PushKeeps(m, k.State(), r, ustack, argv, sp, base + PGSIZE, sp', arg + [0]);
    OneMore(k.State(), r, ustack, argv, sp, sp', base + PGSIZE);
    ok := true;
  }

  /**
   * The argument strings and the array that points at them: 16-byte aligned, disjoint, inside the stack
   * page and readable there; the unsigned subtractions never wrap round. It fails exactly if the stack
   * page has no room for them.
   */
  method PushArgs(k: Pager, r: int, top: nat, argv: seq<seq<int>>) returns (ok: bool, sp: nat, ustack: seq<nat>)
    requires k.Valid() && IsRoot(k.owner, r) && 2 * PGSIZE <= top <= TOP && StackPage(k.tables, r, top - PGSIZE)
    requires |argv| < MAXARG && forall i :: 0 <= i < |argv| ==> |argv[i]| < PGSIZE
    modifies k
    ensures k.Valid() && IsRoot(k.owner, r) && Touches(old(k.State()), k.State(), r, 0)
    ensures ok <==> ArgsDepth(argv) <= PGSIZE
    ensures ok ==> |ustack| == |argv| && Placed(ustack, argv, sp + 4 * (|argv| + 1), top)
    ensures ok ==> sp == top - ArgsDepth(argv) && sp % 16 == 0 && sp + 4 * (|argv| + 1) <= top
    ensures ok ==> AllHold(k.State(), r, ustack, argv) && Vector(k.State(), r, sp, ustack)
    ensures ok ==> LowSame(old(k.State()), k.State(), r, top - PGSIZE)
  {
    hide Owned, Touches, LowSame, Holds, FreeOk, Vector, Placed, AllHold, Pushed, StackPage, Depth, ArgsDepth;
    ghost var s := k.State();
    StackBase(k.tables, r, top - PGSIZE);
    TouchesNone(s, r, 0);
    PushedNone(s, r, argv, top);
    sp, ustack := top, [];
    var base := sp - PGSIZE;
    while |ustack| < |argv|
      invariant k.Valid() && IsRoot(k.owner, r) && Touches(s, k.State(), r, 0) && StackPage(k.tables, r, base)
      invariant |ustack| <= |argv| && Pushed(s, k.State(), r, ustack, argv, sp, base + PGSIZE)
      decreases |argv| - |ustack|
    {
      ok, sp := PushString(k, r, sp, base, ustack, argv, s);
      DeeperStill(argv, |ustack| + 1, |argv|);
      if !ok {
        return false, sp, ustack;
      }
      ustack := ustack + [sp];
    }
    ok, sp := PushVector(k, r, sp, base, ustack, argv, s);
  }

  lemma StackTop(base: nat)
    requires base % 16 == 0
    ensures (base + PGSIZE) % 16 == 0
  {
    var n := base / 16;
    assert base + PGSIZE == 16 * (n + 256);
  }

  lemma StackBase(t: Tables, r: int, base: nat)
    requires StackPage(t, r, base)
    ensures base % PGSIZE == 0 && base % 16 == 0 && (base + PGSIZE) % PGSIZE == 0
  {
    hide Access, Lookup;
    Aligned(base);
    NextPage(base);
  }

  lemma NextPage(base: nat)
    requires base % PGSIZE == 0
    ensures (base + PGSIZE) % PGSIZE == 0
  {
    var n := base / PGSIZE;
    assert base == n * PGSIZE;
  }

  /** The array of pointers, with its terminating zero. */
  method PushVector(k: Pager, r: int, above: nat, base: nat, ustack: seq<nat>, argv: seq<seq<int>>, ghost s: Vm)
    returns (ok: bool, sp: nat)
    requires k.Valid() && IsRoot(k.owner, r) && Touches(s, k.State(), r, 0) && StackPage(k.tables, r, base)
    requires PGSIZE <= base <= TOP - PGSIZE && base % 16 == 0 && |ustack| == |argv| < MAXARG
    requires Pushed(s, k.State(), r, ustack, argv, above, base + PGSIZE)
    modifies k
    ensures k.Valid() && IsRoot(k.owner, r) && Touches(s, k.State(), r, 0)
    ensures ok <==> ArgsDepth(argv) <= PGSIZE
    ensures ok ==> Placed(ustack, argv, sp + 4 * (|argv| + 1), base + PGSIZE)
    ensures ok ==> sp == base + PGSIZE - ArgsDepth(argv) && sp % 16 == 0 && sp + 4 * (|argv| + 1) <= base + PGSIZE
    ensures ok ==> AllHold(k.State(), r, ustack, argv) && Vector(k.State(), r, sp, ustack)
    ensures ok ==> LowSame(s, k.State(), r, base)
  {
    hide Owned, Patched, Touches, LowSame, Holds, FreeOk, Words, Placed, AllHold, StackPage, Up16, Down16, Depth,
         Vector;
    DepthAligned(argv, |argv|);
    StackTop(base);
    RoundDown(base + PGSIZE, Depth(argv, |argv|), 4 * (|argv| + 1));
    sp := above - (|argv| + 1) * 4;
    sp := Down16(sp);
    if sp < base {
      return false, sp;
    }
    ghost var m := k.State();
    Push(k, r, sp, Words(ustack + [0]), base, s);
    PushKeeps(m, k.State(), r, ustack, argv, above, base + PGSIZE, sp, Words(ustack + [0]));
    PlacedLower(ustack, argv, above, sp + 4 * (|argv| + 1), base + PGSIZE);
    PlacedWords(ustack, argv, above, base + PGSIZE);
    VectorHeld(k.State(), r, sp, ustack);
    ok := true;
  }

  lemma PushedNone(s: Vm, r: int, argv: seq<seq<int>>, top: nat)
    requires top % PGSIZE == 0 && PGSIZE <= top
    ensures Pushed(s, s, r, [], argv, top, top)
  {
    hide LowSame, Placed, AllHold;
    Aligned(top);
    LowNone(s, r, top - PGSIZE);
    NothingPlaced(s, r, argv, top);
  }

  lemma Aligned(top: nat)
    requires top % PGSIZE == 0
    ensures top % 16 == 0
  {
    Multiple(256 * (top / PGSIZE));
  }

  lemma Multiple(m: nat)
    ensures (16 * m) % 16 == 0
  {
  }

  lemma LowNone(s: Vm, r: int, base: int)
    ensures LowSame(s, s, r, base)
  {
  }

  lemma NothingPlaced(s: Vm, r: int, argv: seq<seq<int>>, top: nat)
    ensures Placed([], argv, top, top) && AllHold(s, r, [], argv)
  {
  }

  lemma OneMore(s: Vm, r: int, ustack: seq<nat>, argv: seq<seq<int>>, above: nat, sp: nat, top: nat)
    requires Placed(ustack, argv, above, top) && |ustack| < |argv| && AllHold(s, r, ustack, argv)
    requires sp % 16 == 0 && sp + |argv[|ustack|]| + 1 <= above <= top && Holds(s, r, sp, argv[|ustack|] + [0])
    ensures Placed(ustack + [sp], argv, sp, top) && AllHold(s, r, ustack + [sp], argv)
  {
    hide Holds;
  }

  lemma PlacedLower(ustack: seq<nat>, argv: seq<seq<int>>, above: nat, sp: nat, top: nat)
    requires Placed(ustack, argv, above, top) && sp <= above
    ensures Placed(ustack, argv, sp, top)
  {
  }

  // ---- exec ----

  /** Table `r` was made since `s0`, and nothing else has changed. */
  ghost predicate Built(s0: Vm, s: Vm, r: int) {
    && Owned(s0.t, s0.o) && UseOf(s0.o, r) == Free
    && FrameBut(s0, s, r, 0, PAGES, r) && Keeps(s0, s, r, 0, PAGES)
  }

  lemma BuiltThen(s0: Vm, s1: Vm, s2: Vm, r: int)
    requires Built(s0, s1, r) && Only(s1, s2, r)
    ensures Built(s0, s2, r)
  {
    OnlyWide(s1, s2, r);
    ButThen(s0, s1, s2, r, 0, PAGES);
  }

  /** Every failure of exec ends here: all the new table's pages go back, and no one sees a change. */
  method Abandon(k: Pager, r: int, sz: nat, ghost s0: Vm)
    requires k.Valid() && IsRoot(k.owner, r) && ProcTable(k.tables, r, sz) && Built(s0, k.State(), r)
    modifies k
    ensures k.Valid() && SameUses(s0.o, k.owner) && SameTables(s0, k.State()) && SameMemory(s0, k.State())
  {
    hide Owned, Lookup, FreeOk, ProcTable, FrameBut, Keeps, Released, SameUses, SameTables, Bytes, Up;
    ghost var s := k.State();
    ProcFreepagetable(k, r, sz);
    BackToStart(s0, s, k.State(), r);
    Unseen(s0, s, k.State(), r);
  }

  lemma ProcTableSame(s: Vm, s': Vm, r: int, sz: nat, a: int, b: int)
    requires ProcTable(s.t, r, sz) && IsRoot(s.o, r) && Keeps(s, s', r, a, b) && b <= Up(sz)
    ensures ProcTable(s'.t, r, sz)
  {
    hide Lookup, Up;
    forall v | Up(sz) <= v < PAGES && v != TRAPFRAME && v != TRAMPOLINE
      ensures !Lookup(s'.t, r, v).v
    {
      assert KeepAt(s, s', r, a, b, r, v);
    }
  }

  lemma TouchesProcTable(s: Vm, s': Vm, r: int, sz: nat)
    requires ProcTable(s.t, r, sz) && IsRoot(s.o, r) && Touches(s, s', r, 0)
    ensures ProcTable(s'.t, r, sz) && Only(s, s', r)
    ensures forall v :: 0 <= v < PAGES ==> Lookup(s'.t, r, v) == Lookup(s.t, r, v)
  {
    hide Lookup;
    ProcTableSame(s, s', r, sz, 0, 0);
    TouchesOnly(s, s', r);
    forall v | 0 <= v < PAGES
      ensures Lookup(s'.t, r, v) == Lookup(s.t, r, v)
    {
      assert KeepAt(s, s', r, 0, 0, r, v);
    }
  }

  /** Two pages above the segments: a guard that the program cannot reach, and the stack. */
  method MakeStack(k: Pager, r: int, sz: nat) returns (ok: bool, top: nat)
    requires Growing(k, r, sz)
    modifies k
    ensures k.Valid() && IsRoot(k.owner, r) && ProcTable(k.tables, r, top) && Only(old(k.State()), k.State(), r)
    ensures SameMemory(old(k.State()), k.State())
    ensures ok ==> top == Up(sz) * PGSIZE + 2 * PGSIZE <= TOP
    ensures ok ==> Guarded(k.tables, r, Up(sz))
    ensures ok ==> forall v :: 0 <= v < Up(sz) ==> Lookup(k.tables, r, v) == old(Lookup(k.tables, r, v))
    ensures ok ==> StackPage(k.tables, r, top - PGSIZE)
    ensures ok <==> Up(sz) + 2 <= TRAPFRAME && |old(k.free)| >= Cost(Nodes(old(k.tables), r), Range(Up(sz), Up(sz) + 2))
  {
    hide Owned, Frame, Keeps, Lookup, SameMemory, Dense, FreeOk, ProcTable, Only, Up, Nodes, Cost, Spent, Range,
         StackPage, Growing;
    ghost var s := k.State();
    var sz0 := Up(sz) * PGSIZE;
    UpExact(Up(sz));
    UpExact(Up(sz) + 2);
    GrowingShape(k, r, sz);
    RoundedUp(s.t, r, sz);
    GrowingAgain(k, r, sz0);
    var got := Extend(k, r, sz0, sz0 + 2 * PGSIZE, true, false);
    if got == 0 {
      return false, sz0;
    }
    ghost var m := k.State();
    top := got;
    GrowingShape(k, r, top);
    DenseAt(m.t, r, Up(top), Up(sz));
    DenseAt(m.t, r, Up(top), Up(sz) + 1);
    InBounds(m.t, r, top);
    Uvmclear(k, r, top / PGSIZE - 2);
    FrameRoot(m, k.State(), r, Up(sz), Up(sz) + 1, r);
    ProcTableSame(m, k.State(), r, top, Up(sz), Up(sz) + 1);
    StackIsUp(m, k.State(), r, Up(sz));
    LowKept(m, k.State(), r, sz, Up(sz) + 1);
    OnlyOf(m, k.State(), r, Up(sz), Up(sz) + 1, Up(sz) + 1);
    OnlyRoots(s, m, r);
    OnlyThen(s, m, k.State(), r);
    SameThen(s, m, k.State());
    ok := true;
  }

  /** Page `v` is a guard that only the kernel can reach, and page `v + 1` a stack for the program. */
  ghost predicate Guarded(t: Tables, r: int, v: int) {
    && Lookup(t, r, v).v && Lookup(t, r, v).perm == Perm(true, true, false, false)
    && Lookup(t, r, v + 1).v && Lookup(t, r, v + 1).perm == Perm(true, true, false, true)
  }

  lemma GrowingShape(k: Pager, r: int, sz: nat)
    requires Growing(k, r, sz)
    ensures k.Valid() && IsRoot(k.owner, r) && ProcTable(k.tables, r, sz) && Dense(k.tables, r, Up(sz))
  {
  }

  lemma GrowingAgain(k: Pager, r: int, sz: nat)
    requires k.Valid() && IsRoot(k.owner, r) && ProcTable(k.tables, r, sz) && Dense(k.tables, r, Up(sz))
    ensures Growing(k, r, sz)
  {
  }

  lemma StackIsUp(s: Vm, s': Vm, r: int, v: nat)
    requires Keeps(s, s', r, v, v + 1) && IsRoot(s.o, r) && v + 1 < PAGES
    requires Lookup(s.t, r, v + 1).v && Lookup(s.t, r, v + 1).perm == Perm(true, true, false, true)
    requires Lookup(s'.t, r, v).v && Lookup(s'.t, r, v).perm == Perm(true, true, false, false)
    ensures StackPage(s'.t, r, (v + 1) * PGSIZE) && Guarded(s'.t, r, v)
  {
    hide Lookup;
    assert KeepAt(s, s', r, v, v + 1, r, v + 1);
  }

  lemma RoundedUp(t: Tables, r: int, sz: nat)
    requires ProcTable(t, r, sz) && Dense(t, r, Up(sz))
    ensures ProcTable(t, r, Up(sz) * PGSIZE) && Dense(t, r, Up(Up(sz) * PGSIZE))
  {
    UpExact(Up(sz));
    UpMono(sz, TOP);
    UpExact(TRAPFRAME);
  }

  lemma DenseAt(t: Tables, r: int, n: nat, v: nat)
    requires Dense(t, r, n) && v < n
    ensures Lookup(t, r, v).v
  {
  }

  lemma ImageSame(s: Vm, s': Vm, r: int, phs: seq<Option<Proghdr>>, file: seq<int>)
    requires Image(s, r, phs, file, |phs|) && SameMemory(s, s') && IsRoot(s.o, r)
    ensures Image(s', r, phs, file, |phs|)
  {
    hide Bytes, ImagePage;
    forall v | 0 <= v < TRAPFRAME
      ensures Bytes(s', r, v) == ImagePage(phs, file, |phs|, v)
    {
      assert SameBytes(s, s', r, v);
    }
  }

  ghost predicate OtherUse(o: map<int, Use>, o': map<int, Use>, r: int, current: int, p: int) {
    && (p != r && p != current ==> (IsRoot(o, p) <==> IsRoot(o', p)))
    && (UseOf(o, p) == Held <==> UseOf(o', p) == Held)
  }

  /** Table `r` has taken the place of table `current`; kernel pages and all other tables are as they were. */
  ghost predicate Replaced(s0: Vm, s: Vm, r: int, current: int) {
    && UseOf(s0.o, r) == Free && IsRoot(s.o, r) && UseOf(s.o, current) == Free
    && (forall p :: OtherUse(s0.o, s.o, r, current, p))
    && (forall q, v :: q != current ==> SameAt(s0.o, s0.t, s.t, q, v))
  }

  /** What a program finds when it starts: its segments with their permissions, a guard page, and a stack with
      its arguments and the pointers to them. */
  ghost predicate Started(s: Vm, r: int, sz: nat, sp: nat, ustack: seq<nat>, phs: seq<Option<Proghdr>>, file: seq<int>,
                          argv: seq<seq<int>>) {
    && IsRoot(s.o, r) && ProcTable(s.t, r, sz) && 2 * PGSIZE <= sz && sz % PGSIZE == 0
    && sz / PGSIZE - 2 == Up(SizeAfter(phs, |phs|)) && Permitted(s.t, r, phs, |phs|)
    && Guarded(s.t, r, sz / PGSIZE - 2)
    && sp % 16 == 0 && sz - PGSIZE <= sp && |ustack| == |argv| && Placed(ustack, argv, sp + 4 * (|argv| + 1), sz)
    && sp + 4 * (|argv| + 1) <= sz && AllHold(s, r, ustack, argv) && Vector(s, r, sp, ustack)
    && (forall i :: Argument(s, r, sp, argv, i))
    && (forall v :: 0 <= v && v * PGSIZE + PGSIZE <= sz - PGSIZE ==> Bytes(s, r, v) == ImagePage(phs, file, |phs|, v))
  }

  /** Whether exec succeeds with so many pages free: the headers are acceptable, image and stack lie below
      the trapframe, there is memory for them, and the arguments fit the stack page. */
  ghost predicate CanExec(free: nat, phs: seq<Option<Proghdr>>, file: seq<int>, argv: seq<seq<int>>) {
    var pages := Up(SizeAfter(phs, |phs|)) + 2;
    && GoodHeaders(phs, file, |phs|) && pages <= TRAPFRAME && free >= 2 + Cost({TOPNODE}, Range(0, pages))
    && ArgsDepth(argv) <= PGSIZE
  }

  lemma NodesBelow(n: nat, i: int)
    requires n <= TRAPFRAME
    ensures i in NodesFor(Range(0, n)) <==> 0 <= i && i * PTES < n
  {
    if 0 <= i && i * PTES < n {
      assert i * PTES in Range(0, n) && Hi(i * PTES) == i;
    }
  }

  /** What an image of n pages costs: one page each, and a node for every PTES pages started below the
      node of the kernel pages. */
  lemma {:induction false} ImageCost(n: nat)
    requires n <= TRAPFRAME
    ensures Cost({TOPNODE}, Range(0, n)) == n + if n <= TOPNODE * PTES then (n + PTES - 1) / PTES else TOPNODE
  {
    hide Cost, Range, NodesFor;
    if n == 0 {
      RangeNone(0);
      CostNone({TOPNODE});
    } else {
      ImageCost(n - 1);
      RangeMore(0, n - 1);
      CostMore({TOPNODE}, Range(0, n - 1), n - 1);
      NodesBelow(n - 1, Hi(n - 1));
    }
  }

  lemma TwoMore(free: nat, nodes: set<int>, free1: nat, nodes1: set<int>, n: nat)
    requires Spent(free, nodes, free1, nodes1, Range(0, n))
    ensures free1 >= Cost(nodes1, Range(n, n + 2)) <==> free >= Cost(nodes, Range(0, n + 2))
    ensures Cost(nodes, Range(0, n)) <= Cost(nodes, Range(0, n + 2))
  {
    hide Cost, Range, Spent;
    RangeSplit(0, n, n + 2);
    SpentTwice(free, nodes, free1, nodes1, free1, nodes1, Range(0, n), Range(n, n + 2));
    RangeGrows(nodes, 0, n, n + 2);
  }

  /** Segments, stack and arguments of a new program, in a table made since `s0`. */
  method NewProgram(k: Pager, r: int, phs: seq<Option<Proghdr>>, file: seq<int>, argv: seq<seq<int>>, ghost s0: Vm,
                    ghost tf: int, ghost code: int)
    returns (ok: bool, sz: nat, sp: nat, ustack: seq<nat>)
    requires k.Valid() && IsRoot(k.owner, r) && ProcTable(k.tables, r, 0) && Built(s0, k.State(), r)
    requires Nodes(k.tables, r) == {TOPNODE} && KernelPages(k.tables, r, tf, code)
    requires forall i :: 0 <= i < |phs| && phs[i].Some? ==> Fields(phs[i].value)
    requires |argv| < MAXARG && forall i :: 0 <= i < |argv| ==> |argv[i]| < PGSIZE
    modifies k
    ensures k.Valid() && IsRoot(k.owner, r) && ProcTable(k.tables, r, sz) && Built(s0, k.State(), r)
    ensures ok ==> Started(k.State(), r, sz, sp, ustack, phs, file, argv) && KernelPages(k.tables, r, tf, code)
    ensures ok ==> sz == (Up(SizeAfter(phs, |phs|)) + 2) * PGSIZE && sp == sz - ArgsDepth(argv)
    ensures ok <==> CanExec(|old(k.free)| + 2, phs, file, argv)
  {
    hide Owned, Lookup, FreeOk, ProcTable, FrameBut, Frame, Keeps, SameMemory, Bytes, Up, Dense, Image, Only, Built,
         Touches, Started, Placed, AllHold, Holds, Vector, LowSame, Nodes, Cost, Spent, Range, StackPage, ArgsDepth,
         GoodHeaders, SizeAfter, KernelPages, Permitted, Guarded;
    ghost var s1, free1, nodes1 := k.State(), |k.free|, Nodes(k.tables, r);
    sp, ustack := 0, [];
    ImageStart(s1, r, phs, file);
    ok, sz := LoadSegments(k, r, phs, file);
    ghost var s2 := k.State();
    BuiltThen(s0, s1, s2, r);
    KernelPagesStay(s1, s2, r, tf, code);
    RangeGrows(nodes1, 0, Up(SizeAfter(phs, |phs|)), Up(SizeAfter(phs, |phs|)) + 2);
    if !ok {
      return;
    }
    TwoMore(free1, nodes1, |k.free|, Nodes(k.tables, r), Up(sz));
    ghost var pages := Up(sz) + 2;
    ok, sz := MakeStack(k, r, sz);
    ghost var s3 := k.State();
    BuiltThen(s0, s2, s3, r);
    KernelPagesStay(s2, s3, r, tf, code);
    if !ok {
      return;
    }
    PermittedStays(s2.t, s3.t, r, phs, |phs|);
    ImageSame(s2, s3, r, phs, file);
    ok, sp, ustack := PushArgs(k, r, sz, argv);
    ghost var s4 := k.State();
    TouchesProcTable(s3, s4, r, sz);
    BuiltThen(s0, s3, s4, r);
    KernelPagesStay(s3, s4, r, tf, code);
    if ok {
      assert sz == pages * PGSIZE && sz % PGSIZE == 0 && sz / PGSIZE - 2 == pages - 2;
      TablesStill(s3.t, s4.t, r, phs, pages - 2);
      Ready(s3, s4, r, sz, sp, ustack, phs, file, argv);
    }
  }

  lemma TablesStill(t: Tables, t': Tables, r: int, phs: seq<Option<Proghdr>>, v: nat)
    requires Permitted(t, r, phs, |phs|) && Guarded(t, r, v) && v + 1 < PAGES && Up(SizeAfter(phs, |phs|)) <= PAGES
    requires forall v :: 0 <= v < PAGES ==> Lookup(t', r, v) == Lookup(t, r, v)
    ensures Permitted(t', r, phs, |phs|) && Guarded(t', r, v)
  {
    hide Permitted, Lookup, Up, SizeAfter;
    PermittedStays(t, t', r, phs, |phs|);
  }

  /**
   * exec: on failure no page, table or program is different from before; on success the new
   * program's memory is set up, the old one's pages are free, and no other program is affected.
   */
  method Kexec(k: Pager, current: int, cursz: nat, trapframe: int, trampoline: int,
               phs: seq<Option<Proghdr>>, file: seq<int>, argv: seq<seq<int>>)
    returns (ok: bool, r: int, sz: nat, sp: nat, ustack: seq<nat>)
    requires k.Valid() && IsRoot(k.owner, current) && ProcTable(k.tables, current, cursz)
    requires UseOf(k.owner, trapframe) == Held && UseOf(k.owner, trampoline) == Outside
    requires forall i :: 0 <= i < |phs| && phs[i].Some? ==> Fields(phs[i].value)
    requires |argv| < MAXARG && forall i :: 0 <= i < |argv| ==> |argv[i]| < PGSIZE
    modifies k
    ensures k.Valid()
    ensures !ok ==> && SameUses(old(k.owner), k.owner) && SameTables(old(k.State()), k.State())
                    && SameMemory(old(k.State()), k.State())
    ensures ok ==> r != current && Started(k.State(), r, sz, sp, ustack, phs, file, argv)
    ensures ok ==> KernelPages(k.tables, r, trapframe, trampoline)
    ensures ok ==> Replaced(old(k.State()), k.State(), r, current) && forall p :: !About(UseOf(k.owner, p), current)
    ensures ok ==> forall q, v :: q != current ==> SameBytes(old(k.State()), k.State(), q, v)
    ensures ok ==> sz == (Up(SizeAfter(phs, |phs|)) + 2) * PGSIZE && sp == sz - ArgsDepth(argv)
    ensures ok <==> CanExec(|old(k.free)|, phs, file, argv)
  {
    hide Owned, Lookup, FreeOk, ProcTable, FrameBut, Frame, Keeps, Released, SameUses, SameTables, SameMemory,
         Bytes, Up, Built, Started, SameBytes, About, Replaced, CanExec, Nodes, SizeAfter, ArgsDepth, KernelPages;
    ghost var s0 := k.State();
    sz, sp, ustack := 0, 0, [];
    r := ProcPagetable(k, trapframe, trampoline);
    if r == 0 {
      TooFew(|old(k.free)|, phs, file, argv);
      ok := false;
      return;
    }
    BuiltFirst(s0, k.State(), r);
    ok, sz, sp, ustack := NewProgram(k, r, phs, file, argv, s0, trapframe, trampoline);
    if !ok {
      Abandon(k, r, sz, s0);
      return;
    }
    ghost var s4 := k.State();
    StillCurrent(s0, s4, r, current, cursz);
    ProcFreepagetable(k, current, cursz);
    Commit(s0, s4, k.State(), r, current, sz, sp, ustack, phs, file, argv);
    OthersKernelPages(s4, k.State(), current, r, trapframe, trampoline);
  }

  lemma OthersKernelPages(s: Vm, s': Vm, r: int, q: int, tf: int, code: int)
    requires Keeps(s, s', r, 0, PAGES) && IsRoot(s.o, q) && q != r && KernelPages(s.t, q, tf, code)
    ensures KernelPages(s'.t, q, tf, code)
  {
    hide Lookup;
    assert KeepAt(s, s', r, 0, PAGES, q, TRAMPOLINE) && KeepAt(s, s', r, 0, PAGES, q, TRAPFRAME);
  }

  lemma TooFew(free: nat, phs: seq<Option<Proghdr>>, file: seq<int>, argv: seq<seq<int>>)
    ensures CanExec(free, phs, file, argv) ==> free >= 2
  {
  }

  lemma BuiltFirst(s0: Vm, s1: Vm, r: int)
    requires Owned(s0.t, s0.o) && UseOf(s0.o, r) == Free && FrameBut(s0, s1, r, 0, PAGES, r)
    requires Keeps(s0, s1, r, 0, PAGES)
    ensures Built(s0, s1, r)
  {
  }

  lemma StillCurrent(s0: Vm, s: Vm, r: int, current: int, sz: nat)
    requires Built(s0, s, r) && IsRoot(s0.o, current) && ProcTable(s0.t, current, sz)
    ensures r != current && IsRoot(s.o, current) && ProcTable(s.t, current, sz)
  {
    hide Lookup, Up;
    assert FrameAt(s0, s, r, 0, PAGES, current);
    forall v | Up(sz) <= v < PAGES && v != TRAPFRAME && v != TRAMPOLINE
      ensures !Lookup(s.t, current, v).v
    {
      assert KeepAt(s0, s, r, 0, PAGES, current, v);
    }
  }

  /** The new program does not notice the old one going. */
  lemma StartedStays(s: Vm, s': Vm, r: int, sz: nat, sp: nat, ustack: seq<nat>,
                     phs: seq<Option<Proghdr>>, file: seq<int>, argv: seq<seq<int>>)
    requires Started(s, r, sz, sp, ustack, phs, file, argv) && IsRoot(s'.o, r)
    requires forall v :: 0 <= v < PAGES ==> Lookup(s'.t, r, v) == Lookup(s.t, r, v)
    requires s'.d == s.d
    ensures Started(s', r, sz, sp, ustack, phs, file, argv)
  {
    hide SizeAfter;
    TablesStill(s.t, s'.t, r, phs, sz / PGSIZE - 2);
    hide Lookup, ImagePage, Up, Guarded, Permitted, Argument, Vector;
    forall v | 0 <= v < PAGES
      ensures Bytes(s', r, v) == Bytes(s, r, v)
    {
      assert Lookup(s'.t, r, v) == Lookup(s.t, r, v);
    }
    hide Bytes;
    forall i | 0 <= i < |ustack|
      ensures Holds(s', r, ustack[i], argv[i] + [0])
    {
      HoldsSame(s, s', r, ustack[i], argv[i] + [0]);
    }
    VectorSame(s, s', r, sp, ustack);
    ArgumentsFound(s', r, sp, ustack, argv);
  }

  lemma VectorSame(s: Vm, s': Vm, r: int, sp: nat, ustack: seq<nat>)
    requires Vector(s, r, sp, ustack) && sp + 4 * (|ustack| + 1) <= TOP
    requires forall v :: 0 <= v < PAGES ==> Bytes(s', r, v) == Bytes(s, r, v)
    ensures Vector(s', r, sp, ustack)
  {
    hide Bytes;
    forall i | 0 <= i <= |ustack| ensures Pointer(s', r, sp, i) == Pointer(s, r, sp, i) {
      ByteSame(s, s', r, sp + 4 * i);
      ByteSame(s, s', r, sp + 4 * i + 1);
      ByteSame(s, s', r, sp + 4 * i + 2);
      ByteSame(s, s', r, sp + 4 * i + 3);
    }
  }

  lemma ByteSame(s: Vm, s': Vm, r: int, va: nat)
    requires va < TOP && forall v :: 0 <= v < PAGES ==> Bytes(s', r, v) == Bytes(s, r, v)
    ensures ByteAt(s', r, va) == ByteAt(s, r, va)
  {
    assert Bytes(s', r, va / PGSIZE) == Bytes(s, r, va / PGSIZE);
  }

  lemma HoldsSame(s: Vm, s': Vm, r: int, va: nat, bytes: seq<int>)
    requires Holds(s, r, va, bytes) && va + |bytes| <= TOP
    requires forall v :: 0 <= v < PAGES ==> Bytes(s', r, v) == Bytes(s, r, v)
    ensures Holds(s', r, va, bytes)
  {
    hide Bytes;
    forall j | 0 <= j < |bytes|
      ensures ByteAt(s', r, va + j) == bytes[j]
    {
      assert ByteAt(s, r, va + j) == bytes[j];
      assert Bytes(s', r, (va + j) / PGSIZE) == Bytes(s, r, (va + j) / PGSIZE);
    }
  }

  lemma Commit(s0: Vm, s4: Vm, s: Vm, r: int, current: int, sz: nat, sp: nat, ustack: seq<nat>,
               phs: seq<Option<Proghdr>>, file: seq<int>, argv: seq<seq<int>>)
    requires Built(s0, s4, r) && r != current && IsRoot(s4.o, current) && IsRoot(s0.o, current)
    requires Started(s4, r, sz, sp, ustack, phs, file, argv)
    requires Released(s4.o, s.o, current) && Keeps(s4, s, current, 0, PAGES) && s.d == s4.d
    ensures Started(s, r, sz, sp, ustack, phs, file, argv)
    ensures Replaced(s0, s, r, current) && forall p :: !About(UseOf(s.o, p), current)
    ensures forall q, v :: q != current ==> SameBytes(s0, s, q, v)
  {
    hide Lookup, Bytes, Holds, AllHold, Placed, Vector, Argument, Guarded, Permitted, ImagePage, ProcTable, Owned,
         FrameBut;
    assert ReleasedAt(s4.o, s.o, current, r) && ReleasedAt(s4.o, s.o, current, current);
    forall v | 0 <= v < PAGES
      ensures Lookup(s.t, r, v) == Lookup(s4.t, r, v)
    {
      assert KeepAt(s4, s, current, 0, PAGES, r, v);
    }
    StartedStays(s4, s, r, sz, sp, ustack, phs, file, argv);
    forall p
      ensures !About(UseOf(s.o, p), current)
    {
      assert ReleasedAt(s4.o, s.o, current, p);
    }
    ReplacedBy(s0, s4, s, r, current);
    forall q, v | q != current
      ensures SameBytes(s0, s, q, v)
    {
      if IsRoot(s0.o, q) && 0 <= v < TRAPFRAME {
        BuiltBytes(s0, s4, r, q, v);
        FreedBytes(s4, s, current, q, v);
      }
    }
  }

  lemma ReplacedBy(s0: Vm, s4: Vm, s: Vm, r: int, current: int)
    requires Built(s0, s4, r) && r != current && IsRoot(s4.o, r) && IsRoot(s0.o, current)
    requires Released(s4.o, s.o, current) && Keeps(s4, s, current, 0, PAGES)
    ensures Replaced(s0, s, r, current)
  {
    hide Lookup, Owned;
    forall p
      ensures OtherUse(s0.o, s.o, r, current, p)
    {
      assert ReleasedAt(s4.o, s.o, current, p) && (p != r ==> FrameAt(s0, s4, r, 0, PAGES, p));
    }
    assert ReleasedAt(s4.o, s.o, current, r) && ReleasedAt(s4.o, s.o, current, current);
    forall q, v | q != current
      ensures SameAt(s0.o, s0.t, s.t, q, v)
    {
      assert KeepAt(s0, s4, r, 0, PAGES, q, v) && KeepAt(s4, s, current, 0, PAGES, q, v);
      assert q != r ==> FrameAt(s0, s4, r, 0, PAGES, q);
    }
  }

  lemma Ready(s3: Vm, s4: Vm, r: int, sz: nat, sp: nat, ustack: seq<nat>,
              phs: seq<Option<Proghdr>>, file: seq<int>, argv: seq<seq<int>>)
    requires IsRoot(s4.o, r) && ProcTable(s4.t, r, sz) && 2 * PGSIZE <= sz && sz % PGSIZE == 0
    requires Guarded(s4.t, r, sz / PGSIZE - 2) && Permitted(s4.t, r, phs, |phs|)
    requires sz / PGSIZE - 2 == Up(SizeAfter(phs, |phs|))
    requires sp % 16 == 0 && sz - PGSIZE <= sp && |ustack| == |argv| && Placed(ustack, argv, sp + 4 * (|argv| + 1), sz)
    requires sp + 4 * (|argv| + 1) <= sz
    requires AllHold(s4, r, ustack, argv) && Vector(s4, r, sp, ustack)
    requires LowSame(s3, s4, r, sz - PGSIZE) && Image(s3, r, phs, file, |phs|)
    ensures Started(s4, r, sz, sp, ustack, phs, file, argv)
  {
    hide Lookup, Bytes, Holds, AllHold, Placed, Vector, Argument, Guarded, Permitted, ImagePage, Up;
    ArgumentsFound(s4, r, sp, ustack, argv);
  }

  /** The bytes of the image: of the segments that have a byte of the file for an address the last one counts,
      and where there is none the byte is zero. */
  lemma {:induction false} ImageByte(phs: seq<Option<Proghdr>>, file: seq<int>, n: nat, a: nat)
    requires n <= |phs|
    ensures |ImagePage(phs, file, n, a / PGSIZE)| == PGSIZE
    ensures forall i :: Last(phs, file, n, a, i) ==>
              ImagePage(phs, file, n, a / PGSIZE)[a % PGSIZE] == file[phs[i].value.off + a - phs[i].value.vaddr]
    ensures (forall i :: 0 <= i < n ==> !InSegment(phs, file, i, a)) ==>
              ImagePage(phs, file, n, a / PGSIZE)[a % PGSIZE] == 0
  {
    if n > 0 {
      ImageByte(phs, file, n - 1, a);
      hide InSegment, Overlay, Segment;
      if phs[n - 1].Some? {
        SegmentByte(phs, file, n - 1, a, ImagePage(phs, file, n - 1, a / PGSIZE));
      } else {
        assert !InSegment(phs, file, n - 1, a) by { NoSegment(phs, file, n - 1, a); }
      }
      forall i | Last(phs, file, n, a, i)
        ensures ImagePage(phs, file, n, a / PGSIZE)[a % PGSIZE] == file[phs[i].value.off + a - phs[i].value.vaddr]
      {
        assert i == n - 1 || (Last(phs, file, n - 1, a, i) && !InSegment(phs, file, n - 1, a));
      }
    }
  }

  /** Of the first `n` headers the last one to take the byte at `a` from the file is header `i`. */
  ghost predicate Last(phs: seq<Option<Proghdr>>, file: seq<int>, n: nat, a: nat, i: int) {
    0 <= i < n && InSegment(phs, file, i, a) && forall j :: i < j < n ==> !InSegment(phs, file, j, a)
  }

  lemma NoSegment(phs: seq<Option<Proghdr>>, file: seq<int>, i: nat, a: nat)
    requires i < |phs| && phs[i].None?
    ensures !InSegment(phs, file, i, a)
  {
  }

  lemma SegmentByte(phs: seq<Option<Proghdr>>, file: seq<int>, i: nat, a: nat, page: seq<int>)
    requires i < |phs| && phs[i].Some? && |page| == PGSIZE
    ensures var ph := phs[i].value;
            var now := Overlay(page, a / PGSIZE * PGSIZE, ph.vaddr, Segment(ph, file));
            && |now| == PGSIZE && (!InSegment(phs, file, i, a) ==> now[a % PGSIZE] == page[a % PGSIZE])
            && (InSegment(phs, file, i, a) ==> now[a % PGSIZE] == file[ph.off + a - ph.vaddr])
  {
    assert a == a / PGSIZE * PGSIZE + a % PGSIZE;
  }

  /** Header `i` takes the byte at address `a` from the file. */
  predicate InSegment(phs: seq<Option<Proghdr>>, file: seq<int>, i: int, a: nat) {
    && 0 <= i < |phs| && phs[i].Some? && phs[i].value.kind == LOAD
    && phs[i].value.vaddr <= a < phs[i].value.vaddr + phs[i].value.filesz
    && phs[i].value.off + phs[i].value.filesz <= |file|
  }
}
