/** kernel/vm.c: copyin() and copyout() between kernel buffers and the memory of a program. */
module UserCopy {
  import opened PageTable
  import opened VmState
  import opened PageCost
  import opened Paging
  import opened UserMemory

  /** One byte of a program's memory. */
  function ByteAt(s: Vm, r: int, va: int): int {
    var page := Bytes(s, r, va / PGSIZE);
    if va % PGSIZE < |page| then page[va % PGSIZE] else 0
  }

  function Flat(s: Vm, r: int, va: int, n: nat): seq<int> {
    seq(n, i => ByteAt(s, r, va + i))
  }

  /** A page at byte address `base` with `src` laid over the addresses from `va` on. */
  function Overlay(page: seq<int>, base: int, va: int, src: seq<int>): seq<int> {
    seq(|page|, i => if va <= base + i < va + |src| then src[base + i - va] else if 0 <= i < |page| then page[i] else 0)
  }

  ghost predicate PatchedAt(s: Vm, s': Vm, r: int, va: int, src: seq<int>, q: int, v: int) {
    IsRoot(s.o, q) && 0 <= v < TRAPFRAME ==>
      Bytes(s', q, v) == if q == r then Overlay(Bytes(s, q, v), v * PGSIZE, va, src) else Bytes(s, q, v)
  }

  /** The bytes at [va, va + |src|) of program `r` are `src`; everything else reads as before. */
  ghost predicate Patched(s: Vm, s': Vm, r: int, va: int, src: seq<int>) {
    forall q, v :: PatchedAt(s, s', r, va, src, q, v)
  }

  lemma OverlayNone(page: seq<int>, base: int, va: int, src: seq<int>)
    requires base + |page| <= va || va + |src| <= base
    ensures Overlay(page, base, va, src) == page
  {
  }

  lemma OverlayTwice(page: seq<int>, base: int, va: int, a: seq<int>, b: seq<int>)
    ensures Overlay(Overlay(page, base, va, a), base, va + |a|, b) == Overlay(page, base, va, a + b)
  {
  }

  /** Reading back what was written. */
  lemma PatchedReads(s: Vm, s': Vm, r: int, va: nat, src: seq<int>, i: nat)
    requires Patched(s, s', r, va, src) && IsRoot(s.o, r) && i < |src| && va + i < TOP
    requires |Bytes(s, r, (va + i) / PGSIZE)| == PGSIZE
    ensures ByteAt(s', r, va + i) == src[i]
  {
    hide Bytes;
    assert PatchedAt(s, s', r, va, src, r, (va + i) / PGSIZE);
  }

  lemma PatchedThen(s0: Vm, s1: Vm, s2: Vm, r: int, va: int, a: seq<int>, b: seq<int>)
    requires Patched(s0, s1, r, va, a) && Patched(s1, s2, r, va + |a|, b)
    requires forall q :: IsRoot(s0.o, q) ==> IsRoot(s1.o, q)
    ensures Patched(s0, s2, r, va, a + b)
  {
    hide Bytes, Overlay;
    forall q, v
      ensures PatchedAt(s0, s2, r, va, a + b, q, v)
    {
      assert PatchedAt(s0, s1, r, va, a, q, v) && PatchedAt(s1, s2, r, va + |a|, b, q, v);
      OverlayTwice(Bytes(s0, q, v), v * PGSIZE, va, a, b);
    }
  }

  lemma PatchedNothing(s: Vm, s': Vm, r: int, va: int)
    requires SameMemory(s, s')
    ensures Patched(s, s', r, va, [])
  {
    hide Bytes;
    forall q, v
      ensures PatchedAt(s, s', r, va, [], q, v)
    {
      assert SameBytes(s, s', q, v);
      OverlayEmpty(Bytes(s, q, v), v * PGSIZE, va);
    }
  }

  lemma OverlayEmpty(page: seq<int>, base: int, va: int)
    ensures Overlay(page, base, va, []) == page
  {
  }

  /** The physical page behind a user page, or 0. */
  method Walkaddr(k: Pager, r: int, v: nat) returns (pa: int)
    requires k.Valid() && IsRoot(k.owner, r)
    modifies k
    ensures k.Valid() && k.State() == old(k.State()) && k.free == old(k.free)
    ensures pa != 0 <==> v < PAGES && Lookup(k.tables, r, v).v && Lookup(k.tables, r, v).perm.u
    ensures pa != 0 ==> Behind(k.State(), r, v, pa)
  {
    hide Owned, Lookup, Entry, Frame, Keeps, Reaches, FreeOk;
    if v >= PAGES {
      return 0;
    }
    ghost var s := k.State();
    var n := k.Walk(r, v, false);
    NoNode(s, r, v);
    if n == 0 {
      return 0;
    }
    NodeEntry(s, r, v);
    var pte := Entry(k.tables, n, Lo(v));
    if !pte.v {
      return 0;
    }
    if !pte.perm.u {
      return 0;
    }
    UserLeaf(s, r, v);
    return pte.ppn;
  }

  /** Page `pa` is the one behind user page `v`. */
  ghost predicate Behind(s: Vm, r: int, v: int, pa: int) {
    0 <= v < TRAPFRAME && Lookup(s.t, r, v).v && Lookup(s.t, r, v).ppn == pa && UseOf(s.o, pa) == Leaf(r, v)
  }

  lemma UserLeaf(s: Vm, r: int, v: int)
    requires Owned(s.t, s.o) && IsRoot(s.o, r) && 0 <= v < PAGES && Lookup(s.t, r, v).v && Lookup(s.t, r, v).perm.u
    ensures Behind(s, r, v, Lookup(s.t, r, v).ppn) && Lookup(s.t, r, v).ppn in s.o
  {
    assert LeafAt(s.t, s.o, r, v);
  }

  /** A copy may use page `v`: a user page, writable if it is to be written, or one not mapped yet
      that starts below the size of the process. */
  ghost predicate Access(t: Tables, r: int, sz: nat, v: int, write: bool) {
    if Lookup(t, r, v).v then v < PAGES && Lookup(t, r, v).perm.u && (write ==> Lookup(t, r, v).perm.w)
    else v * PGSIZE < sz
  }

  /** The pages of [a, b) that are not mapped. */
  ghost function MissingIn(t: Tables, r: int, a: int, b: int): set<int> {
    set v | a <= v < b && !Lookup(t, r, v).v
  }

  /** All pages of [a, b) may be used, and there is memory for those not mapped yet. */
  ghost predicate CanCopy(t: Tables, r: int, sz: nat, free: nat, a: int, b: int, write: bool) {
    && (forall v :: a <= v < b ==> Access(t, r, sz, v, write))
    && free >= Cost(Nodes(t, r), MissingIn(t, r, a, b))
  }

  /** The page behind the last of `len` bytes at `va`, plus one. */
  function EndPage(va: nat, len: nat): nat {
    if len == 0 then va / PGSIZE else (va + len - 1) / PGSIZE + 1
  }

  /** What making page `v` resident does to the free list and to the nodes. */
  ghost predicate Paged(t: Tables, free: nat, t': Tables, free': nat, r: int, v: int, ok: bool) {
    if ok && !Lookup(t, r, v).v
    then free' == free - CostOne(Nodes(t, r), v) && Nodes(t', r) == Nodes(t, r) + {Hi(v)}
    else free' == free && t' == t
  }

  /** The page for `v`, faulted in if need be; reading memory cannot tell. */
  method Resident(k: Pager, r: int, sz: nat, v: nat) returns (pa: int)
    requires k.Valid() && IsRoot(k.owner, r) && sz <= TOP
    modifies k
    ensures k.Valid() && SameMemory(old(k.State()), k.State())
    ensures Frame(old(k.State()), k.State(), r, 0, Up(sz)) && Keeps(old(k.State()), k.State(), r, 0, Up(sz))
    ensures Keeps(old(k.State()), k.State(), r, v, v + 1)
    ensures pa != 0 ==> Behind(k.State(), r, v, pa)
    ensures pa != 0 <==> && Access(old(k.tables), r, sz, v, false)
                         && (Lookup(old(k.tables), r, v).v || |old(k.free)| >= CostOne(Nodes(old(k.tables), r), v))
    ensures pa != 0 && !Lookup(old(k.tables), r, v).v ==> Lookup(k.tables, r, v).perm.w
    ensures Paged(old(k.tables), |old(k.free)|, k.tables, |k.free|, r, v, pa != 0)
  {
    hide Owned, Lookup, Frame, Keeps, SameMemory, Up, FreeOk, Nodes, CostOne;
    ghost var s := k.State();
    Unchanged(s);
    Refl(s, r, 0, Up(sz));
    Refl(s, r, v, v + 1);
    pa := Walkaddr(k, r, v);
    if pa == 0 {
      ghost var m := k.State();
      assert v * PGSIZE / PGSIZE == v;
      pa := Vmfault(k, r, sz, v * PGSIZE);
      if v * PGSIZE < sz {
        UpAbove(v * PGSIZE, sz);
        Then(s, m, k.State(), r, 0, Up(sz), v, v + 1, 0, Up(sz));
      }
      if pa != 0 {
        UpMono(sz, TOP);
        UpExact(TRAPFRAME);
        FrameRoot(m, k.State(), r, v, v + 1, r);
        UserLeaf(k.State(), r, v);
      }
    }
  }

  /** Pages [a, w) have been made resident, as the copy needs them; all other pages are as they were. */
  ghost predicate Copying(s: Vm, free: nat, s': Vm, free': nat, r: int, sz: nat, a: int, w: int, write: bool) {
    && a <= w && Keeps(s, s', r, a, w) && (forall v :: a <= v < w ==> Access(s.t, r, sz, v, write))
    && Spent(free, Nodes(s.t, r), free', Nodes(s'.t, r), MissingIn(s.t, r, a, w))
  }

  lemma CopyingStart(s: Vm, free: nat, r: int, sz: nat, a: int, write: bool)
    ensures Copying(s, free, s, free, r, sz, a, a, write)
  {
    Refl(s, r, a, a);
    assert MissingIn(s.t, r, a, a) == {};
    SpentNone(free, Nodes(s.t, r));
  }

  lemma MissingMore(t: Tables, r: int, a: int, w: int)
    requires a <= w
    ensures w !in MissingIn(t, r, a, w)
    ensures MissingIn(t, r, a, w + 1) ==
            if Lookup(t, r, w).v then MissingIn(t, r, a, w) else MissingIn(t, r, a, w) + {w}
  {
  }

  /** The next page: the copy can go on exactly if the page may be used and there is memory for it. */
  lemma CopyingNext(s: Vm, free: nat, m: Vm, free1: nat, s': Vm, free': nat, r: int, sz: nat, a: int, w: int,
                    write: bool, ok: bool)
    requires Copying(s, free, m, free1, r, sz, a, w, write) && IsRoot(s.o, r) && Keeps(m, s', r, w, w + 1) && 0 <= a
    requires (forall q :: IsRoot(s.o, q) ==> IsRoot(m.o, q)) && sz <= TOP
    requires Paged(m.t, free1, s'.t, free', r, w, ok)
    requires ok <==> Access(m.t, r, sz, w, write) && (Lookup(m.t, r, w).v || free1 >= CostOne(Nodes(m.t, r), w))
    ensures ok ==> Copying(s, free, s', free', r, sz, a, w + 1, write)
    ensures !ok ==> !CanCopy(s.t, r, sz, free, a, w + 1, write)
  {
    hide Lookup, Nodes, Spent, Cost, CostOne, MissingIn;
    if w >= PAGES {
      assert !Access(s.t, r, sz, w, write) && !Access(m.t, r, sz, w, write);
      return;
    }
    assert KeepAt(s, m, r, a, w, r, w);
    MissingMore(s.t, r, a, w);
    SpentMore(free, Nodes(s.t, r), free1, Nodes(m.t, r), MissingIn(s.t, r, a, w), w);
    var b := w + 1;
    forall q, v ensures KeepAt(s, s', r, a, b, q, v) {
      assert KeepAt(s, m, r, a, w, q, v) && KeepAt(m, s', r, w, b, q, v);
    }
    if !ok && Access(s.t, r, sz, w, write) {
      assert free < Cost(Nodes(s.t, r), MissingIn(s.t, r, a, b));
    }
  }

  lemma CopyingDone(s: Vm, free: nat, s': Vm, free': nat, r: int, sz: nat, a: int, w: int, write: bool)
    requires Copying(s, free, s', free', r, sz, a, w, write)
    ensures CanCopy(s.t, r, sz, free, a, w, write)
  {
  }

  /** A copy that cannot get past page `w` cannot get to the end. */
  lemma CannotGoOn(t: Tables, r: int, sz: nat, free: nat, a: int, w: int, b: int, write: bool)
    requires !CanCopy(t, r, sz, free, a, w, write) && w <= b
    ensures !CanCopy(t, r, sz, free, a, b, write)
  {
    hide Lookup, Cost, Access;
    CostGrows(Nodes(t, r), MissingIn(t, r, a, w), MissingIn(t, r, a, b));
  }

  lemma UpAbove(va: nat, sz: nat)
    requires va < sz
    ensures va / PGSIZE < Up(sz)
  {
  }

  /**
   * The buffer is the flat slice of the program's memory, which does not change. The copy fails exactly
   * if a page of the range may not be read or memory runs out.
   */
  method Copyin(k: Pager, r: int, sz: nat, srcva: nat, len: nat) returns (ok: bool, dst: seq<int>)
    requires k.Valid() && IsRoot(k.owner, r) && sz <= TOP
    modifies k
    ensures k.Valid() && SameMemory(old(k.State()), k.State())
    ensures Frame(old(k.State()), k.State(), r, 0, Up(sz)) && Keeps(old(k.State()), k.State(), r, 0, Up(sz))
    ensures ok ==> dst == Flat(old(k.State()), r, srcva, len)
    ensures ok <==> CanCopy(old(k.tables), r, sz, |old(k.free)|, srcva / PGSIZE, EndPage(srcva, len), false)
  {
    hide Owned, Lookup, Frame, Keeps, SameMemory, Up, Flat, FreeOk, Copying, CanCopy, Access, Paged, Nodes, CostOne;
    ghost var s, free0, a := k.State(), |k.free|, srcva / PGSIZE;
    ghost var w := a;
    Unchanged(s);
    Refl(s, r, 0, Up(sz));
    RootsStay(s, s, r, 0, Up(sz));
    CopyingStart(s, free0, r, sz, a, false);
    dst := [];
    FlatNone(s, r, srcva);
    var va, left := srcva, len;
    while left > 0
      invariant 0 <= left <= len && va == srcva + (len - left) && |dst| == len - left
      invariant k.Valid() && IsRoot(k.owner, r) && SameMemory(s, k.State())
      invariant Frame(s, k.State(), r, 0, Up(sz)) && Keeps(s, k.State(), r, 0, Up(sz))
      invariant dst == Flat(s, r, srcva, len - left)
      invariant a <= w && (if left > 0 then va / PGSIZE == w else w == EndPage(srcva, len))
      invariant Copying(s, free0, k.State(), |k.free|, r, sz, a, w, false)
    {
      var va0 := va / PGSIZE * PGSIZE;
      ghost var m, free1 := k.State(), |k.free|;
      var pa0 := Resident(k, r, sz, va / PGSIZE);
      FrameRoot(m, k.State(), r, 0, Up(sz), r);
      RootsStay(s, m, r, 0, Up(sz));
      SameThen(s, m, k.State());
      Then(s, m, k.State(), r, 0, Up(sz), 0, Up(sz), 0, Up(sz));
      CopyingNext(s, free0, m, free1, k.State(), |k.free|, r, sz, a, w, false, pa0 != 0);
      PagesLeft(srcva, len, va, left);
      if pa0 == 0 {
        CannotGoOn(s.t, r, sz, free0, a, w + 1, EndPage(srcva, len), false);
        return false, dst;
      }
      var n := PGSIZE - (va - va0);
      if n > left {
        n := left;
      }
      var chunk := Page(k.data, pa0)[va - va0..va - va0 + n];
      FlatMore(s, k.State(), r, srcva, len - left, n, pa0);
      dst := dst + chunk;
      left := left - n;
      va := va + n;
      w := w + 1;
    }
    CopyingDone(s, free0, k.State(), |k.free|, r, sz, a, w, false);
    ok := true;
  }

  /** The pages of a copy that has `left` bytes to go at `va`. */
  lemma PagesLeft(start: nat, len: nat, va: nat, left: nat)
    requires 0 < left <= len && va == start + (len - left)
    ensures va / PGSIZE < EndPage(start, len)
    ensures var n := PGSIZE - va % PGSIZE;
            if n >= left then EndPage(start, len) == va / PGSIZE + 1 else (va + n) / PGSIZE == va / PGSIZE + 1
  {
  }

  lemma FlatNone(s: Vm, r: int, va: int)
    ensures Flat(s, r, va, 0) == []
  {
  }

  lemma FlatMore(s: Vm, s': Vm, r: int, va: nat, done: nat, n: nat, pa: int)
    requires SameMemory(s, s') && IsRoot(s.o, r) && Behind(s', r, (va + done) / PGSIZE, pa)
    requires |Page(s'.d, pa)| == PGSIZE && (va + done) % PGSIZE + n <= PGSIZE
    ensures var off := (va + done) % PGSIZE;
            Flat(s, r, va, done + n) == Flat(s, r, va, done) + Page(s'.d, pa)[off..off + n]
  {
    hide Lookup;
    var v, off := (va + done) / PGSIZE, (va + done) % PGSIZE;
    assert SameBytes(s, s', r, v);
    assert Bytes(s, r, v) == Page(s'.d, pa);
    var whole, parts := Flat(s, r, va, done + n), Flat(s, r, va, done) + Page(s'.d, pa)[off..off + n];
    forall j | 0 <= j < done + n
      ensures whole[j] == parts[j]
    {
      if j >= done {
        SamePage(va + done, j - done);
        assert whole[j] == ByteAt(s, r, va + j);
        assert parts[j] == Page(s'.d, pa)[off..off + n][j - done] == Page(s'.d, pa)[off + (j - done)];
      }
    }
  }

  lemma SamePage(va: nat, i: nat)
    requires va % PGSIZE + i < PGSIZE
    ensures (va + i) / PGSIZE == va / PGSIZE && (va + i) % PGSIZE == va % PGSIZE + i
  {
  }

  /** One page of copyout(): the bytes go to the page behind `v`. */
  lemma PatchPage(s: Vm, r: int, va: nat, pa: int, src: seq<int>)
    requires Owned(s.t, s.o) && PagesOk(s.d, s.o) && Behind(s, r, va / PGSIZE, pa) && pa in s.d && |s.d[pa]| == PGSIZE
    requires va % PGSIZE + |src| <= PGSIZE
    ensures var base := va / PGSIZE * PGSIZE;
            var s' := Vm(s.t, s.d[pa := Overlay(s.d[pa], base, va, src)], s.o);
            Patched(s, s', r, va, src) && |s'.d[pa]| == PGSIZE
  {
    hide Lookup, Overlay;
    var base := va / PGSIZE * PGSIZE;
    var s' := Vm(s.t, s.d[pa := Overlay(s.d[pa], base, va, src)], s.o);
    forall q, v
      ensures PatchedAt(s, s', r, va, src, q, v)
    {
      assert LeafAt(s.t, s.o, q, v);
      if IsRoot(s.o, q) && 0 <= v < TRAPFRAME && q == r && v != va / PGSIZE {
        BytesSize(s, r, v);
        OtherPage(s, r, v, va, src);
      }
    }
    OverlaySize(s.d[pa], base, va, src);
  }

  lemma BytesSize(s: Vm, r: int, v: int)
    requires Owned(s.t, s.o) && PagesOk(s.d, s.o) && IsRoot(s.o, r) && 0 <= v < TRAPFRAME
    ensures |Bytes(s, r, v)| == PGSIZE
  {
    hide Lookup;
    assert LeafAt(s.t, s.o, r, v);
  }

  lemma OverlaySize(page: seq<int>, base: int, va: int, src: seq<int>)
    ensures |Overlay(page, base, va, src)| == |page|
  {
  }

  lemma OtherPage(s: Vm, r: int, v: int, va: nat, src: seq<int>)
    requires v != va / PGSIZE && va % PGSIZE + |src| <= PGSIZE
    ensures |Bytes(s, r, v)| <= PGSIZE ==> Overlay(Bytes(s, r, v), v * PGSIZE, va, src) == Bytes(s, r, v)
  {
    hide Bytes, Overlay;
    if |Bytes(s, r, v)| <= PGSIZE {
      OverlayNone(Bytes(s, r, v), v * PGSIZE, va, src);
    }
  }

  lemma SpliceOverlay(page: seq<int>, base: int, off: nat, src: seq<int>)
    requires off + |src| <= |page|
    ensures page[..off] + src + page[off + |src|..] == Overlay(page, base, base + off, src)
  {
  }

  /** Only pages of this program are written, and only pages below its size are mapped. */
  ghost predicate Touches(s: Vm, s': Vm, r: int, n: int) {
    Frame(s, s', r, 0, TRAPFRAME) && Keeps(s, s', r, 0, n)
  }

  lemma TouchesThen(s0: Vm, s1: Vm, s2: Vm, r: int, n: int)
    requires Touches(s0, s1, r, n) && Touches(s1, s2, r, n)
    ensures Touches(s0, s2, r, n)
  {
    hide Lookup;
    forall p
      ensures FrameAt(s0, s2, r, 0, TRAPFRAME, p)
    {
      assert FrameAt(s0, s1, r, 0, TRAPFRAME, p) && FrameAt(s1, s2, r, 0, TRAPFRAME, p);
    }
    forall q, v
      ensures KeepAt(s0, s2, r, 0, n, q, v)
    {
      assert KeepAt(s0, s1, r, 0, n, q, v) && KeepAt(s1, s2, r, 0, n, q, v);
      FrameRoot(s0, s1, r, 0, TRAPFRAME, q);
    }
  }

  lemma ResidentTouches(s: Vm, s': Vm, r: int, n: int)
    requires Frame(s, s', r, 0, n) && Keeps(s, s', r, 0, n) && n <= TRAPFRAME
    ensures Touches(s, s', r, n)
  {
    forall p
      ensures FrameAt(s, s', r, 0, TRAPFRAME, p)
    {
      assert FrameAt(s, s', r, 0, n, p);
    }
  }

  lemma WriteTouches(s: Vm, r: int, v: int, pa: int, page: seq<int>, n: int)
    requires Behind(s, r, v, pa)
    ensures Touches(s, Vm(s.t, s.d[pa := page], s.o), r, n)
  {
    var s' := Vm(s.t, s.d[pa := page], s.o);
    forall p ensures FrameAt(s, s', r, 0, TRAPFRAME, p) { }
    forall q, w ensures KeepAt(s, s', r, 0, n, q, w) { }
  }

  lemma KeepsData(s: Vm, d: Pages, r: int, a: int, b: int)
    ensures Keeps(s, s.(d := d), r, a, b)
  {
    forall q, v ensures KeepAt(s, s.(d := d), r, a, b, q, v) { }
  }

  lemma KeepsThen(s0: Vm, s1: Vm, s2: Vm, r: int, a: int, b: int)
    requires Keeps(s0, s1, r, a, b) && Keeps(s1, s2, r, a, b) && forall q :: IsRoot(s0.o, q) ==> IsRoot(s1.o, q)
    ensures Keeps(s0, s2, r, a, b)
  {
    hide Lookup;
    forall q, v ensures KeepAt(s0, s2, r, a, b, q, v) {
      assert KeepAt(s0, s1, r, a, b, q, v) && KeepAt(s1, s2, r, a, b, q, v);
    }
  }

  /** One page's worth: the bytes that fit are written, or none of them. */
  method CopyoutPage(k: Pager, r: int, sz: nat, va: nat, src: seq<int>) returns (n: nat)
    requires k.Valid() && IsRoot(k.owner, r) && sz <= TOP && |src| > 0
    modifies k
    ensures k.Valid() && n <= |src| && Touches(old(k.State()), k.State(), r, Up(sz))
    ensures Patched(old(k.State()), k.State(), r, va, src[..n])
    ensures n == 0 || n == (if PGSIZE - va % PGSIZE > |src| then |src| else PGSIZE - va % PGSIZE)
    ensures Keeps(old(k.State()), k.State(), r, va / PGSIZE, va / PGSIZE + 1)
    ensures var v, t := va / PGSIZE, old(k.tables);
            && (n != 0 <==> && Access(t, r, sz, v, true)
                            && (Lookup(t, r, v).v || |old(k.free)| >= CostOne(Nodes(t, r), v)))
            && Paged(t, |old(k.free)|, k.tables, |k.free|, r, v, n != 0)
  {
    hide Owned, Frame, Keeps, SameMemory, Up, FreeOk, Patched, Overlay, Touches, Nodes, CostOne, Lookup;
    ghost var s := k.State();
    UpMono(sz, TOP);
    UpExact(TRAPFRAME);
    var va0 := va / PGSIZE * PGSIZE;
    var pa0 := Resident(k, r, sz, va / PGSIZE);
    ghost var m := k.State();
    ResidentTouches(s, m, r, Up(sz));
    PatchedNothing(s, m, r, va);
    RootsStay(s, m, r, 0, Up(sz));
    if pa0 == 0 {
      return 0;
    }
    var pte := Lookup(k.tables, r, va / PGSIZE);
    if !pte.perm.w {
      return 0;
    }
    n := PGSIZE - (va - va0);
    if n > |src| {
      n := |src|;
    }
    var off := va - va0;
    var page := k.data[pa0];
    SpliceOverlay(page, va0, off, src[..n]);
    PatchPage(m, r, va, pa0, src[..n]);
    WriteTouches(m, r, va / PGSIZE, pa0, page[..off] + src[..n] + page[off + n..], Up(sz));
    k.data := k.data[pa0 := page[..off] + src[..n] + page[off + n..]];
    KeepsData(m, k.data, r, va / PGSIZE, va / PGSIZE + 1);
    KeepsThen(s, m, k.State(), r, va / PGSIZE, va / PGSIZE + 1);
    PatchedThen(s, m, k.State(), r, va, [], src[..n]);
    TouchesThen(s, m, k.State(), r, Up(sz));
    assert [] + src[..n] == src[..n];
  }

  /**
   * On success the program's memory has all of `src` at `dstva`; on failure a prefix of it. The copy fails
   * exactly if a page of the range may not be written or memory runs out.
   */
  method Copyout(k: Pager, r: int, sz: nat, dstva: nat, src: seq<int>) returns (ok: bool, ghost done: nat)
    requires k.Valid() && IsRoot(k.owner, r) && sz <= TOP
    modifies k
    ensures k.Valid() && Touches(old(k.State()), k.State(), r, Up(sz))
    ensures done <= |src| && (ok <==> done == |src|)
    ensures Patched(old(k.State()), k.State(), r, dstva, src[..done])
    ensures ok <==> CanCopy(old(k.tables), r, sz, |old(k.free)|, dstva / PGSIZE, EndPage(dstva, |src|), true)
  {
    hide Owned, Lookup, Up, Patched, Touches, SameMemory, FreeOk, Keeps, Copying, CanCopy, Access, Paged, Nodes,
         CostOne;
    ghost var s, free0, a := k.State(), |k.free|, dstva / PGSIZE;
    ghost var w := a;
    Unchanged(s);
    Refl(s, r, 0, 0);
    TouchesNone(s, r, Up(sz));
    PatchedNothing(s, s, r, dstva);
    CopyingStart(s, free0, r, sz, a, true);
    var va, rest := dstva, src;
    done := 0;
    while |rest| > 0
      invariant done + |rest| == |src| && rest == src[done..] && va == dstva + done
      invariant k.Valid() && IsRoot(k.owner, r) && Touches(s, k.State(), r, Up(sz))
      invariant Patched(s, k.State(), r, dstva, src[..done])
      invariant a <= w && (if |rest| > 0 then va / PGSIZE == w else w == EndPage(dstva, |src|))
      invariant Copying(s, free0, k.State(), |k.free|, r, sz, a, w, true)
    {
      ghost var m, free1 := k.State(), |k.free|;
      var n := CopyoutPage(k, r, sz, va, rest);
      TouchesRoots(s, m, r, Up(sz));
      TouchesRoots(m, k.State(), r, Up(sz));
      TouchesThen(s, m, k.State(), r, Up(sz));
      PatchedThen(s, m, k.State(), r, dstva, src[..done], rest[..n]);
      CopyingNext(s, free0, m, free1, k.State(), |k.free|, r, sz, a, w, true, n != 0);
      PagesLeft(dstva, |src|, va, |rest|);
      assert src[..done] + rest[..n] == src[..done + n];
      done := done + n;
      rest := rest[n..];
      va := va + n;
      if n == 0 {
        CannotGoOn(s.t, r, sz, free0, a, w + 1, EndPage(dstva, |src|), true);
        return false, done;
      }
      w := w + 1;
    }
    CopyingDone(s, free0, k.State(), |k.free|, r, sz, a, w, true);
    ok := true;
  }

  lemma TouchesNone(s: Vm, r: int, n: int)
    ensures Touches(s, s, r, n)
  {
    Refl(s, r, 0, TRAPFRAME);
    Refl(s, r, 0, n);
  }

  lemma TouchesRoots(s: Vm, s': Vm, r: int, n: int)
    requires Touches(s, s', r, n)
    ensures forall q :: IsRoot(s.o, q) ==> IsRoot(s'.o, q)
  {
    RootsStay(s, s', r, 0, TRAPFRAME);
  }
}
