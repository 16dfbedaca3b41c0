/** The memory that page tables give to user programs, and what an operation on one table may touch. */
module VmState {
  import opened PageTable

  const PGSIZE := 4096

  /** The contents of the physical pages. */
  type Pages = map<int, seq<int>>

  datatype Vm = Vm(t: Tables, d: Pages, o: map<int, Use>)

  function Page(d: Pages, p: int): seq<int> {
    if p in d then d[p] else []
  }

  function Range(a: int, b: int): (r: set<int>)
    ensures forall p :: p in r <==> a <= p < b
    ensures |r| == if a <= b then b - a else 0
    decreases b - a
  {
    if a >= b then {} else Range(a, b - 1) + {b - 1}
  }

  function Zeros(): seq<int> {
    seq(PGSIZE, _ => 0)
  }

  /** User memory, one page at a time; a page that is not mapped yet reads as zeros. */
  function Bytes(s: Vm, r: int, v: int): seq<int> {
    if Lookup(s.t, r, v).v then Page(s.d, Lookup(s.t, r, v).ppn) else Zeros()
  }

  /** Uses that an operation on pages [a, b) of table `r` may take and give back. */
  ghost predicate Mine(u: Use, r: int, a: int, b: int) {
    u.Free? || (u.Node? && u.root == r) || (u.Leaf? && u.root == r && a <= u.vpn < b)
  }

  ghost predicate FrameAt(s: Vm, s': Vm, r: int, a: int, b: int, p: int) {
    || (Mine(UseOf(s.o, p), r, a, b) && Mine(UseOf(s'.o, p), r, a, b))
    || (UseOf(s.o, p) == UseOf(s'.o, p) && Page(s.d, p) == Page(s'.d, p))
  }

  /** Every other page keeps its use and its contents. */
  ghost predicate Frame(s: Vm, s': Vm, r: int, a: int, b: int) {
    forall p :: FrameAt(s, s', r, a, b, p)
  }

  ghost predicate KeepAt(s: Vm, s': Vm, r: int, a: int, b: int, q: int, v: int) {
    IsRoot(s.o, q) && 0 <= v < PAGES && !(q == r && a <= v < b) ==> Lookup(s'.t, q, v) == Lookup(s.t, q, v)
  }

  /** Every other mapping of every table stays. */
  ghost predicate Keeps(s: Vm, s': Vm, r: int, a: int, b: int) {
    forall q, v :: KeepAt(s, s', r, a, b, q, v)
  }

  lemma FrameRoot(s: Vm, s': Vm, r: int, a: int, b: int, q: int)
    requires Frame(s, s', r, a, b)
    ensures IsRoot(s.o, q) <==> IsRoot(s'.o, q)
    ensures UseOf(s.o, q) == Held <==> UseOf(s'.o, q) == Held
  {
    assert FrameAt(s, s', r, a, b, q);
  }

  lemma Refl(s: Vm, r: int, a: int, b: int)
    ensures Frame(s, s, r, a, b) && Keeps(s, s, r, a, b)
  {
    forall p ensures FrameAt(s, s, r, a, b, p) { }
    forall q, v ensures KeepAt(s, s, r, a, b, q, v) { }
  }

  /** Changes compose, and a change to fewer pages is a change to more. */
  lemma Then(s0: Vm, s1: Vm, s2: Vm, r: int, a: int, b: int, c: int, d: int, lo: int, hi: int)
    requires Frame(s0, s1, r, a, b) && Keeps(s0, s1, r, a, b)
    requires Frame(s1, s2, r, c, d) && Keeps(s1, s2, r, c, d)
    requires (b <= a || (lo <= a && b <= hi)) && (d <= c || (lo <= c && d <= hi))
    ensures Frame(s0, s2, r, lo, hi) && Keeps(s0, s2, r, lo, hi)
  {
    forall p
      ensures FrameAt(s0, s2, r, lo, hi, p)
    {
      assert FrameAt(s0, s1, r, a, b, p) && FrameAt(s1, s2, r, c, d, p);
    }
    hide Lookup;
    forall q, v
      ensures KeepAt(s0, s2, r, lo, hi, q, v)
    {
      assert KeepAt(s0, s1, r, a, b, q, v) && KeepAt(s1, s2, r, c, d, q, v);
      FrameRoot(s0, s1, r, a, b, q);
    }
  }

  /** Memory outside the pages worked on is untouched, in this program and in every other one. */
  lemma KeepsBytes(s: Vm, s': Vm, r: int, a: int, b: int, q: int, v: int)
    requires Owned(s.t, s.o) && Frame(s, s', r, a, b) && Keeps(s, s', r, a, b)
    requires IsRoot(s.o, q) && 0 <= v < TRAPFRAME && !(q == r && a <= v < b)
    ensures Bytes(s', q, v) == Bytes(s, q, v)
  {
    hide Lookup;
    assert KeepAt(s, s', r, a, b, q, v) && LeafAt(s.t, s.o, q, v);
    assert FrameAt(s, s', r, a, b, Lookup(s.t, q, v).ppn);
  }

  ghost predicate SameBytes(s: Vm, s': Vm, q: int, v: int) {
    IsRoot(s.o, q) && 0 <= v < TRAPFRAME ==> Bytes(s', q, v) == Bytes(s, q, v)
  }

  /** No program can tell the two states apart by reading its memory. */
  ghost predicate SameMemory(s: Vm, s': Vm) {
    forall q, v :: SameBytes(s, s', q, v)
  }

  lemma MemoryStays(s: Vm, s': Vm, r: int, a: int, b: int)
    requires Owned(s.t, s.o) && Frame(s, s', r, a, b) && Keeps(s, s', r, a, b)
    requires forall v :: a <= v < b ==> SameBytes(s, s', r, v)
    ensures SameMemory(s, s')
  {
    hide Bytes;
    forall q, v
      ensures SameBytes(s, s', q, v)
    {
      if IsRoot(s.o, q) && 0 <= v < TRAPFRAME && !(q == r && a <= v < b) {
        KeepsBytes(s, s', r, a, b, q, v);
      }
    }
  }

  lemma SameThen(s0: Vm, s1: Vm, s2: Vm)
    requires SameMemory(s0, s1) && SameMemory(s1, s2) && forall q :: IsRoot(s0.o, q) ==> IsRoot(s1.o, q)
    ensures SameMemory(s0, s2)
  {
    hide Bytes;
    forall q, v
      ensures SameBytes(s0, s2, q, v)
    {
      assert SameBytes(s0, s1, q, v) && SameBytes(s1, s2, q, v);
    }
  }

  lemma RootsStay(s: Vm, s': Vm, r: int, a: int, b: int)
    requires Frame(s, s', r, a, b)
    ensures forall q :: IsRoot(s.o, q) ==> IsRoot(s'.o, q)
  {
    forall q ensures IsRoot(s.o, q) ==> IsRoot(s'.o, q) { FrameRoot(s, s', r, a, b, q); }
  }

  /** No table but `r`, no page but those of `r`, and no mapping of the kernel's pages changes. */
  ghost predicate Only(s: Vm, s': Vm, r: int) {
    Frame(s, s', r, 0, TRAPFRAME) && Keeps(s, s', r, 0, TRAPFRAME)
  }

  lemma OnlyOf(s: Vm, s': Vm, r: int, a: int, b: int, c: int)
    requires Frame(s, s', r, a, b) && Keeps(s, s', r, a, c) && 0 <= a && b <= TRAPFRAME && c <= TRAPFRAME
    ensures Only(s, s', r)
  {
    forall p
      ensures FrameAt(s, s', r, 0, TRAPFRAME, p)
    {
      assert FrameAt(s, s', r, a, b, p);
    }
    hide Lookup;
    forall q, v
      ensures KeepAt(s, s', r, 0, TRAPFRAME, q, v)
    {
      assert KeepAt(s, s', r, a, c, q, v);
    }
  }

  lemma OnlyThen(s0: Vm, s1: Vm, s2: Vm, r: int)
    requires Only(s0, s1, r) && Only(s1, s2, r)
    ensures Only(s0, s2, r)
  {
    Then(s0, s1, s2, r, 0, TRAPFRAME, 0, TRAPFRAME, 0, TRAPFRAME);
  }

  lemma OnlyNone(s: Vm, r: int)
    ensures Only(s, s, r)
  {
    Refl(s, r, 0, TRAPFRAME);
  }

  lemma OnlyRoots(s: Vm, s': Vm, r: int)
    requires Only(s, s', r)
    ensures forall q :: IsRoot(s.o, q) ==> IsRoot(s'.o, q)
  {
    RootsStay(s, s', r, 0, TRAPFRAME);
  }

  lemma OnlyWide(s: Vm, s': Vm, r: int)
    requires Only(s, s', r)
    ensures Frame(s, s', r, 0, PAGES) && Keeps(s, s', r, 0, PAGES)
  {
    forall p ensures FrameAt(s, s', r, 0, PAGES, p) { assert FrameAt(s, s', r, 0, TRAPFRAME, p); }
    hide Lookup;
    forall q, v ensures KeepAt(s, s', r, 0, PAGES, q, v) { assert KeepAt(s, s', r, 0, TRAPFRAME, q, v); }
  }
}
