/** user/umalloc.c: the allocator of Kernighan and Ritchie, section 8.7. */
module Umalloc {
  import opened Base
  import opened FreeList
  import opened Ring

  const HEADER := 8
  const WORD := 0x1_0000_0000

  /** Units that malloc takes for a request: the sum is a 32-bit unsigned one. */
  function Need(nbytes: nat): (n: nat)
    ensures 1 <= n <= WORD / HEADER
  {
    (nbytes + HEADER - 1) % WORD / HEADER + 1
  }

  /** A block holds its header and the bytes asked for, unless the rounding wraps round. */
  lemma NeedSuffices(nbytes: nat)
    requires nbytes < WORD
    ensures nbytes <= (Need(nbytes) - 1) * HEADER <==> nbytes <= WORD - HEADER
    ensures nbytes <= WORD - HEADER ==> (Need(nbytes) - 1) * HEADER < nbytes + HEADER
  {
  }

  function Core(n: nat): nat {
    if n < 4096 then 4096 else n
  }

  /** The number sbrk receives as a signed word is the number of bytes wanted. */
  lemma CoreFits(n: nat)
    requires n <= WORD / HEADER
    ensures (var w := Core(n) * HEADER % WORD; w == Core(n) * HEADER && w < WORD / 2) <==> n < WORD / 2 / HEADER
  {
  }

  ghost predicate Fits(h: Heap, n: int) {
    exists i :: 0 <= i < |h.ring| && Len(h, h.ring[i]) >= n
  }

  /** The block at the `i`th header, or the one after it, has `n` units or more. */
  ghost predicate Near(h: Heap, i: int, n: int) {
    && 0 <= i < |h.ring|
    && (Len(h, h.ring[i]) >= n || Len(h, h.ring[After(i, |h.ring|)]) >= n)
  }

  /** Steps round a list of `n` headers from the `j`th to the `k`th. */
  function Steps(j: int, k: int, n: int): int {
    if j <= k then k - j else k - j + n
  }

  lemma {:induction false} SomePlace(ring: seq<int>, b: int) returns (k: nat)
    requires |ring| > 0 && Sorted(ring) && ring[0] < b && b !in ring
    ensures Place(ring, k, b)
  {
    k := |ring| - 1;
    while b < ring[k]
      invariant 0 <= k < |ring|
      invariant k + 1 < |ring| ==> b < ring[k + 1]
    {
      k := k - 1;
    }
  }

  /** The two tests of the search in free() succeed together exactly at the place of `b`. */
  lemma PlaceTest(ring: seq<int>, j: int, b: int)
    requires Sorted(ring) && 0 <= j < |ring| && ring[0] < b && b !in ring
    ensures var p, q := ring[j], ring[After(j, |ring|)];
            (p < b < q || (p >= q && (b > p || b < q))) <==> Place(ring, j, b)
  {
  }

  /** The place of `b` is behind the highest header below it. */
  lemma Highest(ring: seq<int>, k: int, b: int)
    requires Sorted(ring) && Place(ring, k, b)
    ensures forall q :: q in ring && q < b ==> q <= ring[k]
  {
  }

  /** The unit behind the block at the `j`th header. */
  ghost function BlockEnd(h: Heap, j: int): int
    requires 0 <= j < |h.ring|
  {
    h.ring[j] + Len(h, h.ring[j])
  }

  /** The blocks passed since the search left the `k`th header are all too small. */
  ghost predicate Passed(h: Heap, k: int, j: int, n: int) {
    forall i :: 0 <= i < |h.ring| && Steps(i, k, |h.ring|) > Steps(j, k, |h.ring|) ==> Len(h, h.ring[i]) < n
  }

  /** The first block large enough, going round from behind the `k`th header. */
  ghost predicate FirstFit(h: Heap, k: int, j: int, n: int) {
    0 <= j < |h.ring| && Len(h, h.ring[j]) >= n && Passed(h, k, j, n)
  }

  lemma PassedAll(h: Heap, k: int, n: int)
    requires 0 <= k < |h.ring| && Passed(h, k, k, n) && Len(h, h.ring[k]) < n
    ensures !Fits(h, n)
  {
  }

  /** Where a search for `n` units stands in a heap with the cursor before the `j`th header. */
  ghost predicate Search(h: Heap, start: Heap, at: int, j: int, n: int, grown: bool, goal: int) {
    && 0 <= at < |h.ring| && 0 <= j < |h.ring| && 0 <= goal < |h.ring|
    && (!grown ==> h == start && goal == at && Passed(h, at, j, n))
    && (grown ==> !Fits(start, n) && Len(h, h.ring[goal]) >= n && (goal == at || goal == j))
  }

  lemma SearchMoves(h: Heap, start: Heap, at: int, j: int, n: int, grown: bool, goal: int)
    requires Search(h, start, at, j, n, grown, goal) && Len(h, h.ring[j]) < n && j != at
    ensures Search(h, start, at, After(j, |h.ring|), n, grown, goal)
    ensures 0 <= Steps(After(j, |h.ring|), goal, |h.ring|) < Steps(j, goal, |h.ring|)
  {
  }

  lemma SearchFails(h: Heap, start: Heap, at: int, n: int, grown: bool, goal: int)
    requires Search(h, start, at, at, n, grown, goal) && Len(h, h.ring[at]) < n
    ensures !grown && h == start && !Fits(start, n)
  {
    if !grown {
      PassedAll(h, at, n);
    }
  }

  ghost function Goal(h: Heap, at: int, n: int): int {
    if 0 <= at < |h.ring| && Len(h, h.ring[at]) >= n then at else After(at, |h.ring|)
  }

  lemma SearchStarts(h: Heap, at: int, n: int)
    requires 0 <= at < |h.ring|
    ensures Search(h, h, at, After(at, |h.ring|), n, false, at)
  {
  }

  lemma SearchResumes(h: Heap, start: Heap, at: int, n: int)
    requires Near(h, at, n) && !Fits(start, n)
    ensures Search(h, start, at, After(at, |h.ring|), n, true, Goal(h, at, n))
  {
  }

  /** The search stands at the `j`th header and `prevp` is the header before it. */
  ghost predicate Cursor(h: Heap, ptr: map<int, int>, size: map<int, int>, prevp: int, p: int, j: int) {
    && 0 <= j < |h.ring| && p == h.ring[j]
    && p in ptr && p in size && size[p] == Len(h, p)
    && (size[p] > 0 ==> 0 < j && prevp == h.ring[j - 1])
  }

  lemma HeaderAt(h: Heap, base: int, ptr: map<int, int>, size: map<int, int>, i: int)
    requires Shaped(h, base) && Linked(h, base, ptr, size) && 0 <= i < |h.ring|
    ensures h.ring[i] in ptr && Cursor(h, ptr, size, h.ring[i], ptr[h.ring[i]], After(i, |h.ring|))
  {
    hide Partition, Sorted, Chained;
    ChainedAt(h.ring, ptr, i);
    ChainedAt(h.ring, ptr, After(i, |h.ring|));
  }

  lemma Distinct(h: Heap, base: int, i: int, j: int)
    requires Shaped(h, base) && 0 <= i < |h.ring| && 0 <= j < |h.ring| && h.ring[i] == h.ring[j]
    ensures i == j
  {
  }

  /** A header on the list with units to give is a free block, not a live one. */
  lemma FreeBlock(h: Heap, base: int, j: int)
    requires Shaped(h, base) && 0 <= j < |h.ring|
    ensures h.ring[j] !in Held(h) && base <= h.ring[j]
    ensures forall c :: c !in h.blocks ==> c !in Held(h)
  {
  }

  lemma Here(h: Heap, start: Heap, at: int, j: int, n: int, grown: bool, goal: int)
    requires Search(h, start, at, j, n, grown, goal)
    ensures 0 <= Steps(j, goal, |h.ring|)
    ensures !grown && Len(h, h.ring[j]) >= n ==> Fits(start, n) && FirstFit(start, at, j, n)
    ensures grown ==> !Fits(start, n)
  {
  }

  lemma StartLinked(base: int, ptr: map<int, int>, size: map<int, int>)
    ensures Linked(Heap([base], map[], map[]), base, ptr[base := base], size[base := 0])
  {
    assert LinkAt([base], ptr[base := base], 0);
  }

  lemma HeldLive(h: Heap, b: int)
    requires b in Held(h)
    ensures b in Live(h)
  {
  }

  lemma HeldBack(held: map<int, int>, b: int, n: int)
    requires b !in held
    ensures held[b := n] - {b} == held
  {
  }

  class Allocator {
    const base: int
    var ptr: map<int, int>
    var size: map<int, int>
    var freep: int
    ghost var heap: Heap
    ghost var at: int

    /** A sorted, coalesced circular list with `freep` on it, once the first malloc has made it. */
    ghost predicate Valid()
      reads this
    {
      && base > 0
      && Shaped(heap, base) && Spaced(heap)
      && (freep == 0 ==> heap == Heap([base], map[], map[]))
      && (freep != 0 ==> Linked(heap, base, ptr, size) && 0 <= at < |heap.ring| && heap.ring[at] == freep)
    }

    constructor (address: int)
      requires address > 0
      ensures Valid() && base == address && Held(heap) == map[] && heap == Heap([address], map[], map[])
    {
      base := address;
      ptr, size, freep := map[], map[], 0;
      heap, at := Heap([address], map[], map[]), 0;
      new;
      assert Apart(heap, 0);
    }

    /** The search of free(): it ends at the header after which the block belongs. */
    method FindPlace(bp: int) returns (p: int, ghost k: int)
      requires Valid() && freep != 0 && bp in Live(heap)
      ensures Place(heap.ring, k, bp) && p == heap.ring[k]
      ensures p in heap.ring && p < bp && forall q :: q in heap.ring && q < bp ==> q <= p
    {
      hide Partition, Spaced, Chained;
      ghost var ring := heap.ring;
      ghost var goal := SomePlace(ring, bp);
      p, k := freep, at;
      ChainedAt(ring, ptr, k);
      while !(bp > p && bp < ptr[p])
        invariant 0 <= k < |ring| && p == ring[k] && p in ptr && ptr[p] == ring[After(k, |ring|)]
        decreases Steps(k, goal, |ring|)
      {
        PlaceTest(ring, k, bp);
        PlaceTest(ring, goal, bp);
        if p >= ptr[p] && (bp > p || bp < ptr[p]) {
          break;
        }
        p := ptr[p];
        k := After(k, |ring|);
        ChainedAt(ring, ptr, k);
      }
      PlaceTest(ring, k, bp);
      Highest(ring, k, bp);
    }

    /** Gives up one live block and nothing else; it lies in the block at or just after the new `freep`. */
    method Free(ap: int)
      requires Valid() && freep != 0 && ap - 1 in Live(heap)
      modifies this
      ensures Valid() && freep != 0
      ensures Held(heap) == Held(old(heap)) - {ap - 1}
      ensures heap.owner.Keys == old(heap.owner.Keys)
      ensures Near(heap, at, old(heap.blocks[ap - 1]))
    {
      hide Shaped, Spaced, Linked, Held, Live, Len, Join, Insert, Touching;
      var bp := ap - 1;
      var p, k := FindPlace(bp);
      ghost var h := heap;
      FreedShaped(h, base, k, bp);
      FreedBlock(h, base, k, bp);
      JoinUpLinked(h, base, k, bp, ptr, size);
      InsertShaped(h, base, k, bp);
      InsertAround(h, k, bp);
      ghost var h1 := JoinIf(Insert(h, k, bp), k + 1);
      JoinIfShaped(Insert(h, k, bp), base, k + 1);
      JoinIfAround(h, base, k, bp);
      if bp + size[bp] == ptr[p] {
        size := size[bp := size[bp] + size[ptr[p]]];
        ptr := ptr[bp := ptr[ptr[p]]];
      } else {
        ptr := ptr[bp := ptr[p]];
      }
      JoinDownLinked(h1, base, k, ptr, size);
      if p + size[p] == bp {
        size := size[p := size[p] + size[bp]];
        ptr := ptr[p := ptr[bp]];
      } else {
        ptr := ptr[p := bp];
      }
      freep := p;
      heap, at := Freed(h, k, bp), k;
      AboveBase(h, base, k);
    }

    /** Fresh memory from sbrk, given to free(); nothing changes if sbrk refuses. */
    method MoreCore(nu: nat, brk: Option<int>) returns (p: int)
      requires Valid() && freep != 0
      requires brk.Some? ==> base < brk.value && Units(brk.value, Core(nu)) !! heap.owner.Keys
      modifies this
      ensures Valid() && freep != 0 && Held(heap) == Held(old(heap))
      ensures brk.None? ==> p == 0 && heap == old(heap) && freep == old(freep) && at == old(at)
      ensures brk.Some? ==>
                && p == freep && heap.owner.Keys == old(heap.owner.Keys) + Units(brk.value, Core(nu))
                && Near(heap, at, nu)
    {
      hide Shaped, Spaced, Chained, Units, Held;
      var n := if nu < 4096 then 4096 else nu;
      if brk.None? {
        return 0;
      }
      var hp := brk.value;
      GrowShaped(heap, base, hp, n);
      GrowLive(heap, base, hp, n);
      size := size[hp := n];
      heap := Grow(heap, hp, n);
      Free(hp + 1);
      p := freep;
    }

    /** The exact fit: the block leaves the list. */
    method Unlink(prevp: int, p: int, ghost i: int)
      requires Valid() && freep != 0
      requires 0 <= i < |heap.ring| - 1 && prevp == heap.ring[i] && p == heap.ring[i + 1]
      modifies this
      ensures Valid() && freep != 0 && heap.owner == old(heap.owner)
      ensures Held(heap) == Held(old(heap))[p := old(Len(heap, p))]
    {
      hide Shaped, Spaced, Held, Chained, Drop;
      RemoveKeeps(heap, base, i + 1);
      RemoveLinked(heap, base, i, ptr, size);
      AboveBase(heap, base, i);
      ptr := ptr[prevp := ptr[p]];
      heap := Remove(heap, i + 1);
      freep, at := prevp, i;
    }

    /** The larger block: its last `n` units are handed out. */
    method Tail(prevp: int, p: int, n: nat, ghost i: int) returns (c: int)
      requires Valid() && freep != 0
      requires 0 <= i < |heap.ring| - 1 && prevp == heap.ring[i] && p == heap.ring[i + 1]
      requires 0 < n < Len(heap, p)
      modifies this
      ensures Valid() && freep != 0 && heap.owner.Keys == old(heap.owner.Keys)
      ensures c !in old(heap.blocks) && c > base && Held(heap) == Held(old(heap))[c := n]
      ensures c == p + old(Len(heap, p)) - n
    {
      hide Shaped, Spaced, Held, Chained, Cut;
      CutShaped(heap, base, i + 1, n);
      CutLinked(heap, base, i + 1, n, ptr, size);
      CutRing(heap, base, i + 1, n);
      AboveBase(heap, base, i);
      size := size[p := size[p] - n];
      c := p + size[p];
      size := size[c := n];
      heap := Cut(heap, p, n);
      freep, at := prevp, i;
    }

    method Prepare()
      requires Valid()
      modifies `ptr, `size, `freep, `at
      ensures Valid() && freep != 0 && 0 <= at < |heap.ring| && heap.ring[at] == freep
      ensures old(freep) != 0 ==> freep == old(freep) && at == old(at)
    {
      hide Shaped, Spaced, Linked;
      if freep == 0 {
        StartLinked(base, ptr, size);
        ptr := ptr[base := base];
        freep := base;
        size := size[base := 0];
        at := 0;
      }
    }

    /**
     * First fit from `freep`, with memory from sbrk only when no free block is large enough, and
     * then at most once. `brk` is what sbrk would answer.
     */
    method Malloc(nbytes: nat, brk: Option<int>) returns (r: int)
      requires Valid() && nbytes < WORD && Need(nbytes) < WORD / 2 / HEADER
      requires brk.Some? ==> base < brk.value && Units(brk.value, Core(Need(nbytes))) !! heap.owner.Keys
      modifies this
      ensures Valid() && freep != 0
      ensures r == 0 <==> !Fits(old(heap), Need(nbytes)) && brk.None?
      ensures r == 0 ==> heap == old(heap)
      ensures r != 0 ==> r - 1 !in Held(old(heap)) && Held(heap) == Held(old(heap))[r - 1 := Need(nbytes)]
      ensures Fits(old(heap), Need(nbytes)) && old(freep) != 0 ==>
                exists j :: && FirstFit(old(heap), old(at), j, Need(nbytes))
                            && r - 1 == BlockEnd(old(heap), j) - Need(nbytes)
      ensures heap.owner.Keys == if Fits(old(heap), Need(nbytes)) || brk.None? then old(heap.owner.Keys)
                                 else old(heap.owner.Keys) + Units(brk.value, Core(Need(nbytes)))
    {
      hide Shaped, Spaced, Linked, Held, Len, Need, Search, Near, Goal, Units, FirstFit, Passed;
      var n := Need(nbytes);
      Prepare();
      var prevp := freep;
      ghost var j, grown, goal := After(at, |heap.ring|), false, at;
      SearchStarts(heap, at, n);
      HeaderAt(heap, base, ptr, size, at);
      var p := ptr[prevp];
      while true
        invariant Valid() && freep != 0 && Held(heap) == Held(old(heap))
        invariant Search(heap, old(heap), at, j, n, grown, goal)
        invariant Cursor(heap, ptr, size, prevp, p, j)
        invariant grown ==> brk.Some? && heap.owner.Keys == old(heap.owner.Keys) + Units(brk.value, Core(n))
        invariant !grown ==> heap == old(heap) && (old(freep) != 0 ==> at == old(at))
        decreases !grown, Steps(j, goal, |heap.ring|)
      {
        Here(heap, old(heap), at, j, n, grown, goal);
        FreeBlock(heap, base, j);
        if size[p] >= n {
          ghost var end := p + Len(heap, p);
          if size[p] == n {
            Unlink(prevp, p, j - 1);
          } else {
            p := Tail(prevp, p, n, j - 1);
          }
          assert p == end - n;
          assert !grown && old(freep) != 0 ==> FirstFit(old(heap), old(at), j, n) && p == BlockEnd(old(heap), j) - n;
          return p + 1;
        }
        if p == freep {
          Distinct(heap, base, j, at);
          SearchFails(heap, old(heap), at, n, grown, goal);
          p := MoreCore(n, brk);
          if p == 0 {
            return 0;
          }
          SearchResumes(heap, old(heap), at, n);
          grown, goal, j := true, Goal(heap, at, n), at;
        } else {
          SearchMoves(heap, old(heap), at, j, n, grown, goal);
        }
        HeaderAt(heap, base, ptr, size, j);
        prevp := p;
        p := ptr[p];
        j := After(j, |heap.ring|);
      }
    }

    /** Allocating and freeing again leaves the very same free list, unless memory had to be obtained. */
    method MallocThenFree(nbytes: nat, brk: Option<int>)
      requires Valid() && nbytes < WORD && Need(nbytes) < WORD / 2 / HEADER
      requires brk.Some? ==> base < brk.value && Units(brk.value, Core(Need(nbytes))) !! heap.owner.Keys
      modifies this
      ensures Valid()
      ensures Fits(old(heap), Need(nbytes)) ==> heap.ring == old(heap.ring) && heap.blocks == old(heap.blocks)
    {
      hide Shaped, Spaced, Linked, Held, Fits, Need, Live, Units;
      var r := Malloc(nbytes, brk);
      if r != 0 {
        HeldLive(heap, r - 1);
        Free(r);
        HeldBack(Held(old(heap)), r - 1, Need(nbytes));
        if Fits(old(heap), Need(nbytes)) {
          Canonical(old(heap), heap, base);
        }
      }
    }
  }
}
