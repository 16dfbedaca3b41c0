/** Programs that call malloc and free in any order. */
module MallocRuns {
  import opened Base
  import opened FreeList
  import opened Umalloc

  /** malloc(nbytes), with sbrk's answer should it be asked, or free(r). */
  datatype Call = Get(nbytes: nat, brk: Option<int>) | Release(r: int)

  /** The units that sbrk may have handed out for these calls. */
  ghost function Core(calls: seq<Call>): set<int>
  {
    if |calls| == 0 then {}
    else
      var last := calls[|calls| - 1];
      Core(calls[..|calls| - 1])
      + if last.Get? && last.brk.Some? then Units(last.brk.value, Umalloc.Core(Need(last.nbytes))) else {}
  }

  /** Requests stay below 2 GiB, and sbrk hands out each unit once, above the static header. */
  ghost predicate Askable(base: int, earlier: seq<Call>, call: Call) {
    call.Get? ==>
      && call.nbytes < WORD && Need(call.nbytes) < WORD / 2 / HEADER
      && (call.brk.Some? ==>
            base < call.brk.value && Units(call.brk.value, Umalloc.Core(Need(call.nbytes))) !! Core(earlier))
  }

  ghost predicate Program(base: int, calls: seq<Call>) {
    forall k :: 0 <= k < |calls| ==> Askable(base, calls[..k], calls[k])
  }

  // ---------------------------------------------------------------------

  /** Two live blocks do not overlap. */
  ghost predicate Separate(h: Heap, b: int, c: int) {
    b in Held(h) && c in Held(h) && b < c ==> b + Held(h)[b] <= c
  }

  /** Each unit of memory is in exactly one block, live or free. */
  ghost predicate Accounted(h: Heap, u: int) {
    u in h.owner ==>
      var b := h.owner[u];
      (if b in Held(h) then u < b + Held(h)[b] else b in h.ring && u < b + Len(h, b)) && b <= u
  }

  /** The list is sorted, circular and coalesced, live blocks are apart, and no unit is lost. */
  ghost predicate StopOk(base: int, h: Heap) {
    && Shaped(h, base) && Spaced(h)
    && (forall b, c :: Separate(h, b, c)) && (forall u :: Accounted(h, u))
  }

  lemma ShapedIsOk(base: int, h: Heap)
    requires Shaped(h, base) && Spaced(h)
    ensures StopOk(base, h)
  {
    forall b, c ensures Separate(h, b, c) {
      if b in Held(h) && c in Held(h) && b < c {
        Disjoint(h, base, b, c);
      }
    }
    forall u ensures Accounted(h, u) { }
  }

  /** What a call does to the live blocks and to the memory obtained. */
  ghost predicate CallOk(h: Heap, call: Call, r: int, g: Heap) {
    match call
    case Get(nbytes, brk) =>
      && (r == 0 <==> !Fits(h, Need(nbytes)) && brk.None?) && (r == 0 ==> g == h)
      && (r != 0 ==> r - 1 !in Held(h) && Held(g) == Held(h)[r - 1 := Need(nbytes)])
      && g.owner.Keys == (if Fits(h, Need(nbytes)) || brk.None? then h.owner.Keys
                          else h.owner.Keys + Units(brk.value, Umalloc.Core(Need(nbytes))))
    case Release(p) => p - 1 in Held(h) && Held(g) == Held(h) - {p - 1} && g.owner.Keys == h.owner.Keys
  }

  ghost predicate IsTrail(base: int, trail: seq<Heap>, calls: seq<Call>, rs: seq<int>) {
    && |trail| == |calls| + 1 && |calls| == |rs|
    && (forall k :: 0 <= k < |trail| ==> StopOk(base, trail[k]))
    && forall k :: 0 <= k < |calls| ==> CallOk(trail[k], calls[k], rs[k], trail[k + 1])
  }

  lemma TrailSnoc(base: int, trail: seq<Heap>, calls: seq<Call>, rs: seq<int>, n: nat, r: int, g: Heap)
    requires n < |calls| && IsTrail(base, trail, calls[..n], rs) && StopOk(base, g) && CallOk(trail[n], calls[n], r, g)
    ensures IsTrail(base, trail + [g], calls[..n + 1], rs + [r])
  {
    hide StopOk, CallOk;
  }

  /** The pointers a program holds are the live blocks. */
  ghost predicate Pointers(h: Heap, live: set<int>) {
    forall r :: r in live <==> r - 1 in Held(h)
  }

  method Execute(heap: Allocator, call: Call, live: set<int>, ghost earlier: seq<Call>)
    returns (r: int, live': set<int>)
    requires heap.Valid() && Askable(heap.base, earlier, call) && heap.heap.owner.Keys <= Core(earlier)
    requires Pointers(heap.heap, live) && (call.Release? ==> call.r in live)
    modifies heap
    ensures heap.Valid() && Pointers(heap.heap, live') && CallOk(old(heap.heap), call, r, heap.heap)
    ensures heap.heap.owner.Keys <= Core(earlier + [call])
  {
    hide Shaped, Spaced, Linked, Held, Fits, Need, Units;
    assert (earlier + [call])[..|earlier|] == earlier;
    match call
    case Get(nbytes, brk) =>
      r := heap.Malloc(nbytes, brk);
      live' := if r == 0 then live else live + {r};
    case Release(p) =>
      ReadyToFree(heap, p - 1);
      heap.Free(p);
      r, live' := 0, live - {p};
  }

  /** A live block is one that malloc has made. */
  lemma ReadyToFree(heap: Allocator, b: int)
    requires heap.Valid() && b in Held(heap.heap)
    ensures heap.freep != 0 && b in Live(heap.heap)
  {
  }

  /** Any program of mallocs and frees.  It is followed to its end, or to the first free of a pointer it does
      not hold. */
  method Run(base: int, calls: seq<Call>) returns (rs: seq<int>, done: nat, ghost trail: seq<Heap>)
    requires base > 0 && Program(base, calls)
    ensures done == |rs| <= |calls| && IsTrail(base, trail, calls[..done], rs)
    ensures trail[0] == Heap([base], map[], map[])
    ensures done < |calls| ==> calls[done].Release? && calls[done].r - 1 !in Held(trail[done])
  {
    hide StopOk, CallOk, Shaped, Spaced, Linked, Held, Askable, Core;
    var heap := new Allocator(base);
    var live: set<int> := {};
    rs, done, trail := [], 0, [heap.heap];
    ShapedIsOk(base, heap.heap);
    NothingYet(heap.heap, calls);
    while done < |calls|
      invariant done == |rs| <= |calls| && heap.Valid() && heap.base == base && fresh(heap)
      invariant Pointers(heap.heap, live) && heap.heap.owner.Keys <= Core(calls[..done])
      invariant IsTrail(base, trail, calls[..done], rs) && trail[done] == heap.heap
      invariant trail[0] == Heap([base], map[], map[])
    {
      if calls[done].Release? && calls[done].r !in live {
        return;
      }
      var r;
      r, live := Execute(heap, calls[done], live, calls[..done]);
      assert calls[..done] + [calls[done]] == calls[..done + 1];
      ShapedIsOk(base, heap.heap);
      TrailSnoc(base, trail, calls, rs, done, r, heap.heap);
      rs, trail, done := rs + [r], trail + [heap.heap], done + 1;
    }
  }

  lemma NothingYet(h: Heap, calls: seq<Call>)
    requires Held(h) == map[] && h.owner == map[]
    ensures Pointers(h, {}) && h.owner.Keys <= Core(calls[..0])
  {
  }

  /** Two programs that hold the same blocks and have obtained the same memory have the same free list,
      whatever they did before. */
  lemma RunsAgree(base: int, trail: seq<Heap>, calls: seq<Call>, rs: seq<int>, trail': seq<Heap>, calls': seq<Call>,
                  rs': seq<int>, j: nat, k: nat)
    requires IsTrail(base, trail, calls, rs) && IsTrail(base, trail', calls', rs') && j < |trail| && k < |trail'|
    requires Held(trail[j]) == Held(trail'[k]) && trail[j].owner.Keys == trail'[k].owner.Keys
    ensures trail[j].ring == trail'[k].ring && trail[j].blocks == trail'[k].blocks
  {
    hide Shaped, Spaced, Held, CallOk, Accounted, Separate;
    assert StopOk(base, trail[j]) && StopOk(base, trail'[k]);
    Canonical(trail[j], trail'[k], base);
  }

  /** A program that has freed everything has given back every unit it obtained. */
  lemma NothingLost(base: int, h: Heap, u: int)
    requires StopOk(base, h) && Held(h) == map[] && u in h.owner
    ensures h.owner[u] in h.ring && h.owner[u] <= u < h.owner[u] + Len(h, h.owner[u])
  {
    hide Shaped, Spaced, Separate, Held;
    assert Accounted(h, u);
  }
}
