/**
 * The shape of the memory that the allocator of user/umalloc.c manages, as a value.
 *
 * Memory is addressed in units of one header (eight bytes). `ring` is the circular free list in
 * list order from the static header `base`, which has size zero; `blocks` gives every free and
 * every live block its size in units; `owner` sends each unit of memory obtained so far to the
 * block it lies in.
 */
module FreeList {
  import opened Ring

  datatype Heap = Heap(ring: seq<int>, blocks: map<int, int>, owner: map<int, int>)

  /** The number of units in the block at `b`; the base header has none. */
  ghost function Len(h: Heap, b: int): int {
    if b in h.blocks then h.blocks[b] else 0
  }

  ghost predicate Partition(blocks: map<int, int>, owner: map<int, int>) {
    && (forall b, u :: b in blocks && b <= u < b + blocks[b] ==> u in owner && owner[u] == b)
    && (forall u :: u in owner ==> owner[u] in blocks && owner[u] <= u < owner[u] + blocks[owner[u]])
  }

  ghost predicate Sorted(ring: seq<int>) {
    forall i, j :: 0 <= i < j < |ring| ==> ring[i] < ring[j]
  }

  /** The list starts at `base`, climbs in address order, and every unit lies in exactly one block. */
  ghost predicate Shaped(h: Heap, base: int) {
    && |h.ring| > 0 && h.ring[0] == base
    && (forall b :: b in h.blocks ==> base < b && 0 < h.blocks[b])
    && (forall i :: 0 < i < |h.ring| ==> h.ring[i] in h.blocks)
    && Sorted(h.ring)
    && Partition(h.blocks, h.owner)
  }

  ghost predicate Apart(h: Heap, i: int) {
    0 <= i < |h.ring| - 1 ==> h.ring[i] + Len(h, h.ring[i]) != h.ring[i + 1]
  }

  /** No free block ends where the next one starts. */
  ghost predicate Spaced(h: Heap) {
    forall i :: Apart(h, i)
  }

  ghost function Live(h: Heap): set<int> {
    set b | b in h.blocks && b !in h.ring
  }

  /** The live blocks with their sizes. */
  ghost function Held(h: Heap): map<int, int> {
    map b | b in h.blocks && b !in h.ring :: h.blocks[b]
  }

  /** The headers in memory describe this heap. */
  ghost predicate Linked(h: Heap, base: int, ptr: map<int, int>, size: map<int, int>) {
    && Chained(h.ring, ptr)
    && base in size && size[base] == 0
    && (forall b :: b in h.blocks ==> b in size && size[b] == h.blocks[b])
  }

  lemma Disjoint(h: Heap, base: int, b: int, c: int)
    requires Shaped(h, base) && b in h.blocks && c in h.blocks && b < c
    ensures b + h.blocks[b] <= c
  {
    assert h.owner[c] == c;
  }

  lemma AboveBase(h: Heap, base: int, i: int)
    requires Shaped(h, base) && 0 <= i < |h.ring|
    ensures base <= h.ring[i]
  {
  }

  lemma RingRoom(h: Heap, base: int, i: int)
    requires Shaped(h, base) && 0 <= i < |h.ring| - 1
    ensures h.ring[i] + Len(h, h.ring[i]) <= h.ring[i + 1]
  {
    if i > 0 {
      Disjoint(h, base, h.ring[i], h.ring[i + 1]);
    }
  }

  // ---- The list in address order ----

  /** The header after which a block at `b` belongs. */
  ghost predicate Place(ring: seq<int>, k: int, b: int) {
    && 0 <= k < |ring| && ring[k] < b
    && (k + 1 < |ring| ==> b < ring[k + 1])
  }

  lemma SortedNoDup(ring: seq<int>)
    requires Sorted(ring)
    ensures NoDup(ring)
  {
  }

  lemma PlaceNew(ring: seq<int>, k: int, b: int)
    requires Sorted(ring) && Place(ring, k, b)
    ensures b !in ring && NoDup(ring)
  {
  }

  lemma PutSorted(ring: seq<int>, k: int, b: int)
    requires Sorted(ring) && Place(ring, k, b)
    ensures Sorted(Put(ring, k, b))
  {
  }

  lemma DropSorted(ring: seq<int>, k: int)
    requires Sorted(ring) && 0 <= k < |ring|
    ensures Sorted(Drop(ring, k)) && NoDup(ring)
  {
    hide Drop;
    DropAt(ring, k);
  }

  // ---- Insertion of a live block into the list ----

  ghost function Insert(h: Heap, k: int, b: int): Heap
    requires 0 <= k < |h.ring|
  {
    h.(ring := Put(h.ring, k, b))
  }

  lemma InsertShaped(h: Heap, base: int, k: int, b: int)
    requires Shaped(h, base) && Place(h.ring, k, b) && b in Live(h)
    ensures Shaped(Insert(h, k, b), base)
    ensures Held(Insert(h, k, b)) == Held(h) - {b}
  {
    hide Partition, Put, Sorted;
    PutAt(h.ring, k, b);
    PutSorted(h.ring, k, b);
    assert forall c :: c in Held(Insert(h, k, b)) <==> c in Held(h) - {b};
  }

  lemma InsertSpaced(h: Heap, k: int, b: int, i: int)
    requires 0 <= k < |h.ring| && Spaced(h) && i != k && i != k + 1
    ensures Apart(Insert(h, k, b), i)
  {
    hide Put;
    PutAt(h.ring, k, b);
    assert Apart(h, i) && Apart(h, i - 1);
  }

  lemma InsertLinked(h: Heap, base: int, k: int, b: int, ptr: map<int, int>, size: map<int, int>)
    requires Sorted(h.ring) && Place(h.ring, k, b)
    requires Linked(h, base, ptr, size)
    ensures h.ring[k] in ptr
    ensures Linked(Insert(h, k, b), base, ptr[b := ptr[h.ring[k]]][h.ring[k] := b], size)
  {
    hide Put, Chained, Sorted;
    PlaceNew(h.ring, k, b);
    PutChained(h.ring, k, b, ptr);
  }

  // ---- Joining a free block with the one after it ----

  ghost function Join(h: Heap, i: int): Heap
    requires 0 <= i < |h.ring| - 1
  {
    var a, b := h.ring[i], h.ring[i + 1];
    Heap(Drop(h.ring, i + 1),
         (map c | c in h.blocks && c != b :: if c == a then Len(h, a) + Len(h, b) else h.blocks[c]),
         map u | u in h.owner :: if h.owner[u] == b then a else h.owner[u])
  }

  /** A free block ends where the next one starts. */
  ghost predicate Touching(h: Heap, i: int) {
    0 < i < |h.ring| - 1 && h.ring[i] + Len(h, h.ring[i]) == h.ring[i + 1]
  }

  lemma JoinPartition(h: Heap, base: int, i: int)
    requires Shaped(h, base) && Touching(h, i)
    ensures Partition(Join(h, i).blocks, Join(h, i).owner)
  {
    hide Drop;
  }

  lemma JoinShaped(h: Heap, base: int, i: int)
    requires Shaped(h, base) && Touching(h, i)
    ensures Shaped(Join(h, i), base)
    ensures Held(Join(h, i)) == Held(h)
    ensures Join(h, i).owner.Keys == h.owner.Keys
  {
    hide Partition, Drop;
    JoinPartition(h, base, i);
    DropAt(h.ring, i + 1);
    DropSorted(h.ring, i + 1);
  }

  lemma JoinSpaced(h: Heap, base: int, i: int, j: int)
    requires Shaped(h, base) && Touching(h, i)
    ensures j < i && Apart(h, j) ==> Apart(Join(h, i), j)
    ensures i <= j && Apart(h, j + 1) ==> Apart(Join(h, i), j)
  {
    hide Partition, Drop;
    DropAt(h.ring, i + 1);
    DropSorted(h.ring, i + 1);
  }

  lemma JoinLinked(h: Heap, base: int, i: int, ptr: map<int, int>, size: map<int, int>)
    requires Shaped(h, base) && 0 < i < |h.ring| - 1
    requires Linked(h, base, ptr, size)
    ensures h.ring[i + 1] in ptr
    ensures var a, b := h.ring[i], h.ring[i + 1];
            Linked(Join(h, i), base, ptr[a := ptr[b]], size[a := size[a] + size[b]])
  {
    SortedNoDup(h.ring);
    DropChained(h.ring, i, ptr);
    hide Partition, Drop, Chained;
  }

  // ---- Taking memory off the list ----

  ghost function Remove(h: Heap, i: int): Heap
    requires 0 <= i < |h.ring|
  {
    h.(ring := Drop(h.ring, i))
  }

  lemma RemoveShaped(h: Heap, base: int, i: int)
    requires Shaped(h, base) && 0 < i < |h.ring|
    ensures Shaped(Remove(h, i), base)
    ensures Held(Remove(h, i)) == Held(h)[h.ring[i] := h.blocks[h.ring[i]]]
  {
    hide Partition, Drop;
    DropAt(h.ring, i);
    DropSorted(h.ring, i);
  }

  lemma RemoveSpaced(h: Heap, base: int, i: int, j: int)
    requires Shaped(h, base) && Spaced(h) && 0 < i < |h.ring|
    ensures Apart(Remove(h, i), j)
  {
    DropAt(h.ring, i);
    DropSorted(h.ring, i);
    assert Apart(h, j) && Apart(h, j + 1);
    if 0 <= j < |h.ring| - 2 {
      RingRoom(h, base, j);
      RingRoom(h, base, j + 1);
    }
    hide Partition, Drop;
  }

  lemma RemoveKeeps(h: Heap, base: int, i: int)
    requires Shaped(h, base) && Spaced(h) && 0 < i < |h.ring|
    ensures Shaped(Remove(h, i), base) && Spaced(Remove(h, i)) && h.ring[i] in h.blocks && Sorted(h.ring)
    ensures Held(Remove(h, i)) == Held(h)[h.ring[i] := Len(h, h.ring[i])]
    ensures |Remove(h, i).ring| == |h.ring| - 1 && Remove(h, i).ring[i - 1] == h.ring[i - 1]
  {
    hide Partition, Drop, Held;
    RemoveShaped(h, base, i);
    DropAt(h.ring, i);
    DropSorted(h.ring, i);
    var g := Remove(h, i);
    forall j
      ensures Apart(g, j)
    {
      RemoveSpaced(h, base, i, j);
    }
  }

  lemma RemoveLinked(h: Heap, base: int, i: int, ptr: map<int, int>, size: map<int, int>)
    requires Sorted(h.ring) && 0 <= i < |h.ring| - 1
    requires Linked(h, base, ptr, size)
    ensures h.ring[i + 1] in ptr
    ensures Linked(Remove(h, i + 1), base, ptr[h.ring[i] := ptr[h.ring[i + 1]]], size)
  {
    SortedNoDup(h.ring);
    DropChained(h.ring, i, ptr);
    hide Drop, Chained;
  }

  /** The last `n` units of the block at `b` become a block of their own. */
  ghost function Cut(h: Heap, b: int, n: int): Heap {
    var c := b + Len(h, b) - n;
    Heap(h.ring, h.blocks[b := Len(h, b) - n][c := n],
         map u | u in h.owner :: if h.owner[u] == b && c <= u then c else h.owner[u])
  }

  lemma CutPartition(h: Heap, base: int, b: int, n: int)
    requires Shaped(h, base) && b in h.blocks && 0 < n < h.blocks[b]
    ensures b + h.blocks[b] - n !in h.blocks
    ensures Partition(Cut(h, b, n).blocks, Cut(h, b, n).owner)
  {
    var c, g := b + h.blocks[b] - n, Cut(h, b, n);
    assert c !in h.blocks by {
      assert h.owner[c] == b;
    }
    hide Sorted;
    forall a, u | a in g.blocks && a <= u < a + g.blocks[a]
      ensures u in g.owner && g.owner[u] == a
    {
      assert u in h.owner && h.owner[u] == if a == c then b else a;
    }
  }

  lemma CutShaped(h: Heap, base: int, i: int, n: int)
    requires Shaped(h, base) && Spaced(h) && 0 < i < |h.ring| && 0 < n < h.blocks[h.ring[i]]
    ensures var g := Cut(h, h.ring[i], n);
            && Shaped(g, base) && Spaced(g) && g.owner.Keys == h.owner.Keys
            && Held(g) == Held(h)[h.ring[i] + h.blocks[h.ring[i]] - n := n]
  {
    CutPartition(h, base, h.ring[i], n);
    var g := Cut(h, h.ring[i], n);
    forall j
      ensures Apart(g, j)
    {
      if 0 <= j < |g.ring| - 1 {
        RingRoom(h, base, j);
        assert Apart(h, j);
      }
    }
    hide Partition;
  }

  lemma CutRing(h: Heap, base: int, i: int, n: int)
    requires Shaped(h, base) && 0 < i < |h.ring| && 0 < n < Len(h, h.ring[i])
    ensures Cut(h, h.ring[i], n).ring == h.ring && h.ring[i] in h.blocks
    ensures base < h.ring[i] + Len(h, h.ring[i]) - n
    ensures h.ring[i] + Len(h, h.ring[i]) - n !in h.blocks
  {
    CutPartition(h, base, h.ring[i], n);
  }

  lemma CutLinked(h: Heap, base: int, i: int, n: int, ptr: map<int, int>, size: map<int, int>)
    requires Shaped(h, base) && 0 < i < |h.ring| && 0 < n < h.blocks[h.ring[i]]
    requires Linked(h, base, ptr, size)
    ensures var b, s := h.ring[i], h.blocks[h.ring[i]] - n;
            Linked(Cut(h, b, n), base, ptr, size[b := s][b + s := n])
  {
    hide Chained, Partition;
  }

  // ---- Memory from the kernel ----

  ghost function Units(p: int, n: int): (r: set<int>)
    ensures forall u :: u in r <==> p <= u < p + n
    decreases n
  {
    if n <= 0 then {} else Units(p, n - 1) + {p + n - 1}
  }

  /** A region of `n` fresh units at `p`, so far outside the list. */
  ghost function Grow(h: Heap, p: int, n: int): Heap {
    Heap(h.ring, h.blocks[p := n], map u | u in h.owner.Keys + Units(p, n) :: if u in h.owner then h.owner[u] else p)
  }

  lemma GrowPartition(h: Heap, p: int, n: int)
    requires Partition(h.blocks, h.owner) && p !in h.blocks && Units(p, n) !! h.owner.Keys
    ensures Partition(Grow(h, p, n).blocks, Grow(h, p, n).owner)
  {
    hide Units;
    var g := Grow(h, p, n);
    forall b, u | b in g.blocks && b <= u < b + g.blocks[b]
      ensures u in g.owner && g.owner[u] == b
    {
      assert b != p ==> u in h.owner && h.owner[u] == b;
      assert b == p ==> u in Units(p, n);
    }
  }

  lemma Unowned(h: Heap, base: int, p: int, n: int)
    requires Shaped(h, base) && 0 < n && Units(p, n) !! h.owner.Keys
    ensures p !in h.blocks
  {
    hide Units;
    assert p in Units(p, n);
  }

  lemma GrowHeld(h: Heap, p: int, n: int)
    requires p !in h.blocks && p !in h.ring
    ensures Held(Grow(h, p, n)) == Held(h)[p := n]
    ensures Grow(h, p, n).owner.Keys == h.owner.Keys + Units(p, n)
  {
    hide Units;
  }

  lemma GrowLive(h: Heap, base: int, p: int, n: int)
    requires Shaped(h, base) && base < p && 0 < n && Units(p, n) !! h.owner.Keys
    ensures p in Live(Grow(h, p, n)) && Grow(h, p, n).blocks == h.blocks[p := n] && Grow(h, p, n).ring == h.ring
    ensures Held(h)[p := n] - {p} == Held(h)
  {
    Unowned(h, base, p, n);
  }

  lemma GrowShaped(h: Heap, base: int, p: int, n: int)
    requires Shaped(h, base) && Spaced(h) && base < p && 0 < n && Units(p, n) !! h.owner.Keys
    ensures Shaped(Grow(h, p, n), base) && Spaced(Grow(h, p, n))
    ensures p !in h.blocks && Held(Grow(h, p, n)) == Held(h)[p := n]
    ensures Grow(h, p, n).owner.Keys == h.owner.Keys + Units(p, n)
  {
    hide Units, Sorted, Partition, Held;
    Unowned(h, base, p, n);
    GrowPartition(h, p, n);
    GrowHeld(h, p, n);
    var g := Grow(h, p, n);
    forall j
      ensures Apart(g, j)
    {
      assert Apart(h, j);
    }
  }

  // ---- The whole of free() ----

  /** A live block put on the list after its predecessor and joined with the neighbours it touches. */
  ghost function Freed(h: Heap, k: int, b: int): Heap
    requires 0 <= k < |h.ring|
  {
    var h1 := JoinIf(Insert(h, k, b), k + 1);
    JoinIf(h1, k)
  }

  ghost function JoinIf(h: Heap, i: int): Heap {
    if Touching(h, i) then Join(h, i) else h
  }

  lemma JoinIfShaped(h: Heap, base: int, i: int)
    requires Shaped(h, base)
    ensures Shaped(JoinIf(h, i), base) && Held(JoinIf(h, i)) == Held(h) && JoinIf(h, i).owner.Keys == h.owner.Keys
  {
    hide Shaped, Join, Held;
    if Touching(h, i) {
      JoinShaped(h, base, i);
    }
  }

  lemma JoinIfSpaced(h: Heap, base: int, i: int, j: int)
    requires Shaped(h, base) && 0 <= i
    requires j < i ==> Apart(h, j)
    requires j > i ==> Apart(h, j) && Apart(h, j + 1)
    requires j == i ==> Apart(h, j + 1)
    ensures Apart(JoinIf(h, i), j)
  {
    hide Partition, Join, Drop;
    if Touching(h, i) {
      JoinSpaced(h, base, i, j);
    }
  }

  /** Freeing keeps the list sorted and coalesced, gives up exactly one block, and loses no memory. */
  lemma FreedShaped(h: Heap, base: int, k: int, b: int)
    requires Shaped(h, base) && Spaced(h) && Place(h.ring, k, b) && b in Live(h)
    ensures Shaped(Freed(h, k, b), base) && Spaced(Freed(h, k, b))
    ensures Held(Freed(h, k, b)) == Held(h) - {b}
    ensures Freed(h, k, b).owner.Keys == h.owner.Keys
  {
    hide Shaped, Held, Apart, Insert, JoinIf;
    var h0 := Insert(h, k, b);
    var h1 := JoinIf(h0, k + 1);
    InsertShaped(h, base, k, b);
    JoinIfShaped(h0, base, k + 1);
    JoinIfShaped(h1, base, k);
    assert h0.owner == h.owner by { InsertOwner(h, k, b); }
    forall j | j != k && j != k + 1
      ensures Apart(h0, j)
    {
      InsertSpaced(h, k, b, j);
    }
    forall j | j != k
      ensures Apart(h1, j)
    {
      JoinIfSpaced(h0, base, k + 1, j);
    }
    forall j
      ensures Apart(JoinIf(h1, k), j)
    {
      JoinIfSpaced(h1, base, k, j);
    }
  }

  lemma InsertOwner(h: Heap, k: int, b: int)
    requires 0 <= k < |h.ring|
    ensures Insert(h, k, b).owner == h.owner && Insert(h, k, b).blocks == h.blocks
  {
  }

  /** The list around a block just inserted. */
  lemma InsertAround(h: Heap, k: int, b: int)
    requires 0 <= k < |h.ring|
    ensures var g := Insert(h, k, b);
            && |g.ring| == |h.ring| + 1 && g.ring[k] == h.ring[k] && g.ring[k + 1] == b
            && (k + 1 < |h.ring| ==> g.ring[k + 2] == h.ring[k + 1])
  {
    PutAt(h.ring, k, b);
  }

  lemma JoinAround(h: Heap, i: int)
    requires 0 < i < |h.ring| - 1 && h.ring[i] in h.blocks
    ensures |Join(h, i).ring| == |h.ring| - 1
    ensures forall j :: 0 <= j <= i ==> Join(h, i).ring[j] == h.ring[j]
    ensures h.ring[i] != h.ring[i + 1] ==> Len(Join(h, i), h.ring[i]) == Len(h, h.ring[i]) + Len(h, h.ring[i + 1])
    ensures forall c :: c != h.ring[i] && c != h.ring[i + 1] ==> Len(Join(h, i), c) == Len(h, c)
  {
    hide Drop;
    DropAt(h.ring, i + 1);
  }

  lemma JoinIfAround(h: Heap, base: int, k: int, b: int)
    requires Shaped(h, base) && Place(h.ring, k, b) && b in Live(h)
    ensures var h1 := JoinIf(Insert(h, k, b), k + 1);
            k + 1 < |h1.ring| && h1.ring[k] == h.ring[k] && h1.ring[k + 1] == b && Len(h1, b) >= h.blocks[b]
  {
    hide Partition, Join, Insert, Held;
    var h0 := Insert(h, k, b);
    InsertShaped(h, base, k, b);
    InsertAround(h, k, b);
    InsertOwner(h, k, b);
    if Touching(h0, k + 1) {
      JoinAround(h0, k + 1);
    }
  }

  /** The freed block ends up inside the list's `k`th or next block. */
  lemma FreedBlock(h: Heap, base: int, k: int, b: int)
    requires Shaped(h, base) && Place(h.ring, k, b) && b in Live(h)
    ensures var g := Freed(h, k, b);
            && k < |g.ring| && g.ring[k] == h.ring[k]
            && (|| Len(g, g.ring[k]) >= h.blocks[b]
                || (k + 1 < |g.ring| && Len(g, g.ring[k + 1]) >= h.blocks[b]))
  {
    hide Partition, Join, Insert, Held;
    var h0 := Insert(h, k, b);
    InsertShaped(h, base, k, b);
    var h1 := JoinIf(h0, k + 1);
    JoinIfShaped(h0, base, k + 1);
    JoinIfAround(h, base, k, b);
    if Touching(h1, k) {
      JoinAround(h1, k);
    }
  }

  // ---- The writes of free() ----

  lemma JoinUpLinked(h: Heap, base: int, k: int, b: int, ptr: map<int, int>, size: map<int, int>)
    requires Shaped(h, base) && Place(h.ring, k, b) && b in Live(h) && Linked(h, base, ptr, size)
    ensures h.ring[k] in ptr && b in size
    ensures var p := h.ring[k]; var q := ptr[p];
            && (b + size[b] == q <==> Touching(Insert(h, k, b), k + 1))
            && (b + size[b] == q ==> q in ptr && q in size)
            && (b + size[b] == q ==>
                  Linked(Join(Insert(h, k, b), k + 1), base, ptr[b := ptr[q]][p := b], size[b := size[b] + size[q]]))
            && (b + size[b] != q ==> Linked(Insert(h, k, b), base, ptr[b := q][p := b], size))
  {
    hide Partition, Join, Insert, Held, Chained;
    var h0, p := Insert(h, k, b), h.ring[k];
    InsertShaped(h, base, k, b);
    InsertAround(h, k, b);
    InsertOwner(h, k, b);
    InsertLinked(h, base, k, b, ptr, size);
    var q := ptr[p];
    ChainedAt(h.ring, ptr, k);
    assert q == if k + 1 < |h.ring| then h.ring[k + 1] else base;
    if b + size[b] == q {
      assert Touching(h0, k + 1);
      ChainedAt(h.ring, ptr, k + 1);
      JoinLinked(h0, base, k + 1, ptr[b := q][p := b], size);
      assert ptr[b := q][p := b][b := ptr[q]] == ptr[b := ptr[q]][p := b];
    }
  }

  lemma JoinDownLinked(h: Heap, base: int, k: int, ptr: map<int, int>, size: map<int, int>)
    requires Shaped(h, base) && 0 <= k < |h.ring| - 1
    requires Linked(h, base, ptr[h.ring[k] := h.ring[k + 1]], size)
    ensures h.ring[k] in size && h.ring[k + 1] in size && h.ring[k + 1] in ptr
    ensures var p, b := h.ring[k], h.ring[k + 1];
            && (p + size[p] == b <==> Touching(h, k))
            && (p + size[p] == b ==> Linked(Join(h, k), base, ptr[p := ptr[b]], size[p := size[p] + size[b]]))
  {
    hide Partition, Join, Chained;
    var p, b := h.ring[k], h.ring[k + 1];
    ChainedAt(h.ring, ptr[p := b], k + 1);
    if p + size[p] == b {
      assert Touching(h, k);
      JoinLinked(h, base, k, ptr[p := b], size);
      assert ptr[p := b][p := ptr[b]] == ptr[p := ptr[b]];
    }
  }

  // ---- The list is determined by what is live ----

  ghost predicate FreeUnit(h: Heap, u: int) {
    u in h.owner && h.owner[u] in h.ring
  }

  lemma SameFreeUnits(g: Heap, h: Heap, base: int, u: int)
    requires Shaped(g, base) && Shaped(h, base)
    requires Held(g) == Held(h) && g.owner.Keys == h.owner.Keys
    ensures FreeUnit(g, u) ==> FreeUnit(h, u)
  {
    hide Sorted;
    if u in h.owner && h.owner[u] !in h.ring {
      var b := h.owner[u];
      assert b in Held(h);
      assert b in Held(g) && g.blocks[b] == Held(g)[b];
      assert g.owner[u] == b;
    }
  }

  /** Two free blocks never touch, wherever they are on the list. */
  lemma NeverTouch(h: Heap, base: int, i: int, j: int)
    requires Shaped(h, base) && Spaced(h) && 0 < i < |h.ring| && 0 < j < |h.ring|
    ensures h.ring[i] + Len(h, h.ring[i]) != h.ring[j]
  {
    if i < j {
      RingRoom(h, base, i);
      assert Apart(h, i);
    }
  }

  /** A unit is the first of a free block exactly when it is free and the one below it is not. */
  lemma StartsBlock(h: Heap, base: int, u: int)
    requires Shaped(h, base) && Spaced(h)
    ensures u in h.ring && u != base <==> FreeUnit(h, u) && !FreeUnit(h, u - 1)
  {
    if u in h.ring && u != base {
      assert h.owner[u] == u;
      if FreeUnit(h, u - 1) {
        var d := h.owner[u - 1];
        Disjoint(h, base, d, u);
        var i, j :| 0 <= i < |h.ring| && h.ring[i] == d && 0 <= j < |h.ring| && h.ring[j] == u;
        NeverTouch(h, base, i, j);
      }
    } else if FreeUnit(h, u) {
      var d := h.owner[u];
      assert d < u;
      assert h.owner[u - 1] == d;
    }
  }

  /** A free block runs up to the first unit that is not free. */
  lemma EndsBlock(h: Heap, base: int, b: int)
    requires Shaped(h, base) && Spaced(h) && b in h.ring && b != base
    ensures b in h.blocks && !FreeUnit(h, b + h.blocks[b])
    ensures forall u :: b <= u < b + h.blocks[b] ==> FreeUnit(h, u)
  {
    var e := b + h.blocks[b];
    if FreeUnit(h, e) {
      var d := h.owner[e];
      var i, j :| 0 <= i < |h.ring| && h.ring[i] == b && 0 <= j < |h.ring| && h.ring[j] == d;
      if d < b {
        Disjoint(h, base, d, b);
      } else if b < d {
        Disjoint(h, base, b, d);
        NeverTouch(h, base, i, j);
      }
    }
  }

  lemma SameMembers(g: Heap, h: Heap, base: int, b: int)
    requires Shaped(g, base) && Spaced(g) && Shaped(h, base) && Spaced(h)
    requires Held(g) == Held(h) && g.owner.Keys == h.owner.Keys
    ensures b in g.ring ==> b in h.ring && Len(g, b) == Len(h, b)
  {
    hide Partition, Sorted, Spaced, Held, FreeUnit;
    StartsBlock(g, base, b);
    StartsBlock(h, base, b);
    SameFreeUnits(g, h, base, b);
    SameFreeUnits(h, g, base, b - 1);
    if b in g.ring && b != base {
      EndsBlock(g, base, b);
      EndsBlock(h, base, b);
      SameFreeUnits(g, h, base, b + h.blocks[b]);
      SameFreeUnits(h, g, base, b + g.blocks[b]);
    }
  }

  lemma InFront(r: seq<int>, x: int)
    requires |r| > 0 && Sorted(r)
    ensures x in r[..|r| - 1] <==> x in r && x != r[|r| - 1]
    ensures Sorted(r[..|r| - 1]) && (x in r ==> x <= r[|r| - 1])
  {
    assert r == r[..|r| - 1] + [r[|r| - 1]];
  }

  lemma HasMember(r: seq<int>)
    ensures |r| > 0 ==> exists x :: x in r
  {
    if |r| > 0 {
      var x := r[0];
      assert x in r;
    }
  }

  lemma {:induction false} SortedUnique(r: seq<int>, s: seq<int>)
    requires Sorted(r) && Sorted(s) && forall x :: x in r <==> x in s
    ensures r == s
    decreases |r|
  {
    HasMember(r);
    HasMember(s);
    if |r| > 0 {
      var a, b := r[|r| - 1], s[|s| - 1];
      assert a in r && b in s;
      InFront(r, b);
      InFront(s, a);
      var r0, s0 := r[..|r| - 1], s[..|s| - 1];
      forall x
        ensures x in r0 <==> x in s0
      {
        InFront(r, x);
        InFront(s, x);
      }
      SortedUnique(r0, s0);
      assert r == r0 + [a] && s == s0 + [b];
    }
  }

  /** The same live blocks in the same memory leave one possible free list. */
  lemma Canonical(g: Heap, h: Heap, base: int)
    requires Shaped(g, base) && Spaced(g) && Shaped(h, base) && Spaced(h)
    requires Held(g) == Held(h) && g.owner.Keys == h.owner.Keys
    ensures g.ring == h.ring && g.blocks == h.blocks
  {
    forall b
      ensures b in g.ring <==> b in h.ring
      ensures b in g.ring ==> Len(g, b) == Len(h, b)
    {
      hide Partition, Sorted, Spaced, Held;
      SameMembers(g, h, base, b);
      SameMembers(h, g, base, b);
    }
    hide Partition, Spaced;
    SortedUnique(g.ring, h.ring);
    forall b
      ensures b in g.blocks <==> b in h.blocks
      ensures b in g.blocks ==> g.blocks[b] == h.blocks[b]
    {
      assert b in Held(g) <==> b in Held(h);
    }
  }
}
