/**
 * kernel/bio.c: the buffer cache, a circular doubly linked list of buffers in the order of their
 * last release.
 *
 * Buffers are numbered from 0 and the list head is number -1. A method is what runs between taking
 * and releasing the cache's lock, or what the holder of a buffer's own lock does with it.
 */
module Bio {
  import opened Ring

  const HEAD := -1

  type Data = seq<int>
  /** A block of a device. */
  type Place = (int, int)

  datatype Buf = Buf(valid: bool, dev: int, blockno: int, refcnt: int, data: Data)

  /** The whole list, from the head on. */
  ghost function Whole(order: seq<int>): seq<int> {
    [HEAD] + order
  }

  /** The list holds every buffer once. */
  ghost predicate Permutation(order: seq<int>, n: nat) {
    NoDup(Whole(order)) && forall b :: b in order <==> 0 <= b < n
  }

  /** Most recently released first. */
  ghost predicate Recent(order: seq<int>, stamp: map<int, int>, clock: int) {
    && (forall b :: b in order ==> b in stamp && stamp[b] < clock)
    && (forall i, j :: 0 <= i < j < |order| ==>
          order[i] in stamp && order[j] in stamp && stamp[order[i]] > stamp[order[j]])
  }

  predicate SamePlace(a: Buf, b: Buf) {
    a.dev == b.dev && a.blockno == b.blockno
  }

  /** No block of a real device is in two buffers. */
  ghost predicate Unique(bufs: seq<Buf>) {
    forall a, b :: 0 <= a < |bufs| && 0 <= b < |bufs| && bufs[a].dev != 0 && SamePlace(bufs[a], bufs[b]) ==> a == b
  }

  /** A buffer that nobody refers to holds what the disk holds. */
  ghost predicate Clean(b: Buf, disk: map<Place, Data>) {
    b.valid && b.dev != 0 ==> (b.dev, b.blockno) in disk && b.data == disk[(b.dev, b.blockno)]
  }

  ghost predicate Idle(bufs: seq<Buf>, disk: map<Place, Data>) {
    forall b :: 0 <= b < |bufs| ==> bufs[b].refcnt >= 0 && (bufs[b].refcnt == 0 ==> Clean(bufs[b], disk))
  }

  function OnDisk(disk: map<Place, Data>, p: Place): Data {
    if p in disk then disk[p] else []
  }

  ghost predicate Caches(bufs: seq<Buf>, b: int, p: Place) {
    0 <= b < |bufs| && bufs[b].valid && (bufs[b].dev, bufs[b].blockno) == p
  }

  /** What a block contains as far as the kernel is concerned: its valid buffer, or else the disk. */
  ghost function Logical(bufs: seq<Buf>, disk: map<Place, Data>, p: Place): Data {
    if exists b :: Caches(bufs, b, p) then
      var b :| Caches(bufs, b, p);
      bufs[b].data
    else OnDisk(disk, p)
  }

  ghost predicate SameAt(bufs: seq<Buf>, disk: map<Place, Data>, bufs': seq<Buf>, disk': map<Place, Data>, p: Place) {
    p.0 != 0 ==> Logical(bufs', disk', p) == Logical(bufs, disk, p)
  }

  /** Every block of a real device contains the same before and after. */
  ghost predicate SameBlocks(bufs: seq<Buf>, disk: map<Place, Data>, bufs': seq<Buf>, disk': map<Place, Data>) {
    forall p :: SameAt(bufs, disk, bufs', disk', p)
  }

  lemma LogicalIs(bufs: seq<Buf>, disk: map<Place, Data>, p: Place, b: int)
    requires Unique(bufs) && p.0 != 0 && Caches(bufs, b, p)
    ensures Logical(bufs, disk, p) == bufs[b].data
  {
    var c :| Caches(bufs, c, p) && Logical(bufs, disk, p) == bufs[c].data;
  }

  predicate At(b: Buf, dev: int, blockno: int) {
    b.dev == dev && b.blockno == blockno
  }

  /** Buffer b now stands for the block, with its contents and one reference more; if it stood for
      another block it was idle, and no buffer stood for this one. */
  ghost predicate Fetched(bufs: seq<Buf>, bufs': seq<Buf>, disk: map<Place, Data>, b: int, dev: int, blockno: int) {
    && 0 <= b < |bufs|
    && bufs' == bufs[b := Buf(true, dev, blockno, if At(bufs[b], dev, blockno) then bufs[b].refcnt + 1 else 1,
                              Logical(bufs, disk, (dev, blockno)))]
    && (!At(bufs[b], dev, blockno) ==>
          bufs[b].refcnt == 0 && forall c :: 0 <= c < |bufs| ==> !At(bufs[c], dev, blockno))
  }

  /** A buffer that was idle when it was fetched is clean. */
  lemma FetchedClean(bufs: seq<Buf>, bufs': seq<Buf>, disk: map<Place, Data>, b: int, dev: int, blockno: int)
    requires Unique(bufs) && Idle(bufs, disk) && Fetched(bufs, bufs', disk, b, dev, blockno) && dev != 0
    requires bufs'[b].refcnt == 1 && (dev, blockno) in disk
    ensures Clean(bufs'[b], disk)
  {
    var p := (dev, blockno);
    if Caches(bufs, b, p) {
      LogicalIs(bufs, disk, p, b);
    } else {
      assert forall c :: !Caches(bufs, c, p);
    }
  }

  /** One buffer changes: blocks it neither held nor holds are not affected. */
  lemma OtherBlock(bufs: seq<Buf>, disk: map<Place, Data>, b: int, buf: Buf, p: Place)
    requires 0 <= b < |bufs| && Unique(bufs) && Unique(bufs[b := buf]) && p.0 != 0
    requires !Caches(bufs, b, p) && !Caches(bufs[b := buf], b, p)
    ensures Logical(bufs[b := buf], disk, p) == Logical(bufs, disk, p)
  {
    var bufs' := bufs[b := buf];
    assert forall c :: Caches(bufs', c, p) <==> Caches(bufs, c, p);
    if c :| Caches(bufs, c, p) {
      LogicalIs(bufs, disk, p, c);
      LogicalIs(bufs', disk, p, c);
    }
  }

  /** Reference counts do not matter to contents. */
  lemma CountOnly(bufs: seq<Buf>, disk: map<Place, Data>, b: int, n: int)
    requires Unique(bufs) && 0 <= b < |bufs|
    ensures Unique(bufs[b := bufs[b].(refcnt := n)]) && SameBlocks(bufs, disk, bufs[b := bufs[b].(refcnt := n)], disk)
  {
    var bufs' := bufs[b := bufs[b].(refcnt := n)];
    forall p
      ensures SameAt(bufs, disk, bufs', disk, p)
    {
      assert forall c :: Caches(bufs', c, p) <==> Caches(bufs, c, p);
      if p.0 != 0 {
        if c :| Caches(bufs, c, p) {
          LogicalIs(bufs, disk, p, c);
          LogicalIs(bufs', disk, p, c);
        }
      }
    }
  }

  /** Taking over a clean buffer for a block that no buffer holds loses nothing. */
  lemma Recycled(bufs: seq<Buf>, disk: map<Place, Data>, b: int, dev: int, blockno: int)
    requires Unique(bufs) && 0 <= b < |bufs| && Clean(bufs[b], disk) && dev != 0
    requires forall c :: 0 <= c < |bufs| ==> !(bufs[c].dev == dev && bufs[c].blockno == blockno)
    ensures var bufs' := bufs[b := bufs[b].(dev := dev, blockno := blockno, valid := false, refcnt := 1)];
            Unique(bufs') && SameBlocks(bufs, disk, bufs', disk)
  {
    var buf := bufs[b].(dev := dev, blockno := blockno, valid := false, refcnt := 1);
    var bufs' := bufs[b := buf];
    forall p
      ensures SameAt(bufs, disk, bufs', disk, p)
    {
      if p.0 != 0 {
        if Caches(bufs, b, p) {
          LogicalIs(bufs, disk, p, b);
          assert forall c :: !Caches(bufs', c, p);
        } else {
          OtherBlock(bufs, disk, b, buf, p);
        }
      }
    }
  }

  /** Reading a block into the buffer that stands for it. */
  lemma FilledIn(bufs: seq<Buf>, disk: map<Place, Data>, b: int)
    requires Unique(bufs) && 0 <= b < |bufs| && !bufs[b].valid && bufs[b].dev != 0
    ensures var p := (bufs[b].dev, bufs[b].blockno);
            var bufs' := bufs[b := bufs[b].(valid := true, data := OnDisk(disk, p))];
            Unique(bufs') && SameBlocks(bufs, disk, bufs', disk)
  {
    var q := (bufs[b].dev, bufs[b].blockno);
    var buf := bufs[b].(valid := true, data := OnDisk(disk, q));
    var bufs' := bufs[b := buf];
    forall p
      ensures SameAt(bufs, disk, bufs', disk, p)
    {
      if p == q {
        assert forall c :: !Caches(bufs, c, p);
        LogicalIs(bufs', disk, p, b);
      } else if p.0 != 0 {
        OtherBlock(bufs, disk, b, buf, p);
      }
    }
  }

  /** Writing a valid buffer to its place on the disk. */
  lemma WrittenOut(bufs: seq<Buf>, disk: map<Place, Data>, b: int)
    requires Unique(bufs) && 0 <= b < |bufs| && bufs[b].valid && bufs[b].dev != 0
    ensures SameBlocks(bufs, disk, bufs, disk[(bufs[b].dev, bufs[b].blockno) := bufs[b].data])
  {
    var q := (bufs[b].dev, bufs[b].blockno);
    var disk' := disk[q := bufs[b].data];
    forall p
      ensures SameAt(bufs, disk, bufs, disk', p)
    {
      if p == q {
        LogicalIs(bufs, disk, p, b);
        LogicalIs(bufs, disk', p, b);
      } else if p.0 != 0 {
        if c :| Caches(bufs, c, p) {
          LogicalIs(bufs, disk, p, c);
          LogicalIs(bufs, disk', p, c);
        }
      }
    }
  }

  // ---- The list ----

  lemma FrontWhole(order: seq<int>, k: nat)
    requires k < |order|
    ensures Drop(Whole(order), k + 1) == Whole(Drop(order, k))
    ensures Put(Whole(Drop(order, k)), 0, order[k]) == Whole([order[k]] + Drop(order, k))
  {
  }

  /** Moving a buffer to the front of the list keeps it a permutation with newest first. */
  lemma ToFront(order: seq<int>, k: nat, n: nat, stamp: map<int, int>, clock: int)
    requires k < |order| && Permutation(order, n) && Recent(order, stamp, clock)
    ensures Permutation([order[k]] + Drop(order, k), n)
    ensures Recent([order[k]] + Drop(order, k), stamp[order[k] := clock], clock + 1)
  {
    var b := order[k];
    forall i, j | 0 <= i < j < |order|
      ensures order[i] != order[j]
    {
      assert Whole(order)[i + 1] != Whole(order)[j + 1];
    }
    forall i | 0 <= i < |order|
      ensures order[i] != HEAD
    {
      assert Whole(order)[0] != Whole(order)[i + 1];
    }
    DropAt(order, k);
    hide Drop;
    var front := [b] + Drop(order, k);
    assert forall x :: x in front <==> x in order;
  }

  class Cache {
    var bufs: seq<Buf>
    var next: map<int, int>
    var prev: map<int, int>
    var disk: map<Place, Data>
    ghost var order: seq<int>
    ghost var stamp: map<int, int>
    ghost var clock: int

    ghost predicate Listed()
      reads this
    {
      && Permutation(order, |bufs|) && Recent(order, stamp, clock)
      && Chained(Whole(order), next) && BackChained(Whole(order), prev)
    }

    ghost predicate Valid()
      reads this
    {
      Listed() && Unique(bufs) && Idle(bufs, disk)
    }

    /** binit(): the buffers are linked in one after the other behind the head, all of them idle and empty. */
    constructor (n: nat, device: map<Place, Data>)
      ensures Valid() && |bufs| == n && disk == device
      ensures forall b :: 0 <= b < n ==> !bufs[b].valid && bufs[b].refcnt == 0
    {
      bufs := seq(n, _ => Buf(false, 0, 0, 0, []));
      disk := device;
      prev, next := map[HEAD := HEAD], map[HEAD := HEAD];
      order, stamp, clock := [], map[], 0;
      new;
      assert LinkAt(Whole([]), next, 0) && BackAt(Whole([]), prev, 0);
      var b := 0;
      while b < n
        invariant 0 <= b <= n == |bufs| && disk == device
        invariant bufs == seq(n, _ => Buf(false, 0, 0, 0, []))
        invariant Permutation(order, b) && Recent(order, stamp, clock)
        invariant Chained(Whole(order), next) && BackChained(Whole(order), prev)
      {
        LinkIn(order, b, next, prev, stamp, clock);
        next := next[b := next[HEAD]];
        prev := prev[b := HEAD];
        prev := prev[next[HEAD] := b];
        next := next[HEAD := b];
        order := [b] + order;
        stamp := stamp[b := clock];
        clock := clock + 1;
        b := b + 1;
      }
    }

    /** There is a buffer for the block: one that stands for it already, or an idle one. */
    ghost predicate Recyclable(dev: int, blockno: int)
      reads this
    {
      exists b :: 0 <= b < |bufs| && (bufs[b].refcnt == 0 || (bufs[b].dev == dev && bufs[b].blockno == blockno))
    }

    /** The buffer that caches the block, or -1; the search follows the list from its head. */
    method Find(dev: int, blockno: int) returns (b: int)
      requires Listed()
      ensures b != HEAD ==> 0 <= b < |bufs| && bufs[b].dev == dev && bufs[b].blockno == blockno
      ensures b == HEAD ==> forall c :: 0 <= c < |bufs| ==> !(bufs[c].dev == dev && bufs[c].blockno == blockno)
    {
      hide Chained, BackChained, Recent, NoDup;
      ghost var ring := Whole(order);
      ghost var i := After(0, |ring|);
      ChainedAt(ring, next, 0);
      b := next[HEAD];
      while b != HEAD
        invariant 0 <= i < |ring| && b == ring[i]
        invariant forall j :: 1 <= j < (if i == 0 then |ring| else i) ==>
                    0 <= ring[j] < |bufs| && !(bufs[ring[j]].dev == dev && bufs[ring[j]].blockno == blockno)
        decreases if i == 0 then 0 else |ring| - i
      {
        assert b in order by { OnList(order, i); }
        if bufs[b].dev == dev && bufs[b].blockno == blockno {
          return;
        }
        ChainedAt(ring, next, i);
        b := next[b];
        i := After(i, |ring|);
      }
      HeadOnly(order, i);
      forall c | 0 <= c < |bufs|
        ensures !(bufs[c].dev == dev && bufs[c].blockno == blockno)
      {
        assert c in order;
        var j :| 0 <= j < |order| && order[j] == c;
        assert ring[j + 1] == c;
      }
    }

    /** The unreferenced buffer released longest ago; the search follows the list backwards. */
    method Oldest() returns (b: int)
      requires Listed() && exists c :: 0 <= c < |bufs| && bufs[c].refcnt == 0
      ensures 0 <= b < |bufs| && bufs[b].refcnt == 0 && b in stamp
      ensures forall c :: 0 <= c < |bufs| && bufs[c].refcnt == 0 ==> c in stamp && stamp[b] <= stamp[c]
    {
      hide Chained, BackChained, NoDup;
      ghost var ring := Whole(order);
      ghost var i := |ring| - 1;
      SomeIdle(order, bufs);
      BackChainedAt(ring, prev, i);
      b := prev[HEAD];
      while b != HEAD
        invariant 0 <= i < |ring| && b == ring[i]
        invariant forall j :: i < j < |ring| ==> 0 <= ring[j] < |bufs| && bufs[ring[j]].refcnt != 0
        decreases i
      {
        assert b in order by { OnList(order, i); }
        if bufs[b].refcnt == 0 {
          Latest(order, stamp, clock, bufs, i);
          return;
        }
        OnList(order, i);
        BackChainedAt(ring, prev, i - 1);
        b := prev[b];
        i := i - 1;
      }
      HeadOnly(order, i);
      assert false;
    }

    /** bget(): the buffer that stands for the block, recycling the oldest idle one if there is none yet. */
    method Bget(dev: int, blockno: int) returns (b: int)
      requires Valid() && dev != 0 && Recyclable(dev, blockno)
      modifies `bufs
      ensures Valid() && |bufs| == |old(bufs)| && 0 <= b < |bufs|
      ensures bufs[b].dev == dev && bufs[b].blockno == blockno && bufs[b].refcnt > 0
      ensures SameBlocks(old(bufs), disk, bufs, disk)
      ensures var before := old(bufs)[b];
              bufs == old(bufs)[b := if At(before, dev, blockno) then before.(refcnt := before.refcnt + 1)
                                     else before.(dev := dev, blockno := blockno, valid := false, refcnt := 1)]
      ensures !(old(bufs)[b].dev == dev && old(bufs)[b].blockno == blockno) ==>
                && (forall c :: 0 <= c < |bufs| ==> !(old(bufs)[c].dev == dev && old(bufs)[c].blockno == blockno))
                && old(bufs)[b].refcnt == 0
                && (forall c :: 0 <= c < |bufs| && old(bufs)[c].refcnt == 0 ==>
                      b in stamp && c in stamp && stamp[b] <= stamp[c])
    {
      hide Chained, BackChained, Recent, Permutation, Unique, SameBlocks;
      b := Find(dev, blockno);
      if b != HEAD {
        CountOnly(bufs, disk, b, bufs[b].refcnt + 1);
        bufs := bufs[b := bufs[b].(refcnt := bufs[b].refcnt + 1)];
        return;
      }
      b := Oldest();
      Recycled(bufs, disk, b, dev, blockno);
      bufs := bufs[b := bufs[b].(dev := dev, blockno := blockno, valid := false, refcnt := 1)];
    }

    /** bread() on the buffer that bget() found: its data are the block's contents. */
    method Bread(dev: int, blockno: int) returns (b: int)
      requires Valid() && dev != 0 && Recyclable(dev, blockno)
      modifies `bufs
      ensures Valid() && |bufs| == |old(bufs)| && 0 <= b < |bufs| && bufs[b].refcnt > 0
      ensures SameBlocks(old(bufs), disk, bufs, disk)
      ensures Caches(bufs, b, (dev, blockno)) && bufs[b].data == Logical(old(bufs), disk, (dev, blockno))
      ensures Fetched(old(bufs), bufs, disk, b, dev, blockno)
    {
      hide Chained, BackChained, Recent, Permutation, SameBlocks, Logical;
      ghost var bufs0 := bufs;
      b := Bget(dev, blockno);
      ghost var bufs1 := bufs;
      SameSelf(bufs1, disk);
      if !bufs[b].valid {
        FilledIn(bufs, disk, b);
        bufs := bufs[b := bufs[b].(valid := true, data := OnDisk(disk, (dev, blockno)))];
      }
      SameTrans(bufs0, bufs1, bufs, disk, (dev, blockno));
      LogicalIs(bufs, disk, (dev, blockno), b);
    }

    /** The holder of a buffer changes its data; only that block is affected. */
    method Modify(b: int, data: Data)
      requires Valid() && 0 <= b < |bufs| && bufs[b].refcnt > 0 && bufs[b].valid && bufs[b].dev != 0
      modifies `bufs
      ensures Valid() && bufs == old(bufs)[b := old(bufs)[b].(data := data)]
      ensures forall p: Place :: p.0 != 0 ==>
                Logical(bufs, disk, p) ==
                if p == (bufs[b].dev, bufs[b].blockno) then data else Logical(old(bufs), disk, p)
    {
      hide Chained, BackChained, Recent, Permutation;
      ghost var bufs0 := bufs;
      bufs := bufs[b := bufs[b].(data := data)];
      forall p: Place | p.0 != 0
        ensures Logical(bufs, disk, p) == if p == (bufs[b].dev, bufs[b].blockno) then data else Logical(bufs0, disk, p)
      {
        if p == (bufs[b].dev, bufs[b].blockno) {
          LogicalIs(bufs, disk, p, b);
        } else {
          OtherBlock(bufs0, disk, b, bufs0[b].(data := data), p);
        }
      }
    }

    /** bwrite(): the disk catches up with the buffer. */
    method Bwrite(b: int)
      requires Valid() && 0 <= b < |bufs| && bufs[b].refcnt > 0 && bufs[b].valid && bufs[b].dev != 0
      modifies `disk
      ensures Valid() && SameBlocks(bufs, old(disk), bufs, disk) && Clean(bufs[b], disk)
      ensures disk == old(disk)[(bufs[b].dev, bufs[b].blockno) := bufs[b].data]
    {
      hide Chained, BackChained, Recent, Permutation, SameBlocks;
      WrittenOut(bufs, disk, b);
      disk := disk[(bufs[b].dev, bufs[b].blockno) := bufs[b].data];
    }

    /** brelse(): a buffer given up for good goes to the front of the list.  The cache stays sound exactly
        if such a buffer is clean. */
    method Brelse(b: int)
      requires Valid() && 0 <= b < |bufs| && bufs[b].refcnt > 0
      modifies `bufs, `next, `prev, `order, `stamp, `clock
      ensures Listed() && Unique(bufs) && bufs == old(bufs)[b := old(bufs)[b].(refcnt := old(bufs)[b].refcnt - 1)]
      ensures Valid() <==> (old(bufs)[b].refcnt == 1 ==> Clean(bufs[b], disk))
      ensures SameBlocks(old(bufs), disk, bufs, disk)
      ensures bufs[b].refcnt == 0 ==> Newest(order, stamp, b) && stamp == old(stamp)[b := old(clock)]
      ensures bufs[b].refcnt != 0 ==>
                order == old(order) && stamp == old(stamp) && next == old(next) && prev == old(prev)
    {
      hide Chained, BackChained, Recent, Permutation, Unique, SameBlocks;
      CountOnly(bufs, disk, b, bufs[b].refcnt - 1);
      bufs := bufs[b := bufs[b].(refcnt := bufs[b].refcnt - 1)];
      if bufs[b].refcnt == 0 {
        MoveToFront(b);
      }
    }

    /** Unlinks a buffer and links it in again behind the head. */
    method MoveToFront(b: int)
      requires Listed() && 0 <= b < |bufs|
      modifies `next, `prev, `order, `stamp, `clock
      ensures Listed() && Newest(order, stamp, b) && stamp == old(stamp)[b := old(clock)]
    {
      hide Chained, BackChained, Recent, Permutation, NoDup, Drop, Put, Newest;
      ghost var k := PlaceOf(order, |bufs|, b);
      ghost var ring := Whole(order);
      ghost var rest := Drop(ring, k + 1);
      Neighbours(order, |bufs|, k, next, prev);
      DropChained(ring, k, next);
      DropBackChained(ring, k, prev);
      DropAt(ring, k + 1);
      prev := prev[next[b] := prev[b]];
      next := next[prev[b] := next[b]];
      assert next == old(next)[ring[k] := old(next)[b]];
      PutChained(rest, 0, b, next);
      PutBackChained(rest, 0, b, prev);
      ChainedAt(rest, next, 0);
      ghost var next1, prev1 := next, prev;
      next := next[b := next[HEAD]];
      prev := prev[b := HEAD];
      prev := prev[next[HEAD] := b];
      next := next[HEAD := b];
      FrontWhole(order, k);
      ToFront(order, k, |bufs|, stamp, clock);
      order := [b] + Drop(order, k);
      stamp := stamp[b := clock];
      clock := clock + 1;
      FirstNewest(order, stamp, clock, b);
    }

    /** bpin() and bunpin() change the count alone; an unpinned buffer that becomes idle has to be clean. */
    method Bpin(b: int)
      requires Valid() && 0 <= b < |bufs|
      modifies `bufs
      ensures Valid() && bufs == old(bufs)[b := old(bufs)[b].(refcnt := old(bufs)[b].refcnt + 1)]
      ensures SameBlocks(old(bufs), disk, bufs, disk)
    {
      hide Chained, BackChained, Recent, Permutation, Unique, SameBlocks;
      CountOnly(bufs, disk, b, bufs[b].refcnt + 1);
      bufs := bufs[b := bufs[b].(refcnt := bufs[b].refcnt + 1)];
    }

    method Bunpin(b: int)
      requires Valid() && 0 <= b < |bufs| && bufs[b].refcnt > 0
      modifies `bufs
      ensures Listed() && Unique(bufs) && bufs == old(bufs)[b := old(bufs)[b].(refcnt := old(bufs)[b].refcnt - 1)]
      ensures Valid() <==> (old(bufs)[b].refcnt == 1 ==> Clean(bufs[b], disk))
      ensures SameBlocks(old(bufs), disk, bufs, disk)
    {
      hide Chained, BackChained, Recent, Permutation, Unique, SameBlocks;
      CountOnly(bufs, disk, b, bufs[b].refcnt - 1);
      bufs := bufs[b := bufs[b].(refcnt := bufs[b].refcnt - 1)];
    }
  }

  lemma LinkIn(order: seq<int>, b: nat, next: map<int, int>, prev: map<int, int>, stamp: map<int, int>, clock: int)
    requires Permutation(order, b) && Recent(order, stamp, clock) && Chained(Whole(order), next)
    requires BackChained(Whole(order), prev)
    ensures HEAD in next && Permutation([b] + order, b + 1) && Recent([b] + order, stamp[b := clock], clock + 1)
    ensures Chained(Whole([b] + order), next[b := next[HEAD]][HEAD := b])
    ensures BackChained(Whole([b] + order), prev[b := HEAD][next[HEAD] := b])
  {
    var ring := Whole(order);
    ChainedAt(ring, next, 0);
    PutChained(ring, 0, b, next);
    PutBackChained(ring, 0, b, prev);
    PutNoDup(ring, 0, b);
    assert Put(ring, 0, b) == Whole([b] + order);
    hide Chained, BackChained, NoDup;
  }

  ghost predicate Newest(order: seq<int>, stamp: map<int, int>, b: int) {
    && |order| > 0 && order[0] == b && b in stamp
    && forall c :: c in order && c != b ==> c in stamp && stamp[c] < stamp[b]
  }

  lemma FirstNewest(order: seq<int>, stamp: map<int, int>, clock: int, b: int)
    requires Recent(order, stamp, clock) && |order| > 0 && order[0] == b
    ensures Newest(order, stamp, b)
  {
    forall c | c in order && c != b
      ensures c in stamp && stamp[c] < stamp[b]
    {
      var j :| 0 <= j < |order| && order[j] == c;
    }
  }

  lemma PlaceOf(order: seq<int>, n: nat, b: int) returns (k: nat)
    requires Permutation(order, n) && 0 <= b < n
    ensures k < |order| && order[k] == b
  {
    assert b in order;
    var j :| 0 <= j < |order| && order[j] == b;
    k := j;
  }

  lemma Neighbours(order: seq<int>, n: nat, k: nat, next: map<int, int>, prev: map<int, int>)
    requires Permutation(order, n) && k < |order| && Chained(Whole(order), next) && BackChained(Whole(order), prev)
    ensures var ring := Whole(order);
            && NoDup(ring) && ring[k + 1] == order[k] && order[k] != HEAD && |ring| == |order| + 1 && ring[0] == HEAD
            && order[k] in next && next[order[k]] == ring[After(k + 1, |ring|)]
            && order[k] in prev && prev[order[k]] == ring[k] && ring[k] != order[k]
            && ring[After(k + 1, |ring|)] != order[k]
  {
    var ring := Whole(order);
    assert ring[0] == HEAD && ring[k + 1] == order[k];
    ChainedAt(ring, next, k + 1);
    BackChainedAt(ring, prev, k);
    hide Chained, BackChained;
  }

  lemma SameSelf(bufs: seq<Buf>, disk: map<Place, Data>)
    ensures SameBlocks(bufs, disk, bufs, disk)
  {
  }

  lemma SameTrans(a: seq<Buf>, b: seq<Buf>, c: seq<Buf>, disk: map<Place, Data>, q: Place)
    requires SameBlocks(a, disk, b, disk) && SameBlocks(b, disk, c, disk)
    ensures SameBlocks(a, disk, c, disk) && (q.0 != 0 ==> Logical(c, disk, q) == Logical(a, disk, q))
  {
    hide Logical;
    forall p
      ensures SameAt(a, disk, c, disk, p)
    {
      assert SameAt(a, disk, b, disk, p) && SameAt(b, disk, c, disk, p);
    }
    assert SameAt(a, disk, c, disk, q);
  }

  lemma SomeIdle(order: seq<int>, bufs: seq<Buf>)
    requires Permutation(order, |bufs|) && exists c :: 0 <= c < |bufs| && bufs[c].refcnt == 0
    ensures exists j :: 0 < j < |Whole(order)| && 0 <= Whole(order)[j] < |bufs| && bufs[Whole(order)[j]].refcnt == 0
  {
    hide NoDup;
    var c :| 0 <= c < |bufs| && bufs[c].refcnt == 0;
    assert c in order;
    var j :| 0 <= j < |order| && order[j] == c;
    assert Whole(order)[j + 1] == c;
  }

  lemma Latest(order: seq<int>, stamp: map<int, int>, clock: int, bufs: seq<Buf>, i: int)
    requires Permutation(order, |bufs|) && Recent(order, stamp, clock) && 0 < i < |Whole(order)|
    requires 0 <= Whole(order)[i] < |bufs|
    requires forall j :: i < j < |Whole(order)| ==> 0 <= Whole(order)[j] < |bufs| && bufs[Whole(order)[j]].refcnt != 0
    ensures Whole(order)[i] in stamp
    ensures forall c :: 0 <= c < |bufs| && bufs[c].refcnt == 0 ==> c in stamp && stamp[Whole(order)[i]] <= stamp[c]
  {
    hide NoDup;
    assert Whole(order)[i] == order[i - 1];
    forall c | 0 <= c < |bufs| && bufs[c].refcnt == 0
      ensures c in stamp && stamp[Whole(order)[i]] <= stamp[c]
    {
      assert c in order;
      var j :| 0 <= j < |order| && order[j] == c;
      assert Whole(order)[j + 1] == c;
    }
  }

  lemma OnList(order: seq<int>, i: int)
    requires 0 <= i < |Whole(order)| && Whole(order)[i] != HEAD
    ensures i > 0 && Whole(order)[i] == order[i - 1] && Whole(order)[i] in order
  {
  }

  lemma HeadOnly(order: seq<int>, i: int)
    requires NoDup(Whole(order)) && 0 <= i < |Whole(order)| && Whole(order)[i] == HEAD
    ensures i == 0
  {
    assert Whole(order)[0] == HEAD;
  }
}
