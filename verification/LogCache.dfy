/**
 * kernel/log.c on top of kernel/bio.c: log_write, commit and recovery as they use the buffer cache.
 *
 * The cache stays sound only if a buffer is clean when the last reference to it goes. Here every
 * reference is accounted for: a buffer has one for each holder and one if the log has pinned its block.
 */
module LogCache {
  import opened Base
  import opened Bio
  import opened RedoLog

  const DEV: int := 1

  predicate Pins(b: Buf, pins: set<int>) {
    b.dev == DEV && b.blockno in pins
  }

  ghost predicate CountAt(bufs: seq<Buf>, pins: set<int>, held: set<int>, b: int) {
    0 <= b < |bufs| ==> bufs[b].refcnt == (if b in held then 1 else 0) + if Pins(bufs[b], pins) then 1 else 0
  }

  ghost predicate InCache(bufs: seq<Buf>, x: int) {
    exists b :: Caches(bufs, b, (DEV, x))
  }

  /** Every reference is a holder's or the log's, and every pinned block is in a buffer. */
  ghost predicate Counted(bufs: seq<Buf>, pins: set<int>, held: set<int>) {
    && (forall b :: CountAt(bufs, pins, held, b))
    && (forall x :: x in pins ==> InCache(bufs, x))
    && (forall b :: b in held ==> 0 <= b < |bufs| && bufs[b].valid && bufs[b].dev == DEV)
  }

  lemma FetchCounted(bufs: seq<Buf>, bufs': seq<Buf>, disk: map<Place, Data>, pins: set<int>, held: set<int>, b: int,
                     x: int)
    requires Counted(bufs, pins, held) && Fetched(bufs, bufs', disk, b, DEV, x) && Unique(bufs)
    requires forall c :: c in held ==> bufs[c].blockno != x
    ensures Counted(bufs', pins, held + {b}) && b !in held
    ensures bufs'[b].refcnt == if x in pins then 2 else 1
  {
    assert CountAt(bufs, pins, held, b);
    if x in pins {
      assert InCache(bufs, x);
      var c :| Caches(bufs, c, (DEV, x));
      assert At(bufs[c], DEV, x);
    }
    forall c ensures CountAt(bufs', pins, held + {b}, c) {
      assert CountAt(bufs, pins, held, c);
    }
    forall y | y in pins ensures InCache(bufs', y) {
      assert InCache(bufs, y);
      var c :| Caches(bufs, c, (DEV, y));
      assert CountAt(bufs, pins, held, c);
      assert Caches(bufs', if y == x then b else c, (DEV, y));
    }
  }

  lemma ReleaseCounted(bufs: seq<Buf>, pins: set<int>, held: set<int>, b: int)
    requires Counted(bufs, pins, held) && b in held
    ensures Counted(bufs[b := bufs[b].(refcnt := bufs[b].refcnt - 1)], pins, held - {b})
  {
    var bufs' := bufs[b := bufs[b].(refcnt := bufs[b].refcnt - 1)];
    forall c ensures CountAt(bufs', pins, held - {b}, c) {
      assert CountAt(bufs, pins, held, c);
    }
    SameCaches(bufs, bufs', pins);
  }

  lemma SameCaches(bufs: seq<Buf>, bufs': seq<Buf>, pins: set<int>)
    requires |bufs| == |bufs'| && forall x :: x in pins ==> InCache(bufs, x)
    requires forall c :: 0 <= c < |bufs| ==> bufs'[c].valid == bufs[c].valid && SamePlace(bufs'[c], bufs[c])
    ensures forall x :: x in pins ==> InCache(bufs', x)
  {
    forall x | x in pins ensures InCache(bufs', x) {
      assert InCache(bufs, x);
      var c :| Caches(bufs, c, (DEV, x));
      assert Caches(bufs', c, (DEV, x));
    }
  }

  lemma ModifyCounted(bufs: seq<Buf>, pins: set<int>, held: set<int>, b: int, data: Data)
    requires Counted(bufs, pins, held) && 0 <= b < |bufs|
    ensures Counted(bufs[b := bufs[b].(data := data)], pins, held)
  {
    var bufs' := bufs[b := bufs[b].(data := data)];
    forall c ensures CountAt(bufs', pins, held, c) {
      assert CountAt(bufs, pins, held, c);
    }
    SameCaches(bufs, bufs', pins);
  }

  lemma PinCounted(bufs: seq<Buf>, pins: set<int>, held: set<int>, b: int)
    requires Counted(bufs, pins, held) && Unique(bufs) && b in held && bufs[b].blockno !in pins
    ensures Counted(bufs[b := bufs[b].(refcnt := bufs[b].refcnt + 1)], pins + {bufs[b].blockno}, held)
  {
    var bufs', x := bufs[b := bufs[b].(refcnt := bufs[b].refcnt + 1)], bufs[b].blockno;
    forall c ensures CountAt(bufs', pins + {x}, held, c) {
      assert CountAt(bufs, pins, held, c);
      assert 0 <= c < |bufs| && Pins(bufs[c], {x}) ==> SamePlace(bufs[b], bufs[c]);
    }
    SameCaches(bufs, bufs', pins);
    assert Caches(bufs', b, (DEV, x));
  }

  lemma UnpinCounted(bufs: seq<Buf>, pins: set<int>, held: set<int>, b: int)
    requires Counted(bufs, pins, held) && Unique(bufs) && b in held && bufs[b].blockno in pins
    ensures Counted(bufs[b := bufs[b].(refcnt := bufs[b].refcnt - 1)], pins - {bufs[b].blockno}, held)
  {
    var bufs', x := bufs[b := bufs[b].(refcnt := bufs[b].refcnt - 1)], bufs[b].blockno;
    forall c ensures CountAt(bufs', pins - {x}, held, c) {
      assert CountAt(bufs, pins, held, c);
      assert 0 <= c < |bufs| && Pins(bufs[c], {x}) ==> SamePlace(bufs[b], bufs[c]);
    }
    SameCaches(bufs, bufs', pins - {x});
  }

  // ---- There is always a buffer, unless the log fills the cache ----

  function Below(held: set<int>, n: int): set<int> {
    set b | b in held && b < n
  }

  ghost function PinBlocks(bufs: seq<Buf>, pins: set<int>, n: nat): set<int>
    requires n <= |bufs|
  {
    set b | 0 <= b < n && Pins(bufs[b], pins) :: bufs[b].blockno
  }

  lemma PinMore(bufs: seq<Buf>, pins: set<int>, n: nat)
    requires Unique(bufs) && n < |bufs|
    ensures |PinBlocks(bufs, pins, n + 1)| == |PinBlocks(bufs, pins, n)| + if Pins(bufs[n], pins) then 1 else 0
  {
    var p := PinBlocks(bufs, pins, n);
    if Pins(bufs[n], pins) {
      assert PinBlocks(bufs, pins, n + 1) == p + {bufs[n].blockno};
      forall b | 0 <= b < n && Pins(bufs[b], pins) ensures bufs[b].blockno != bufs[n].blockno {
        assert !SamePlace(bufs[b], bufs[n]);
      }
    } else {
      assert PinBlocks(bufs, pins, n + 1) == p;
    }
  }

  lemma BelowMore(held: set<int>, n: int)
    ensures |Below(held, n + 1)| == |Below(held, n)| + if n in held then 1 else 0
  {
    assert Below(held, n + 1) == if n in held then Below(held, n) + {n} else Below(held, n);
  }

  /** With the first n buffers all in use there are n holders and pinned blocks. */
  lemma {:induction false} InUse(bufs: seq<Buf>, pins: set<int>, held: set<int>, n: nat)
    requires Counted(bufs, pins, held) && Unique(bufs) && n <= |bufs| && forall b :: 0 <= b < n ==> bufs[b].refcnt > 0
    ensures n <= |PinBlocks(bufs, pins, n)| + |Below(held, n)|
  {
    hide PinBlocks, Below, Unique, Pins;
    if n > 0 {
      InUse(bufs, pins, held, n - 1);
      assert CountAt(bufs, pins, held, n - 1);
      PinMore(bufs, pins, n - 1);
      BelowMore(held, n - 1);
    }
  }

  lemma SomeBuffer(bufs: seq<Buf>, pins: set<int>, held: set<int>)
    requires Counted(bufs, pins, held) && Unique(bufs) && |pins| + |held| < |bufs|
    ensures exists b :: 0 <= b < |bufs| && bufs[b].refcnt == 0
  {
    if forall b :: 0 <= b < |bufs| ==> bufs[b].refcnt != 0 {
      forall b | 0 <= b < |bufs| ensures bufs[b].refcnt > 0 {
        assert CountAt(bufs, pins, held, b);
      }
      InUse(bufs, pins, held, |bufs|);
      SubsetBound(PinBlocks(bufs, pins, |bufs|), pins);
      SubsetBound(Below(held, |bufs|), held);
    }
  }

  /** There are no more pinned blocks in the first n buffers than buffers with one. */
  lemma {:induction false} PinBound(bufs: seq<Buf>, pins: set<int>, n: nat, b: int)
    requires n <= |bufs| && 0 <= b < |bufs|
    ensures |PinBlocks(bufs, pins, n)| <= n
    ensures b < n && !Pins(bufs[b], pins) ==> |PinBlocks(bufs, pins, n)| < n
  {
    if n > 0 {
      PinBound(bufs, pins, n - 1, b);
      var p := PinBlocks(bufs, pins, n - 1);
      if Pins(bufs[n - 1], pins) {
        assert PinBlocks(bufs, pins, n) == p + {bufs[n - 1].blockno};
      } else {
        assert PinBlocks(bufs, pins, n) == p;
      }
    } else {
      assert PinBlocks(bufs, pins, n) == {};
    }
  }

  /** Once the log has pinned as many blocks as there are buffers, every buffer holds one of them: bget
      has none to give when commit asks for a log slot. */
  lemma FullCache(bufs: seq<Buf>, pins: set<int>, held: set<int>, b: int)
    requires Counted(bufs, pins, held) && |pins| >= |bufs| && 0 <= b < |bufs|
    ensures bufs[b].refcnt > 0 && bufs[b].dev == DEV && bufs[b].blockno in pins
  {
    var blocks := PinBlocks(bufs, pins, |bufs|);
    forall x | x in pins ensures x in blocks {
      assert InCache(bufs, x);
      var c :| Caches(bufs, c, (DEV, x));
      assert Pins(bufs[c], pins);
    }
    SubsetBound(pins, blocks);
    PinBound(bufs, pins, |bufs|, b);
    assert CountAt(bufs, pins, held, b);
  }

  // ---- The log's use of the cache ----

  /** The contents of all blocks of real devices. */
  type Contents = imap<Place, Data>

  ghost function ContentsOf(bufs: seq<Buf>, disk: map<Place, Data>): Contents {
    imap p: Place | p.0 != 0 :: Logical(bufs, disk, p)
  }

  lemma SameContents(bufs: seq<Buf>, disk: map<Place, Data>, bufs': seq<Buf>, disk': map<Place, Data>)
    requires SameBlocks(bufs, disk, bufs', disk')
    ensures ContentsOf(bufs', disk') == ContentsOf(bufs, disk)
  {
    hide Logical;
    forall p: Place | p.0 != 0 ensures Logical(bufs', disk', p) == Logical(bufs, disk, p) {
      assert SameAt(bufs, disk, bufs', disk', p);
    }
  }

  /** Writing one buffer out leaves the others as clean as they were. */
  lemma StillClean(bufs: seq<Buf>, disk: map<Place, Data>, b: int, c: int)
    requires Unique(bufs) && 0 <= b < |bufs| && 0 <= c < |bufs| && b != c && bufs[b].dev != 0 && Clean(bufs[c], disk)
    ensures Clean(bufs[c], disk[(bufs[b].dev, bufs[b].blockno) := bufs[b].data])
  {
    assert !SamePlace(bufs[b], bufs[c]);
  }

  /** The header block: the count and the list, over what was there. */
  function HeadData(prev: Data, lh: seq<int>): Data {
    [|lh|] + lh + if |prev| > |lh| then prev[|lh| + 1..] else []
  }

  /** The contents after the first i rounds of write_log. */
  ghost function Logged(m: Contents, g: Geometry, lh: seq<int>, i: nat): Contents
    requires i <= |lh|
  {
    if i == 0 then m else Logged(m, g, lh, i - 1)[(DEV, g.logStart + i) := At0(m, lh[i - 1])]
  }

  ghost function At0(m: Contents, x: int): Data {
    if (DEV, x) in m then m[(DEV, x)] else []
  }

  lemma {:induction false} LoggedAt(m: Contents, g: Geometry, lh: seq<int>, i: nat, x: int)
    requires i <= |lh|
    ensures At0(Logged(m, g, lh, i), x) ==
            if g.logStart < x <= g.logStart + i then At0(m, lh[x - g.logStart - 1]) else At0(m, x)
    ensures forall p :: p in m ==> p in Logged(m, g, lh, i)
  {
    if i > 0 {
      LoggedAt(m, g, lh, i - 1, x);
    }
  }

  function Listed(lh: seq<int>): set<int> {
    set x | x in lh
  }

  ghost predicate Distinct(lh: seq<int>) {
    forall i, j :: 0 <= i < j < |lh| ==> lh[i] != lh[j]
  }

  lemma ListedRest(lh: seq<int>, i: nat)
    requires i < |lh| && Distinct(lh)
    ensures lh[i] in Listed(lh[i..]) && Listed(lh[i + 1..]) == Listed(lh[i..]) - {lh[i]}
  {
    assert lh[i..][0] == lh[i] && lh[i..] == [lh[i]] + lh[i + 1..];
    assert lh[i] !in lh[i + 1..];
  }

  lemma {:induction false} ListedSize(lh: seq<int>)
    ensures |Listed(lh)| <= |lh|
    decreases |lh|
  {
    if |lh| > 0 {
      var n := |lh| - 1;
      ListedSize(lh[..n]);
      assert lh == lh[..n] + [lh[n]];
      assert Listed(lh) == Listed(lh[..n]) + {lh[n]};
    } else {
      assert Listed(lh) == {};
    }
  }

  lemma {:induction false} ListedExact(lh: seq<int>)
    requires Distinct(lh)
    ensures |Listed(lh)| == |lh|
    decreases |lh|
  {
    if |lh| > 0 {
      var n := |lh| - 1;
      ListedExact(lh[..n]);
      assert lh == lh[..n] + [lh[n]] && lh[n] !in lh[..n];
      assert Listed(lh) == Listed(lh[..n]) + {lh[n]};
    } else {
      assert Listed(lh) == {};
    }
  }

  class CachedLog {
    const g: Geometry
    const cache: Cache
    /** log_lh: the blocks of the transaction. */
    var lh: seq<int>
    /** The blocks that the log has pinned. */
    ghost var pins: set<int>

    ghost function Now(): Contents
      reads this, cache
    {
      ContentsOf(cache.bufs, cache.disk)
    }

    ghost predicate Steady(held: set<int>)
      reads this, cache
    {
      && cache.Valid() && Counted(cache.bufs, pins, held) && g.logStart + LOGBLOCKS < g.size
      && (forall x :: x in pins ==> IsHome(g, x)) && (forall x :: 0 <= x < g.size ==> (DEV, x) in cache.disk)
    }

    /** Between calls: exactly the blocks of the transaction are pinned, and nobody holds a buffer. */
    ghost predicate Ready()
      reads this, cache
    {
      Steady({}) && pins == Listed(lh) && Distinct(lh) && |lh| <= LOGBLOCKS
    }

    constructor (g: Geometry, cache: Cache)
      requires cache.Valid() && g.logStart + LOGBLOCKS < g.size
      requires forall x :: 0 <= x < g.size ==> (DEV, x) in cache.disk
      requires forall b :: 0 <= b < |cache.bufs| ==> cache.bufs[b].refcnt == 0
      ensures Ready() && this.g == g && this.cache == cache && lh == []
    {
      this.g, this.cache, lh, pins := g, cache, [], {};
      new;
      forall b ensures CountAt(cache.bufs, {}, {}, b) { }
    }

    method Get(x: int, ghost held: set<int>) returns (b: int)
      requires Steady(held) && 0 <= x < g.size && (x in pins || |pins| + |held| < |cache.bufs|)
      requires forall c :: c in held && 0 <= c < |cache.bufs| ==> cache.bufs[c].blockno != x
      modifies cache`bufs
      ensures Steady(held + {b}) && b !in held && 0 <= b < |cache.bufs| == |old(cache.bufs)| && Now() == old(Now())
      ensures Caches(cache.bufs, b, (DEV, x)) && cache.bufs[b].data == At0(Now(), x)
      ensures forall c :: c in held ==> 0 <= c < |cache.bufs| && cache.bufs[c] == old(cache.bufs)[c]
      ensures x !in pins ==> Clean(cache.bufs[b], cache.disk)
    {
      hide Permutation, Recent, Unique, SameBlocks, Idle, Logical, Counted, ContentsOf;
      ghost var bufs0 := cache.bufs;
      HasRoom(bufs0, pins, held, x);
      HeldInside(bufs0, pins, held);
      b := cache.Bread(DEV, x);
      FetchCounted(bufs0, cache.bufs, cache.disk, pins, held, b, x);
      SameContents(bufs0, cache.disk, cache.bufs, cache.disk);
      ContentsAt(bufs0, cache.disk, x);
      if x !in pins {
        FetchedClean(bufs0, cache.bufs, cache.disk, b, DEV, x);
      }
    }

    method Put(b: int, ghost held: set<int>)
      requires Steady(held) && b in held && 0 <= b < |cache.bufs|
      requires cache.bufs[b].blockno in pins || Clean(cache.bufs[b], cache.disk)
      modifies cache`bufs, cache`next, cache`prev, cache`order, cache`stamp, cache`clock
      ensures Steady(held - {b}) && Now() == old(Now()) && |cache.bufs| == |old(cache.bufs)|
      ensures forall c :: c in held && c != b ==> 0 <= c < |cache.bufs| && cache.bufs[c] == old(cache.bufs)[c]
    {
      hide Permutation, Recent, Unique, SameBlocks, Idle, Logical, Counted, ContentsOf, Clean;
      ghost var bufs0 := cache.bufs;
      HeldInside(bufs0, pins, held);
      HeldCount(bufs0, pins, held, b);
      ReleaseCounted(bufs0, pins, held, b);
      CleanCount(bufs0[b], cache.disk, bufs0[b].refcnt - 1);
      cache.Brelse(b);
      SameContents(bufs0, cache.disk, cache.bufs, cache.disk);
    }

    /** The holder of a buffer stores new contents in it. */
    method Fill(b: int, data: Data, ghost held: set<int>)
      requires Steady(held) && b in held && 0 <= b < |cache.bufs|
      modifies cache`bufs
      ensures Steady(held) && cache.bufs == old(cache.bufs)[b := old(cache.bufs)[b].(data := data)]
      ensures Now() == old(Now())[(DEV, cache.bufs[b].blockno) := data]
    {
      hide Permutation, Recent, Unique, SameBlocks, Idle, Logical, Counted;
      HeldInside(cache.bufs, pins, held);
      HeldCount(cache.bufs, pins, held, b);
      ModifyCounted(cache.bufs, pins, held, b, data);
      cache.Modify(b, data);
    }

    method Flush(b: int, ghost held: set<int>)
      requires Steady(held) && b in held && 0 <= b < |cache.bufs|
      modifies cache`disk
      ensures Steady(held) && Now() == old(Now()) && Clean(cache.bufs[b], cache.disk)
      ensures forall c :: c in held && 0 <= c < |cache.bufs| && c != b && Clean(cache.bufs[c], old(cache.disk)) ==>
                Clean(cache.bufs[c], cache.disk)
    {
      hide Permutation, Recent, SameBlocks, Idle, Logical, Counted, Clean, ContentsOf, Unique;
      HeldInside(cache.bufs, pins, held);
      HeldCount(cache.bufs, pins, held, b);
      ghost var disk0 := cache.disk;
      cache.Bwrite(b);
      SameContents(cache.bufs, disk0, cache.bufs, cache.disk);
      forall c | c in held && 0 <= c < |cache.bufs| && c != b && Clean(cache.bufs[c], disk0)
        ensures Clean(cache.bufs[c], cache.disk)
      {
        StillClean(cache.bufs, disk0, b, c);
      }
    }

    /** bread, memmove, log_write, brelse: how the file system changes a block. */
    method Update(x: int, data: Data)
      requires Ready() && IsHome(g, x) && |lh| < LOGBLOCKS && (x in lh || |lh| < |cache.bufs|)
      modifies this, cache
      ensures Ready() && |cache.bufs| == |old(cache.bufs)| && Now() == old(Now())[(DEV, x) := data]
      ensures lh == if x in old(lh) then old(lh) else old(lh) + [x]
    {
      hide Permutation, Recent, SameBlocks, Idle, Logical, Counted, ContentsOf, Unique;
      ListedSize(lh);
      var b := Get(x, {});
      assert {} + {b} == {b};
      Fill(b, data, {b});
      ghost var bufs0 := cache.bufs;
      if x !in lh {
        PinCounted(bufs0, pins, {b}, b);
        cache.Bpin(b);
        SameContents(bufs0, cache.disk, cache.bufs, cache.disk);
        lh, pins := lh + [x], pins + {x};
      }
      Put(b, {b});
      assert {b} - {b} == {};
    }

    method ReadBlock(x: int) returns (data: Data)
      requires Ready() && 0 <= x < g.size && (x in lh || |lh| < |cache.bufs|)
      modifies cache
      ensures Ready() && |cache.bufs| == |old(cache.bufs)| && Now() == old(Now()) && data == At0(Now(), x)
    {
      hide Permutation, Recent, SameBlocks, Idle, Logical, Counted, ContentsOf, Unique;
      ListedSize(lh);
      var b := Get(x, {});
      assert {} + {b} == {b};
      data := cache.bufs[b].data;
      Put(b, {b});
      assert {b} - {b} == {};
    }

    /** What writei does when the copy from user memory faults half-way: the buffer is released with new
        contents that were not logged.  The cache stays sound exactly if the block was logged before, and is
        committed with the torn contents, or if nothing has changed.  Otherwise an idle buffer is not clean,
        and recycling it loses the new contents. */
    method Torn(x: int, data: Data)
      requires Ready() && 0 <= x < g.size && (x in lh || |lh| < |cache.bufs|)
      modifies cache
      ensures cache.Valid() <==> x in lh || data == At0(old(Now()), x)
      ensures cache.Valid() ==> Ready() && Now() == old(Now())[(DEV, x) := data]
      ensures !cache.Valid() ==> exists b :: 0 <= b < |cache.bufs| && Caches(cache.bufs, b, (DEV, x))
                                             && cache.bufs[b].refcnt == 0 && cache.bufs[b].data == data
                                             && !Clean(cache.bufs[b], cache.disk)
    {
      hide Permutation, Recent, SameBlocks, Idle, Logical, Counted, ContentsOf, Unique;
      ListedSize(lh);
      var b := Get(x, {});
      assert {} + {b} == {b};
      var same := x in lh || cache.bufs[b].data == data;
      Fill(b, data, {b});
      if same {
        Put(b, {b});
        assert {b} - {b} == {};
      } else {
        HeldCount(cache.bufs, pins, {b}, b);
        cache.Brelse(b);
        assert cache.bufs[b].refcnt == 0 && !Clean(cache.bufs[b], cache.disk);
      }
    }

    /** One round of write_log: a block of the transaction goes to its log slot, in the cache and on disk. */
    method LogOne(tail: nat)
      requires Ready() && tail < |lh| < |cache.bufs|
      modifies cache
      ensures Ready() && |cache.bufs| == |old(cache.bufs)|
      ensures Now() == old(Now())[(DEV, g.logStart + tail + 1) := At0(old(Now()), lh[tail])]
    {
      hide Permutation, Recent, SameBlocks, Idle, Logical, Counted, ContentsOf, Unique, Clean;
      ListedSize(lh);
      assert lh[tail] in pins;
      var to := Get(g.logStart + tail + 1, {});
      assert {} + {to} == {to};
      var from := Get(lh[tail], {to});
      assert {to} + {from} == {to, from};
      Fill(to, cache.bufs[from].data, {to, from});
      Flush(to, {to, from});
      Put(from, {to, from});
      assert {to, from} - {from} == {to};
      Put(to, {to});
      assert {to} - {to} == {};
    }

    method WriteLog()
      requires Ready() && |lh| < |cache.bufs|
      modifies cache
      ensures Ready() && |cache.bufs| == |old(cache.bufs)| && Now() == Logged(old(Now()), g, lh, |lh|)
    {
      hide Steady, Listed, ContentsOf;
      for tail := 0 to |lh|
        invariant Ready() && |cache.bufs| == |old(cache.bufs)| && Now() == Logged(old(Now()), g, lh, tail)
      {
        assert IsHome(g, lh[tail]) by { ListIsHome(tail); }
        LoggedAt(old(Now()), g, lh, tail, lh[tail]);
        LogOne(tail);
      }
    }

    lemma ListIsHome(i: nat)
      requires Ready() && i < |lh|
      ensures IsHome(g, lh[i])
    {
      assert lh[i] in pins;
    }

    /** write_head: the header block gets the list and is written. */
    method WriteHead()
      requires Steady({}) && |pins| < |cache.bufs|
      modifies cache
      ensures Steady({}) && |cache.bufs| == |old(cache.bufs)|
      ensures Now() == old(Now())[(DEV, g.logStart) := HeadData(At0(old(Now()), g.logStart), lh)]
    {
      hide Permutation, Recent, SameBlocks, Idle, Logical, Counted, ContentsOf, Unique, Clean;
      var b := Get(g.logStart, {});
      assert {} + {b} == {b};
      Fill(b, HeadData(cache.bufs[b].data, lh), {b});
      Flush(b, {b});
      Put(b, {b});
      assert {b} - {b} == {};
    }

    /** One round of install_trans: the slot goes to its home block, which is no longer pinned. */
    method InstallOne(tail: nat)
      requires Steady({}) && tail < |lh| <= LOGBLOCKS && lh[tail] in pins && |pins| < |cache.bufs|
      modifies cache, `pins
      ensures Steady({}) && |cache.bufs| == |old(cache.bufs)| && pins == old(pins) - {lh[tail]}
      ensures Now() == old(Now())[(DEV, lh[tail]) := At0(old(Now()), g.logStart + tail + 1)]
    {
      hide Permutation, Recent, SameBlocks, Idle, Logical, Counted, ContentsOf, Unique, Clean;
      var lbuf := Get(g.logStart + tail + 1, {});
      assert {} + {lbuf} == {lbuf};
      var dbuf := Get(lh[tail], {lbuf});
      assert {lbuf} + {dbuf} == {lbuf, dbuf};
      Fill(dbuf, cache.bufs[lbuf].data, {lbuf, dbuf});
      Flush(dbuf, {lbuf, dbuf});
      Unpin(dbuf, {lbuf, dbuf});
      Put(lbuf, {lbuf, dbuf});
      assert {lbuf, dbuf} - {lbuf} == {dbuf};
      Put(dbuf, {dbuf});
      assert {dbuf} - {dbuf} == {};
    }

    /** bunpin on a buffer that its holder has just written out. */
    method Unpin(b: int, ghost held: set<int>)
      requires Steady(held) && b in held && 0 <= b < |cache.bufs| && cache.bufs[b].blockno in pins
      modifies cache`bufs, `pins
      ensures Steady(held) && Now() == old(Now()) && pins == old(pins) - {old(cache.bufs)[b].blockno}
      ensures cache.bufs == old(cache.bufs)[b := old(cache.bufs)[b].(refcnt := old(cache.bufs)[b].refcnt - 1)]
      ensures Clean(cache.bufs[b], cache.disk) <==> Clean(old(cache.bufs)[b], cache.disk)
    {
      hide Permutation, Recent, SameBlocks, Idle, Logical, Counted, ContentsOf, Unique, Clean;
      ghost var bufs0 := cache.bufs;
      HeldCount(bufs0, pins, held, b);
      UnpinCounted(bufs0, pins, held, b);
      CleanCount(bufs0[b], cache.disk, bufs0[b].refcnt - 1);
      cache.Bunpin(b);
      SameContents(bufs0, cache.disk, cache.bufs, cache.disk);
      pins := pins - {bufs0[b].blockno};
    }

    /** install_trans after a commit: the slots hold what the home blocks hold in the cache, so that only the
        disk changes. */
    method InstallTrans()
      requires Ready() && |lh| < |cache.bufs|
      requires forall i :: 0 <= i < |lh| ==> At0(Now(), g.logStart + i + 1) == At0(Now(), lh[i])
      modifies cache, `pins
      ensures Steady({}) && |cache.bufs| == |old(cache.bufs)| && pins == {} && Now() == old(Now())
    {
      hide ContentsOf, Listed;
      ListedSize(lh);
      assert lh[0..] == lh;
      for tail := 0 to |lh|
        invariant Steady({}) && |cache.bufs| == |old(cache.bufs)| && pins == Listed(lh[tail..]) && Now() == old(Now())
      {
        ListedRest(lh, tail);
        ListedSize(lh[tail..]);
        InNow(cache.bufs, cache.disk, lh[tail]);
        InstallOne(tail);
      }
      assert Listed(lh[|lh|..]) == {} by { ListedNone(lh); }
    }

    /** The work of a commit: log, header, home blocks, header. */
    method CommitList()
      requires Ready() && |lh| < |cache.bufs|
      modifies this, cache
      ensures Ready() && lh == [] && |cache.bufs| == |old(cache.bufs)|
      ensures forall x :: IsHome(g, x) ==> At0(Now(), x) == At0(old(Now()), x)
    {
      hide Logged, At0, Listed, ContentsOf, Permutation, Recent, Unique, Idle, Counted;
      ghost var m, list := Now(), lh;
      forall i | 0 <= i < |lh| ensures IsHome(g, lh[i]) { ListIsHome(i); }
      WriteLog();
      ListedSize(lh);
      WriteHead();
      ghost var m1 := Now();
      SlotsHold(m, g, lh, m1);
      InstallTrans();
      lh := [];
      assert |pins| == 0;
      WriteHead();
      assert Listed([]) == {} by { ListedNone(list); assert list[|list|..] == []; }
      ghost var written := Logged(m, g, list, |list|);
      forall x | IsHome(g, x) ensures At0(Now(), x) == At0(m, x) {
        LoggedAt(m, g, list, |list|, x);
        Elsewhere(written, g.logStart, HeadData(At0(written, g.logStart), list), x);
        Elsewhere(m1, g.logStart, HeadData(At0(m1, g.logStart), []), x);
      }
    }

    /**
     * commit: afterwards the log is empty, no block is pinned, every home block holds what it held, and the
     * disk holds it too.
     */
    method Commit()
      requires Ready() && |lh| < |cache.bufs|
      modifies this, cache
      ensures Ready() && lh == [] && |cache.bufs| == |old(cache.bufs)|
      ensures forall x :: IsHome(g, x) ==> At0(Now(), x) == At0(old(Now()), x)
      ensures forall x :: 0 <= x < g.size ==> (DEV, x) in cache.disk && cache.disk[(DEV, x)] == At0(Now(), x)
    {
      hide Permutation, Recent, SameBlocks, Logical, ContentsOf, Unique, Idle, Counted, Logged, At0;
      if |lh| > 0 {
        CommitList();
      }
      assert pins == {};
      forall x | 0 <= x < g.size ensures cache.disk[(DEV, x)] == At0(Now(), x) {
        DiskShows(cache.bufs, cache.disk, {}, x);
      }
    }

    /** A transaction that fills the cache cannot be committed: bget has no buffer for its first log slot. */
    lemma CommitStuck()
      requires Ready() && 0 < |lh| && |cache.bufs| <= |lh|
      ensures !cache.Recyclable(DEV, g.logStart + 1)
    {
      ListedExact(lh);
      var bufs := cache.bufs;
      forall b | 0 <= b < |bufs|
        ensures bufs[b].refcnt != 0 && !(bufs[b].dev == DEV && bufs[b].blockno == g.logStart + 1)
      {
        FullCache(bufs, pins, {}, b);
      }
    }
  }

  /** As many different blocks as the log holds, in a cache of as many buffers, get a commit stuck.  It takes
      calls that use up their whole reservation to log them. */
  method FillTheLog(log: CachedLog, first: int, data: Data)
    requires log.Ready() && log.lh == [] && |log.cache.bufs| == LOGBLOCKS
    requires forall x :: first <= x < first + LOGBLOCKS ==> IsHome(log.g, x)
    modifies log, log.cache
    ensures log.Ready() && |log.lh| == LOGBLOCKS && !log.cache.Recyclable(DEV, log.g.logStart + 1)
  {
    for i := 0 to LOGBLOCKS
      invariant log.Ready() && |log.lh| == i && |log.cache.bufs| == LOGBLOCKS
      invariant forall x :: x in log.lh ==> first <= x < first + i
    {
      log.Update(first + i, data);
    }
    log.CommitStuck();
  }

  lemma Elsewhere(m: Contents, y: int, data: Data, x: int)
    requires x != y
    ensures At0(m[(DEV, y) := data], x) == At0(m, x)
  {
  }

  /** The disk holds what the cache shows of a block that is not pinned. */
  lemma DiskShows(bufs: seq<Buf>, disk: map<Place, Data>, pins: set<int>, x: int)
    requires Counted(bufs, pins, {}) && Idle(bufs, disk) && Unique(bufs) && (DEV, x) in disk && x !in pins
    ensures disk[(DEV, x)] == At0(ContentsOf(bufs, disk), x)
  {
    hide Unique, Logical, ContentsOf;
    var p := (DEV, x);
    if b :| Caches(bufs, b, p) {
      assert CountAt(bufs, pins, {}, b);
      LogicalIs(bufs, disk, p, b);
    } else {
      LogicalOnDisk(bufs, disk, p);
    }
    ContentsAt(bufs, disk, x);
  }

  lemma LogicalOnDisk(bufs: seq<Buf>, disk: map<Place, Data>, p: Place)
    requires forall b :: !Caches(bufs, b, p)
    ensures Logical(bufs, disk, p) == OnDisk(disk, p)
  {
  }

  lemma InNow(bufs: seq<Buf>, disk: map<Place, Data>, x: int)
    ensures var m := ContentsOf(bufs, disk); m[(DEV, x) := At0(m, x)] == m
  {
  }

  lemma ListedNone(lh: seq<int>)
    ensures Listed(lh[|lh|..]) == {}
  {
  }

  /** After write_log and write_head every slot holds its block. */
  lemma SlotsHold(m: Contents, g: Geometry, lh: seq<int>, m': Contents)
    requires m' == Logged(m, g, lh, |lh|)[(DEV, g.logStart) := HeadData(At0(Logged(m, g, lh, |lh|), g.logStart), lh)]
    requires forall i :: 0 <= i < |lh| ==> IsHome(g, lh[i])
    requires |lh| <= LOGBLOCKS
    ensures forall i :: 0 <= i < |lh| ==> At0(m', g.logStart + i + 1) == At0(m', lh[i]) == At0(m, lh[i])
  {
    forall i | 0 <= i < |lh| ensures At0(m', g.logStart + i + 1) == At0(m', lh[i]) == At0(m, lh[i]) {
      LoggedAt(m, g, lh, |lh|, g.logStart + i + 1);
      LoggedAt(m, g, lh, |lh|, lh[i]);
    }
  }

  lemma ContentsAt(bufs: seq<Buf>, disk: map<Place, Data>, x: int)
    ensures At0(ContentsOf(bufs, disk), x) == Logical(bufs, disk, (DEV, x))
  {
  }

  lemma HasRoom(bufs: seq<Buf>, pins: set<int>, held: set<int>, x: int)
    requires Counted(bufs, pins, held) && Unique(bufs) && (x in pins || |pins| + |held| < |bufs|)
    ensures exists b :: 0 <= b < |bufs| && (bufs[b].refcnt == 0 || (bufs[b].dev == DEV && bufs[b].blockno == x))
  {
    if x in pins {
      assert InCache(bufs, x);
      var b :| Caches(bufs, b, (DEV, x));
      assert 0 <= b < |bufs| && bufs[b].dev == DEV && bufs[b].blockno == x;
    } else {
      SomeBuffer(bufs, pins, held);
      var b :| 0 <= b < |bufs| && bufs[b].refcnt == 0;
    }
  }

  lemma HeldInside(bufs: seq<Buf>, pins: set<int>, held: set<int>)
    requires Counted(bufs, pins, held)
    ensures forall b :: b in held ==> 0 <= b < |bufs| && bufs[b].valid && bufs[b].dev == DEV
  {
  }

  lemma HeldCount(bufs: seq<Buf>, pins: set<int>, held: set<int>, b: int)
    requires Counted(bufs, pins, held) && b in held
    ensures 0 <= b < |bufs| && bufs[b].refcnt == if bufs[b].blockno in pins then 2 else 1
  {
    assert CountAt(bufs, pins, held, b);
  }

  lemma CleanCount(b: Buf, disk: map<Place, Data>, n: int)
    ensures Clean(b.(refcnt := n), disk) <==> Clean(b, disk)
  {
  }

  // ---- Runs ----

  datatype Op = Write(x: int, data: Data) | Read(x: int) | Commit

  /** What a run has logged and not committed, and what it has written. */
  datatype Written = Written(lh: seq<int>, blocks: map<int, Data>)

  /** One operation, if the cache of n buffers has room for it. */
  function Next(s: Written, g: Geometry, n: nat, op: Op): Written {
    match op
    case Write(x, data) =>
      if IsHome(g, x) && |s.lh| < LOGBLOCKS && (x in s.lh || |s.lh| < n)
      then Written(if x in s.lh then s.lh else s.lh + [x], s.blocks[x := data])
      else s
    case Read(_) => s
    case Commit => if |s.lh| < n then s.(lh := []) else s
  }

  function AfterRun(g: Geometry, n: nat, ops: seq<Op>): Written {
    if |ops| == 0 then Written([], map[]) else Next(AfterRun(g, n, ops[..|ops| - 1]), g, n, ops[|ops| - 1])
  }

  /** What a read finds: the block as it was last written, or else as the device had it. */
  function Latest(device: map<Place, Data>, blocks: map<int, Data>, x: int): Data {
    if x in blocks then blocks[x] else OnDisk(device, (DEV, x))
  }

  ghost predicate Shows(m: Contents, g: Geometry, device: map<Place, Data>, blocks: map<int, Data>) {
    forall x :: IsHome(g, x) ==> At0(m, x) == Latest(device, blocks, x)
  }

  /** Operation i of a run is a read that the cache has room for. */
  predicate Readable(g: Geometry, n: nat, ops: seq<Op>, i: nat) {
    && i < |ops| && ops[i].Read? && 0 <= ops[i].x < g.size
    && var lh := AfterRun(g, n, ops[..i]).lh; ops[i].x in lh || |lh| < n
  }

  /** The reads of the first k operations found the home blocks as they were. */
  ghost predicate ReadsOk(g: Geometry, n: nat, device: map<Place, Data>, ops: seq<Op>, got: map<nat, Data>, k: nat) {
    && (forall i: nat :: i in got <==> i < k && Readable(g, n, ops, i))
    && forall i: nat :: i in got && IsHome(g, ops[i].x) ==>
                     got[i] == Latest(device, AfterRun(g, n, ops[..i]).blocks, ops[i].x)
  }

  /** The blocks that await no commit are on the disk. */
  ghost predicate Settled(m: Contents, g: Geometry, lh: seq<int>, disk: map<Place, Data>) {
    forall x :: IsHome(g, x) && x !in lh ==> OnDisk(disk, (DEV, x)) == At0(m, x)
  }

  /**
   * Any run of reads, writes and commits from boot: no reference is lost, every idle buffer is clean, every read
   * finds what was last written, and what awaits no commit is on the disk.
   */
  method Run(g: Geometry, n: nat, device: map<Place, Data>, ops: seq<Op>) returns (log: CachedLog, got: map<nat, Data>)
    requires g.logStart + LOGBLOCKS < g.size && forall x :: 0 <= x < g.size ==> (DEV, x) in device
    ensures log.Ready() && log.cache.Valid() && |log.cache.bufs| == n && log.lh == AfterRun(g, n, ops).lh
    ensures Shows(log.Now(), g, device, AfterRun(g, n, ops).blocks) && ReadsOk(g, n, device, ops, got, |ops|)
    ensures Settled(log.Now(), g, log.lh, log.cache.disk)
  {
    hide Permutation, Recent, SameBlocks, Logical, Unique, Idle, Counted, ContentsOf, At0, Settled, ReadsOk;
    var cache := new Cache(n, device);
    log := new CachedLog(g, cache);
    got := map[];
    BootShows(cache.bufs, device, g);
    assert ReadsOk(g, n, device, ops, got, 0) by { NoReads(g, n, device, ops); }
    for i := 0 to |ops|
      invariant fresh(log) && fresh(log.cache) && log.g == g && log.Ready() && |log.cache.bufs| == n
      invariant log.lh == AfterRun(g, n, ops[..i]).lh && Shows(log.Now(), g, device, AfterRun(g, n, ops[..i]).blocks)
      invariant ReadsOk(g, n, device, ops, got, i)
    {
      assert ops[..i + 1][..i] == ops[..i] && ops[..i + 1][i] == ops[i];
      ghost var m, was := log.Now(), AfterRun(g, n, ops[..i]);
      assert AfterRun(g, n, ops[..i + 1]) == Next(was, g, n, ops[i]);
      if ops[i].Write? {
        NoRead(g, n, device, ops, got, i);
        if IsHome(g, ops[i].x) && |log.lh| < LOGBLOCKS && (ops[i].x in log.lh || |log.lh| < n) {
          log.Update(ops[i].x, ops[i].data);
          WriteShows(m, g, device, was.blocks, ops[i].x, ops[i].data);
        }
      } else if ops[i].Read? {
        if 0 <= ops[i].x < g.size && (ops[i].x in log.lh || |log.lh| < n) {
          var data := log.ReadBlock(ops[i].x);
          OneRead(g, n, device, ops, got, i, m, data);
          got := got[i := data];
        } else {
          NoRead(g, n, device, ops, got, i);
        }
      } else {
        NoRead(g, n, device, ops, got, i);
        if |log.lh| < n {
          log.Commit();
        }
      }
    }
    assert ops[..|ops|] == ops;
    IsSettled(log);
  }

  lemma NoReads(g: Geometry, n: nat, device: map<Place, Data>, ops: seq<Op>)
    ensures ReadsOk(g, n, device, ops, map[], 0)
  {
  }

  lemma NoRead(g: Geometry, n: nat, device: map<Place, Data>, ops: seq<Op>, got: map<nat, Data>, i: nat)
    requires ReadsOk(g, n, device, ops, got, i) && !Readable(g, n, ops, i)
    ensures ReadsOk(g, n, device, ops, got, i + 1)
  {
    hide Readable;
  }

  lemma OneRead(g: Geometry, n: nat, device: map<Place, Data>, ops: seq<Op>, got: map<nat, Data>, i: nat, m: Contents,
                data: Data)
    requires ReadsOk(g, n, device, ops, got, i) && Readable(g, n, ops, i)
    requires Shows(m, g, device, AfterRun(g, n, ops[..i]).blocks) && data == At0(m, ops[i].x)
    ensures ReadsOk(g, n, device, ops, got[i := data], i + 1)
  {
    hide At0;
  }

  lemma IsSettled(log: CachedLog)
    requires log.Ready()
    ensures Settled(log.Now(), log.g, log.lh, log.cache.disk)
  {
    hide Permutation, Recent, SameBlocks, Logical, Unique, Idle, Counted, ContentsOf, At0;
    forall x | IsHome(log.g, x) && x !in log.lh
      ensures OnDisk(log.cache.disk, (DEV, x)) == At0(log.Now(), x)
    {
      DiskShows(log.cache.bufs, log.cache.disk, log.pins, x);
    }
  }

  lemma BootShows(bufs: seq<Buf>, device: map<Place, Data>, g: Geometry)
    requires forall b :: 0 <= b < |bufs| ==> !bufs[b].valid
    ensures Shows(ContentsOf(bufs, device), g, device, map[])
  {
    forall x ensures Logical(bufs, device, (DEV, x)) == OnDisk(device, (DEV, x)) {
      assert forall b :: !Caches(bufs, b, (DEV, x));
    }
  }

  lemma WriteShows(m: Contents, g: Geometry, device: map<Place, Data>, blocks: map<int, Data>, x: int, data: Data)
    requires Shows(m, g, device, blocks)
    ensures Shows(m[(DEV, x) := data], g, device, blocks[x := data])
  {
  }
}
