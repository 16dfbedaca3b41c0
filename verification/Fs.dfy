/** The block and inode layers of the file system, operating on the disk as seen through
    the log: allocation, block mapping, truncation, reading and writing. */
module Fs {
  import opened Base
  import opened FsBytes
  import opened FsState

  const IPB: nat := 16

  datatype ReadResult = Fault | Read(bytes: seq<nat>)
  datatype ChunkResult = Written | NoSpace | BadCopy

  function Min(a: nat, b: nat): nat
  {
    if a < b then a else b
  }

  function Max(a: nat, b: nat): nat
  {
    if a > b then a else b
  }

  class FileSystem {
    const l: Layout
    var bitmap: seq<Bits>
    var data: seq<Bytes>
    /** In-memory inodes, and the copies in the inode blocks. */
    var inodes: seq<Inode>
    var dinodes: seq<Inode>
    /** Which slot owns each allocated block. */
    ghost var owner: map<nat, Slot>
    /** The data blocks as they were last committed: what a block whose buffer has been recycled reads as. */
    var safe: seq<Bytes>
    /** The blocks passed to log_write in the current transaction. */
    var logged: set<nat>
    /** The most blocks that were already logged when log_write was called. */
    ghost var peak: nat

    /** Mount an image.  It is a valid file system if no file has a hole and free inodes own nothing. */
    constructor Mount(l: Layout, st: State, ghost owner: map<nat, Slot>)
      requires Owned(l, st, owner)
      ensures St() == st && Safe() == st && this.l == l && this.owner == owner && logged == {} && peak == 0
      ensures Mountable(l, st, owner) <==> Valid()
    {
      this.l := l;
      bitmap, data, inodes, dinodes := st.bitmap, st.data, st.inodes, st.inodes;
      this.owner, logged, peak, safe := owner, {}, 0, st.data;
    }

    ghost function St(): State
      reads this
    {
      State(bitmap, data, inodes)
    }

    /** The file system as the disk and the log have it. */
    ghost function Safe(): State
      reads this
    {
      State(bitmap, safe, inodes)
    }

    ghost predicate Consistent()
      reads this
    {
      && Owned(l, St(), owner) && |dinodes| == |inodes|
      && forall i: nat :: i < |inodes| ==> NoHoles(St(), i)
    }

    /** The free-map block holding the bit of block b. */
    function BBlock(b: nat): nat
    {
      b / BPB + l.bmapStart
    }

    /** The inode block holding inode i. */
    function IBlock(i: nat): nat
    {
      i / IPB + l.inodeStart
    }

    /** log_write, as far as the file system's own account goes. */
    method LogWrite(b: nat)
      modifies `logged, `peak
      ensures logged == old(logged) + {b} && peak == Max(old(peak), |old(logged)|)
      ensures PeakOk(old(peak), peak, logged)
    {
      peak := Max(peak, |logged|);
      SubsetBound(logged, logged + {b});
      logged := logged + {b};
    }

    /** bzero. */
    method Bzero(b: nat)
      requires b < |data|
      modifies `data, `logged, `peak
      ensures data == old(data)[b := ZeroBlock()] && logged == old(logged) + {b}
      ensures PeakOk(old(peak), peak, logged)
    {
      data := data[b := ZeroBlock()];
      LogWrite(b);
    }

    /** balloc: the first free block, marked and zeroed; 0 when the disk is full. */
    method Balloc() returns (r: nat)
      requires Owned(l, St(), owner)
      modifies `bitmap, `data, `logged, `peak
      ensures r == 0 ==> St() == old(St()) && logged == old(logged) && peak == old(peak)
                         && forall c: nat :: c < l.size ==> InUse(St(), c)
      ensures r != 0 ==> && r < l.size && !InUse(old(St()), r) && St() == Allocated(old(St()), r)
                         && logged == old(logged) + {BBlock(r), r} && PeakOk(old(peak), peak, logged)
                         && forall c: nat :: c < r ==> InUse(old(St()), c)
    {
      hide Owned, Ptr;
      OwnedShape(l, St(), owner);
      var b := 0;
      while b < l.size
        invariant b % BPB == 0 && St() == old(St()) && logged == old(logged) && peak == old(peak)
        invariant forall c: nat :: c < b && c < l.size ==> InUse(St(), c)
      {
        var bi := 0;
        while bi < BPB && b + bi < l.size
          invariant bi <= BPB && St() == old(St()) && logged == old(logged) && peak == old(peak)
          invariant forall c: nat :: c < b + bi && c < l.size ==> InUse(St(), c)
        {
          if !Bit(bitmap, b + bi) {
            assert !InUse(St(), b + bi);
            bitmap := PutBit(bitmap, b + bi, true);
            LogWrite(b / BPB + l.bmapStart);
            SameMapBlock(b, bi);
            ghost var peak1, logged1 := peak, logged;
            Bzero(b + bi);
            PeakTrans(old(peak), peak1, peak, logged1, logged);
            return b + bi;
          }
          assert InUse(St(), b + bi);
          bi := bi + 1;
        }
        b := b + BPB;
      }
      return 0;
    }

    /** bfree: its "freeing free block" panic is the precondition. */
    method Bfree(b: nat)
      requires Shaped(l, St()) && b < l.size && InUse(St(), b)
      modifies `bitmap, `logged, `peak
      ensures St() == Freed(old(St()), b) && logged == old(logged) + {BBlock(b)} && PeakOk(old(peak), peak, logged)
    {
      bitmap := PutBit(bitmap, b, false);
      LogWrite(b / BPB + l.bmapStart);
    }

    /** iupdate: copy the in-memory inode to its block. */
    method Iupdate(i: nat)
      requires i < |inodes| == |dinodes|
      modifies `dinodes, `logged, `peak
      ensures dinodes == old(dinodes)[i := inodes[i]] && logged == old(logged) + {IBlock(i)}
      ensures peak == Max(old(peak), |old(logged)|) && PeakOk(old(peak), peak, logged)
    {
      dinodes := dinodes[i := inodes[i]];
      LogWrite(i / IPB + l.inodeStart);
    }

    /** Give inode i a block in one of its own address slots, unless it has one: the first
        branch of bmap, and the part of the second that loads the indirect block. */
    method MapAddr(i: nat, k: nat) returns (addr: nat, ghost maps: set<nat>)
      requires Owned(l, St(), owner) && i < |inodes| && k <= NDIRECT
      modifies `bitmap, `data, `inodes, `logged, `peak, `owner
      ensures Owned(l, St(), owner) && Grown(old(St()), St(), i)
      ensures addr == Addr(St(), i, k)
      ensures old(Addr(St(), i, k)) != 0 ==>
                St() == old(St()) && owner == old(owner) && maps == {} && logged == old(logged) && peak == old(peak)
      ensures PeakOk(old(peak), peak, logged) && maps <= MapBlocks(l, MapSize(l))
      ensures |maps| <= 1 && old(logged) <= logged <= old(logged) + maps + ({addr} - {0})
      ensures Recorded(l, old(St()), St(), logged)
      ensures addr == 0 ==> St() == old(St()) && forall c: nat :: c < l.size ==> InUse(St(), c)
    {
      hide Owned, Grown, Recorded, PeakOk, MapBlocks;
      OwnedShape(l, St(), owner);
      Unchanged(l, St(), i, logged);
      PeakStart(peak, logged);
      addr, maps := inodes[i].addrs[k], {};
      if addr == 0 {
        addr := Balloc();
        if addr == 0 {
          return;
        }
        maps := {BBlock(addr)};
        InMapBlocks(l, MapSize(l), addr / BPB);
        HangAddr(l, old(St()), owner, i, k, addr, logged);
        inodes := inodes[i := inodes[i].(addrs := inodes[i].addrs[k := addr])];
        owner := owner[addr := if k < NDIRECT then Direct(i, k) else Indirect(i)];
        assert St() == SetAddr(Allocated(old(St()), addr), i, k, addr);
      }
    }

    /** The entry of the indirect block, allocated if missing: the rest of bmap's second branch. */
    method MapEntry(i: nat, j: nat) returns (addr: nat, ghost maps: set<nat>)
      requires Owned(l, St(), owner) && i < |inodes| && j < NINDIRECT && Addr(St(), i, NDIRECT) != 0
      modifies `bitmap, `data, `logged, `peak, `owner
      ensures Owned(l, St(), owner) && Grown(old(St()), St(), i)
      ensures addr == Ptr(St(), Entry(i, j))
      ensures old(Ptr(St(), Entry(i, j))) != 0 ==>
                St() == old(St()) && owner == old(owner) && maps == {} && logged == old(logged) && peak == old(peak)
      ensures PeakOk(old(peak), peak, logged) && maps <= MapBlocks(l, MapSize(l))
      ensures |maps| <= 1 && old(logged) <= logged <= old(logged) + maps + ({addr, Addr(St(), i, NDIRECT)} - {0})
      ensures Recorded(l, old(St()), St(), logged)
      ensures addr == 0 ==> forall c: nat :: c < l.size ==> InUse(St(), c)
    {
      hide Owned, Grown, Recorded, PeakOk, MapBlocks;
      OwnedShape(l, St(), owner);
      OwnedBound(l, St(), owner, Indirect(i));
      Unchanged(l, St(), i, logged);
      PeakStart(peak, logged);
      var ib := inodes[i].addrs[NDIRECT];
      maps := {};
      addr := Word(data[ib], j);
      if addr == 0 {
        addr := Balloc();
        if addr == 0 {
          return;
        }
        maps := {BBlock(addr)};
        InMapBlocks(l, MapSize(l), addr / BPB);
        HangEntry(l, old(St()), owner, i, j, addr, logged + {ib});
        data := data[ib := SetWord(data[ib], j, addr)];
        ghost var peak1, logged1 := peak, logged;
        LogWrite(ib);
        PeakTrans(old(peak), peak1, peak, logged1, logged);
        owner := owner[addr := Entry(i, j)];
        assert St() == SetCell(Allocated(old(St()), addr), ib, j, addr);
      }
    }

    /** bmap's second branch: the indirect block, then the entry. */
    method MapIndirect(i: nat, j: nat) returns (addr: nat, ghost maps: set<nat>)
      requires Owned(l, St(), owner) && i < |inodes| && j < NINDIRECT
      modifies `bitmap, `data, `inodes, `logged, `peak, `owner
      ensures Owned(l, St(), owner) && Grown(old(St()), St(), i)
      ensures addr == Ptr(St(), Entry(i, j)) && (addr != 0 ==> Addr(St(), i, NDIRECT) != 0)
      ensures old(Ptr(St(), Entry(i, j))) != 0 ==>
                St() == old(St()) && owner == old(owner) && maps == {} && logged == old(logged) && peak == old(peak)
      ensures |maps| <= (if old(Ptr(St(), Entry(i, j))) == 0 then 1 else 0)
                        + (if old(Addr(St(), i, NDIRECT)) == 0 then 1 else 0)
      ensures PeakOk(old(peak), peak, logged) && maps <= MapBlocks(l, MapSize(l))
      ensures old(logged) <= logged <= old(logged) + maps + ({addr, Addr(St(), i, NDIRECT)} - {0})
      ensures Recorded(l, old(St()), St(), logged)
      ensures addr == 0 ==> forall c: nat :: c < l.size ==> InUse(St(), c)
    {
      hide Owned, Kept, SameFiles, Recorded, PeakOk, MapBlocks;
      addr, maps := MapAddr(i, NDIRECT);
      if addr == 0 {
        return;
      }
      ghost var mid, maps1, logged1, peak1 := St(), maps, logged, peak;
      addr, maps := MapEntry(i, j);
      PeakTrans(old(peak), peak1, peak, logged1, logged);
      GrownTrans(old(St()), mid, St(), i);
      RecordedTrans(l, old(St()), mid, St(), logged1, logged);
      maps := maps1 + maps;
    }

    /** bmap: the block holding block bn of file i, allocated if missing; 0 if the disk is full.
        `maps` are the free-map blocks it logged. */
    method Bmap(i: nat, bn: nat) returns (addr: nat, ghost maps: set<nat>)
      requires Owned(l, St(), owner) && i < |inodes| && bn < MAXFILE
      modifies `bitmap, `data, `inodes, `logged, `peak, `owner
      ensures Owned(l, St(), owner) && Grown(old(St()), St(), i)
      ensures addr == Ptr(St(), FileSlot(i, bn))
      ensures old(Ptr(St(), FileSlot(i, bn))) != 0 ==>
                St() == old(St()) && owner == old(owner) && maps == {} && logged == old(logged) && peak == old(peak)
      ensures |maps| <= (if old(Ptr(St(), FileSlot(i, bn))) == 0 then 1 else 0)
                        + (if bn >= NDIRECT && old(Addr(St(), i, NDIRECT)) == 0 then 1 else 0)
      ensures PeakOk(old(peak), peak, logged) && maps <= MapBlocks(l, MapSize(l))
      ensures old(logged) <= logged <= old(logged) + maps + ({addr, Addr(St(), i, NDIRECT)} - {0})
      ensures bn >= NDIRECT && addr != 0 ==> Addr(St(), i, NDIRECT) != 0
      ensures Recorded(l, old(St()), St(), logged)
      ensures addr == 0 ==> forall c: nat :: c < l.size ==> InUse(St(), c)
      ensures addr == 0 && bn < NDIRECT ==> St() == old(St())
    {
      hide PeakOk, MapBlocks;
      if bn < NDIRECT {
        addr, maps := MapAddr(i, bn);
      } else {
        addr, maps := MapIndirect(i, bn - NDIRECT);
      }
    }

    /** readi: up to n bytes of file i from off on.  `room` is how many bytes either_copyout can
        deliver before it faults.  bmap is called on every block: it allocates nothing unless the file has a
        hole, and a hole that is read is then filled with a fresh block. */
    method Readi(i: nat, off: nat, n: nat, room: nat) returns (r: ReadResult)
      requires Owned(l, St(), owner) && i < |inodes| && inodes[i].size <= MAXFILE * BSIZE && off < U32 && n < U32
      modifies `bitmap, `data, `inodes, `logged, `peak, `owner
      ensures Owned(l, St(), owner) && Filled(l, old(St()), St(), i, logged) && old(logged) <= logged
      ensures NoHoles(old(St()), i) ==> Untouched(old(St()), old(owner), old(logged), old(peak))
      ensures off > inodes[i].size || off + n >= U32 ==> r == Read([])
      ensures off <= inodes[i].size && off + n < U32 ==>
                ReadDone(l, old(St()), St(), i, off, Min(n, inodes[i].size - off), room, r)
    {
      hide Owned, NoHoles, Filled, ReadDone;
      FilledNothing(l, St(), i, off, logged);
      if off > inodes[i].size || off + n >= U32 {
        return Read([]);
      }
      var m := if off + n > inodes[i].size then inodes[i].size - off else n;
      ghost var st0 := St();
      r := ReadRounds(i, off, m, room);
      FilledSame(l, st0, St(), i, logged);
    }

    /** readi's loop. */
    method ReadRounds(i: nat, off: nat, m: nat, room: nat) returns (r: ReadResult)
      requires Owned(l, St(), owner) && i < |inodes| && off + m <= inodes[i].size <= MAXFILE * BSIZE
      modifies `bitmap, `data, `inodes, `logged, `peak, `owner
      ensures Owned(l, St(), owner) && Filled(l, old(St()), St(), i, logged) && old(logged) <= logged
      ensures NoHoles(old(St()), i) ==> Untouched(old(St()), old(owner), old(logged), old(peak))
      ensures ReadDone(l, old(St()), St(), i, off, m, room, r)
    {
      hide Owned, NoHoles, Content, ByteAt, Filled, MappedFrom, DiskFull, SlotsKept, Ptr;
      ghost var st0, logged0 := St(), logged;
      FilledNothing(l, st0, i, off, logged);
      var tot, out := 0, [];
      ghost var c := Content(st0, i);
      while tot < m
        invariant tot <= m && Owned(l, St(), owner) && Filled(l, st0, St(), i, logged) && logged0 <= logged
        invariant NoHoles(st0, i) ==> Untouched(st0, old(owner), logged0, old(peak))
        invariant tot <= room && out == c[off..off + tot] && MappedFrom(St(), i, off, off + tot)
        invariant tot == 0 ==> St() == st0
        invariant tot == 0 || tot == m || (off + tot) % BSIZE == 0
      {
        var o := off + tot;
        var k := Min(m - tot, BSIZE - o % BSIZE);
        FilledSame(l, st0, St(), i, logged);
        ghost var st1, logged1 := St(), logged;
        HoleFree(st0, i, o);
        var mapped, bytes := ReadChunk(i, o, k);
        FilledMore(l, st0, st1, St(), i, logged1, logged);
        FilledSame(l, st0, St(), i, logged);
        if !mapped {
          FilledMapped(l, st1, St(), i, logged, off, o);
          return Read(out);
        }
        if tot + k > room {
          return Fault;
        }
        MappedMore(l, st1, St(), i, logged, off, o, k);
        JoinSlices(c, off, o, o + k);
        out := out + bytes;
        tot := tot + k;
      }
      FilledSame(l, st0, St(), i, logged);
      return Read(out);
    }

    /** Nothing has happened since. */
    ghost predicate Untouched(st0: State, owner0: map<nat, Slot>, logged0: set<nat>, peak0: nat)
      reads this
    {
      St() == st0 && owner == owner0 && logged == logged0 && peak == peak0
    }

    /** One round of readi's loop: the bytes of one block, unless it has none and the disk is full. */
    method ReadChunk(i: nat, off: nat, k: nat) returns (mapped: bool, bytes: seq<nat>)
      requires Owned(l, St(), owner) && i < |inodes| && inodes[i].size <= MAXFILE * BSIZE
      requires 0 < k && off + k <= inodes[i].size && off % BSIZE + k <= BSIZE
      modifies `bitmap, `data, `inodes, `logged, `peak, `owner
      ensures Owned(l, St(), owner) && Filled(l, old(St()), St(), i, logged) && old(logged) <= logged
      ensures old(Ptr(St(), FileSlot(i, off / BSIZE))) != 0 ==>
                mapped && Untouched(old(St()), old(owner), old(logged), old(peak))
      ensures mapped ==> Ptr(St(), FileSlot(i, off / BSIZE)) != 0 && off + k <= |Content(St(), i)|
                         && bytes == Content(St(), i)[off..off + k]
      ensures !mapped ==> DiskFull(l, St()) && (off / BSIZE < NDIRECT ==> St() == old(St()))
    {
      hide Content;
      ghost var maps;
      var addr;
      bytes := [];
      addr, maps := Bmap(i, off / BSIZE);
      mapped := addr != 0;
      if mapped {
        OwnedBound(l, St(), owner, FileSlot(i, off / BSIZE));
        ChunkRead(l, St(), i, off, k);
        bytes := data[addr][off % BSIZE..off % BSIZE + k];
      }
    }

    /** One round of writei's loop: map the block, copy the bytes in, log it.  `avail` is how
        many bytes of s either_copyin can fetch before it faults; those bytes are already in
        the buffer when it does, and the buffer is then not logged. */
    method WriteChunk(i: nat, off: nat, s: seq<nat>, avail: nat)
      returns (r: ChunkResult, ghost addr: nat, ghost maps: set<nat>)
      requires Owned(l, St(), owner) && i < |inodes| && off + |s| <= MAXFILE * BSIZE
      requires 0 < |s| && off % BSIZE + |s| <= BSIZE
      modifies `bitmap, `data, `inodes, `logged, `peak, `owner
      ensures Owned(l, St(), owner)
      ensures ChunkDone(l, old(St()), St(), i, off, s, avail, r, addr, maps, old(logged), logged)
      ensures PeakOk(old(peak), peak, logged) && maps <= MapBlocks(l, MapSize(l))
    {
      hide Owned, Kept, SameFiles, Spliced, Recorded, RecordedBut, Ptr, ByteAt, PeakOk, MapBlocks, Chunk, Overwrite,
           InUse, Bit, Shaped;
      var a;
      a, maps := Bmap(i, off / BSIZE);
      addr := a;
      if a == 0 {
        SplicedNothing(old(St()), St(), i, off);
        RecordedIsBut(l, old(St()), St(), logged, 0);
        return NoSpace, addr, maps;
      }
      ghost var mid := St();
      var got := Min(avail, |s|);
      WriteAfterMap(l, old(St()), mid, owner, i, off, s[..got]);
      ChunkIs(mid, i, off, s[..got]);
      data := data[a := Overwrite(data[a], off % BSIZE, s[..got])];
      RecordedWrite(l, old(St()), mid, owner, i, off, s[..got], logged);
      if avail < |s| {
        GainLogged(l, old(St()), mid, FileSlot(i, off / BSIZE), logged);
        return BadCopy, addr, maps;
      }
      assert s[..got] == s;
      ghost var peak1, logged1 := peak, logged;
      LogWrite(a);
      PeakTrans(old(peak), peak1, peak, logged1, logged);
      RecordedIsBut(l, old(St()), St(), logged, a);
      return Written, addr, maps;
    }

    /** writei's loop: as many whole rounds as succeed.  `touched` counts the bytes of s that
        reached a buffer, which exceeds tot only when a copy faulted half-way. */
    method WriteRounds(i: nat, off: nat, s: seq<nat>, avail: nat)
      returns (tot: nat, ghost touched: nat, ghost tally: Tally)
      requires Owned(l, St(), owner) && i < |inodes| && off <= inodes[i].size && off + |s| <= MAXFILE * BSIZE
      requires NoHoles(St(), i)
      modifies `bitmap, `data, `inodes, `logged, `peak, `owner
      ensures Owned(l, St(), owner)
      ensures Ended(l, old(St()), St(), i, off, s, tot, touched, avail, logged)
      ensures tally.Covers(old(logged), logged) && tally.rounds <= Rounds(off, |s|) && old(logged) <= logged
      ensures tally.Within(off % BSIZE != 0) && tally.maps <= MapBlocks(l, MapSize(l))
      ensures PeakOk(old(peak), peak, logged) && LoggedFor(l, i, old(logged), logged)
      ensures LoggedSlots(l, owner, i, off / BSIZE, WriteEnd(old(St()), i, off, tot), old(logged), logged)
    {
      hide Owned, NoHoles, ChunkDone, RoundData, RoundTally, Ended, PeakOk, MapBlocks, LoggedFor, LoggedSlots,
           SlotsKept, EndBlock, WriteEnd, Ptr;
      ghost var st0 := St();
      PeakStart(peak, logged);
      LoggedNothing(l, i, logged);
      tot, touched, tally := 0, 0, Tally(0, {}, {}, {Addr(St(), i, NDIRECT)} - {0});
      RoundsStart(l, St(), i, off, s, avail, logged);
      LoggedSlotsNone(l, owner, i, off / BSIZE, EndBlock(off, 0), logged);
      while tot < |s|
        invariant touched == tot <= |s| && Owned(l, St(), owner) && old(logged) <= logged
        invariant Rounding(l, st0, St(), i, off, s, tot, avail, old(logged), logged, tally)
        invariant PeakOk(old(peak), peak, logged) && tally.maps <= MapBlocks(l, MapSize(l))
        invariant LoggedFor(l, i, old(logged), logged)
        invariant LoggedSlots(l, owner, i, off / BSIZE, EndBlock(off, tot), old(logged), logged)
      {
        var o := off + tot;
        var m := Min(|s| - tot, BSIZE - o % BSIZE);
        ghost var st1, logged1, peak1, owner1 := St(), logged, peak, owner;
        RoundKept(l, st0, st1, i, off, s, tot, avail, logged);
        var r, addr, maps := WriteChunk(i, o, s[tot..tot + m], avail - tot);
        tally := RoundDone(l, st0, st1, St(), i, off, s, tot, m, avail, r, addr, maps, old(logged), logged1, logged,
                           tally);
        PeakTrans(old(peak), peak1, peak, logged1, logged);
        RoundLogged(l, st1, St(), owner, i, o, s[tot..tot + m], avail - tot, r, addr, maps, old(logged), logged1,
                    logged);
        RoundSlots(l, st0, st1, St(), owner1, owner, i, off, tot, s[tot..tot + m], avail - tot, r, addr, maps,
                   old(logged), logged1, logged);
        if r != Written {
          touched := if r == BadCopy then avail else tot;
          return;
        }
        tot := tot + m;
        touched := tot;
      }
      RoundsOver(l, st0, St(), i, off, s, avail, old(logged), logged, tally);
      EndsBehind(st0, i, off, tot);
      LoggedSlotsMore(l, owner, i, off / BSIZE, EndBlock(off, tot), WriteEnd(st0, i, off, tot), old(logged), logged);
    }

    /** writei.  Rejected writes change nothing.  Otherwise r bytes were written, all of them unless
        the disk filled up or the source faulted; the file's contents are the old ones with those
        bytes written over, extended if needed; no other file changes; and the inode goes to disk
        whatever happened. */
    method Writei(i: nat, off: nat, s: seq<nat>, avail: nat) returns (r: int, ghost touched: nat)
      requires Consistent() && i < |inodes| && off < U32 && |s| < U32
      modifies `bitmap, `data, `inodes, `dinodes, `logged, `peak, `owner
      ensures Consistent() && |inodes| == old(|inodes|)
      ensures Rejected(old(inodes[i].size), off, |s|) <==> r == -1
      ensures r == -1 ==> St() == old(St()) && dinodes == old(dinodes) && owner == old(owner)
      ensures r == -1 ==> logged == old(logged) && peak == old(peak)
      ensures r != -1 ==> && 0 <= r <= touched <= |s| && dinodes == old(dinodes)[i := inodes[i]]
                          && WriteEffect(l, old(St()), St(), i, off, s, r, touched, avail, logged)
                          && IBlock(i) in logged && old(logged) <= logged
      ensures r != -1 && old(logged) == {} ==>
                |logged| <= LogCost(off, |s|) && |logged| <= Rounds(off, |s|) + MapSize(l) + 2
      ensures r != -1 && old(logged) == {} && old(peak) == 0 ==> peak < LogCost(off, |s|)
      ensures LoggedFor(l, i, old(logged), logged)
      ensures r != -1 ==>
                LoggedSlots(l, owner, i, off / BSIZE, WriteEnd(old(St()), i, off, r), old(logged) + {IBlock(i)}, logged)
      ensures old(Valid()) && inodes[i].typ != 0 ==> Valid()
    {
      hide Owned, NoHoles, Ended, WriteEffect, ByteAt, Ptr, Empty, MapBlocks, LogCost, Rounds, PeakOk, LoggedFor,
           LoggedSlots;
      LoggedNothing(l, i, logged);
      if off > inodes[i].size || off + |s| >= U32 {
        return -1, 0;
      }
      if off + |s| > MAXFILE * BSIZE {
        return -1, 0;
      }
      var tot, t, tally := WriteRounds(i, off, s, avail);
      touched := t;
      ghost var mid := St();
      EndedKept(l, old(St()), mid, i, off, s, tot, touched, avail, logged);
      if off + tot > inodes[i].size {
        inodes := inodes[i := inodes[i].(size := off + tot)];
      }
      Resized(l, old(St()), mid, owner, i, off, s, tot, touched, avail, logged, logged + {IBlock(i)});
      assert St() == SetSize(mid, i, Max(old(inodes[i].size), off + tot));
      TallyTotal(l, tally, logged, IBlock(i), off, |s|, peak);
      LoggedInode(l, i, old(logged), logged);
      SlotsInode(l, owner, i, off / BSIZE, WriteEnd(old(St()), i, off, tot), old(logged), logged, IBlock(i));
      Iupdate(i);
      if old(Valid()) && inodes[i].typ != 0 {
        EmptyAfterWrite(l, old(St()), St(), i, off, s, tot, touched, avail, logged);
      }
      r := tot;
    }

    /** The direct half of itrunc. */
    method TruncDirect(i: nat)
      requires Owned(l, St(), owner) && i < |inodes|
      modifies `bitmap, `inodes, `logged, `peak, `owner
      ensures Owned(l, St(), owner) && Truncating(l, old(St()), St(), old(owner), owner, i, NDIRECT, 0)
      ensures |inodes| == old(|inodes|) && old(logged) <= logged <= old(logged) + MapBlocks(l, MapSize(l))
      ensures Recorded(l, old(St()), St(), logged) && PeakOk(old(peak), peak, logged)
    {
      hide Owned, Truncating, MapBlocks, Recorded, PeakOk;
      ghost var st0, owner0 := St(), owner;
      var k := 0;
      PeakStart(peak, logged);
      Unchanged(l, st0, i, logged);
      TruncStart(l, st0, owner0, i);
      while k < NDIRECT
        invariant k <= NDIRECT && |inodes| == |st0.inodes| && Owned(l, St(), owner)
        invariant Truncating(l, st0, St(), owner0, owner, i, k, 0)
        invariant Recorded(l, st0, St(), logged) && PeakOk(old(peak), peak, logged)
        invariant old(logged) <= logged <= old(logged) + MapBlocks(l, MapSize(l))
      {
        ghost var st1, owner1, logged1, peak1 := St(), owner, logged, peak;
        TruncShape(l, st1, owner1, i, k);
        if inodes[i].addrs[k] != 0 {
          ghost var b := inodes[i].addrs[k];
          DropAddr(l, st1, owner, i, k);
          InMapBlocks(l, MapSize(l), b / BPB);
          Bfree(inodes[i].addrs[k]);
          inodes := inodes[i := inodes[i].(addrs := inodes[i].addrs[k := 0])];
          owner := owner - {b};
          assert St() == SetAddr(Freed(st1, b), i, k, 0);
          RecordedFree(l, st0, st1, St(), b, logged1, logged);
          PeakTrans(old(peak), peak1, peak, logged1, logged);
        }
        TruncDirectStep(l, st0, st1, St(), owner0, owner1, owner, i, k);
        k := k + 1;
      }
    }

    /** itrunc's loop over the entries of the indirect block. */
    method FreeEntries(i: nat)
      requires Owned(l, St(), owner) && i < |inodes| && Addr(St(), i, NDIRECT) != 0
      modifies `bitmap, `logged, `peak, `owner
      ensures Drained(l, old(St()), St(), old(owner), owner, i, NINDIRECT)
      ensures old(logged) <= logged <= old(logged) + MapBlocks(l, MapSize(l))
      ensures Recorded(l, old(St()), St(), logged) && PeakOk(old(peak), peak, logged)
    {
      hide Owned, Draining, Drained, MapBlocks, Ptr, Recorded, PeakOk;
      ghost var st0, owner0 := St(), owner;
      TruncShape(l, st0, owner0, i, NDIRECT);
      PeakStart(peak, logged);
      Unchanged(l, st0, i, logged);
      var ib := inodes[i].addrs[NDIRECT];
      var j := 0;
      DrainStart(l, st0, owner0, i);
      while j < NINDIRECT
        invariant j <= NINDIRECT && Drained(l, st0, St(), owner0, owner, i, j)
        invariant Recorded(l, st0, St(), logged) && PeakOk(old(peak), peak, logged)
        invariant old(logged) <= logged <= old(logged) + MapBlocks(l, MapSize(l))
      {
        ghost var st1, owner1, logged1, peak1 := St(), owner, logged, peak;
        DrainStep(l, st0, st1, owner0, owner1, i, j);
        var b := Word(data[ib], j);
        if b != 0 {
          InMapBlocks(l, MapSize(l), b / BPB);
          Bfree(b);
          owner := owner - {b};
          FreedShrinks(st1, b);
          RecordedFree(l, st0, st1, St(), b, logged1, logged);
          PeakTrans(old(peak), peak1, peak, logged1, logged);
        }
        j := j + 1;
      }
    }

    /** The indirect half of itrunc. */
    method TruncIndirect(i: nat)
      requires Owned(l, St(), owner) && i < |inodes|
      modifies `bitmap, `inodes, `logged, `peak, `owner
      ensures Owned(l, St(), owner) && Emptied(old(St()), St(), old(owner), owner, i)
      ensures |inodes| == old(|inodes|) && old(logged) <= logged <= old(logged) + MapBlocks(l, MapSize(l))
      ensures Recorded(l, old(St()), St(), logged) && PeakOk(old(peak), peak, logged)
    {
      hide Owned, Draining, Drained, Emptied, MapBlocks, Ptr, Recorded, PeakOk;
      ghost var st0, owner0 := St(), owner;
      PeakStart(peak, logged);
      Unchanged(l, st0, i, logged);
      TruncShape(l, st0, owner0, i, NDIRECT);
      if inodes[i].addrs[NDIRECT] != 0 {
        var ib := inodes[i].addrs[NDIRECT];
        FreeEntries(i);
        DrainEnd(l, st0, St(), owner0, owner, i);
        InMapBlocks(l, MapSize(l), ib / BPB);
        ghost var st1, logged1, peak1 := St(), logged, peak;
        Bfree(ib);
        inodes := inodes[i := inodes[i].(addrs := inodes[i].addrs[NDIRECT := 0])];
        owner := owner - {ib};
        assert St() == SetAddr(Freed(st1, ib), i, NDIRECT, 0);
        DroppedShrinks(st1, i, ib);
        RecordedFree(l, st0, st1, St(), ib, logged1, logged);
        PeakTrans(old(peak), peak1, peak, logged1, logged);
      } else {
        NothingToDrain(st0, owner0, i, l);
      }
    }

    /** itrunc: every block of file i goes back to the free map, exactly those blocks do, and no
        other file changes. */
    method Itrunc(i: nat)
      requires Consistent() && i < |inodes|
      modifies `bitmap, `inodes, `dinodes, `logged, `peak, `owner
      ensures Consistent() && |inodes| == old(|inodes|) && dinodes == old(dinodes)[i := inodes[i]]
      ensures TruncEffect(old(St()), St(), old(owner), i)
      ensures IBlock(i) in logged && old(logged) <= logged <= old(logged) + MapBlocks(l, MapSize(l)) + {IBlock(i)}
      ensures Recorded(l, old(St()), St(), logged) && PeakOk(old(peak), peak, logged)
    {
      hide Owned, Truncating, Emptied, MapBlocks, Ptr, TruncEffect, Recorded, PeakOk;
      ghost var st0, owner0 := St(), owner;
      TruncDirect(i);
      ghost var st1, owner1, logged1, peak1 := St(), owner, logged, peak;
      TruncIndirect(i);
      ghost var st2, logged2, peak2 := St(), logged, peak;
      RecordedTrans(l, st0, st1, st2, logged1, logged2);
      PeakTrans(old(peak), peak1, peak2, logged1, logged2);
      inodes := inodes[i := inodes[i].(size := 0)];
      assert St() == SetSize(st2, i, 0);
      TruncDone(l, st0, st1, st2, owner0, owner1, owner, i);
      Iupdate(i);
      SetSizeShrinks(st2, i, 0);
      RecordedRetype(l, st0, st2, St(), logged2, logged);
      PeakTrans(old(peak), peak2, peak, logged2, logged);
    }

    /** begin_op, when no other call is under way. */
    method BeginOp()
      modifies `logged, `peak
      ensures logged == {} && peak == 0
    {
      logged, peak := {}, 0;
    }

    /** end_op of the last call: the logged blocks are committed as the cache has them. */
    method EndOp()
      requires |safe| == |data|
      modifies `safe
      ensures |safe| == |data|
      ensures forall b: nat :: b < |data| ==> safe[b] == if b in logged then data[b] else old(safe)[b]
    {
      safe := seq(|data|, b requires 0 <= b < |data| && |safe| == |data| reads this =>
        if b in logged then data[b] else safe[b]);
    }

    /** The buffer of block b is recycled, and the block read again: between transactions no buffer is pinned, and
        what was never logged is lost. */
    method Recycle(b: nat)
      requires b < |data| == |safe|
      modifies `data
      ensures data == old(data)[b := safe[b]]
    {
      data := data[b := safe[b]];
    }

    /** Between system calls: inodes are on disk as they are in memory, and a free inode owns nothing. */
    ghost predicate Valid()
      reads this
    {
      Consistent() && dinodes == inodes && forall i: nat :: i < |inodes| && inodes[i].typ == 0 ==> Empty(St(), i)
    }

    /** ialloc: the first inode whose type on disk is 0, now of the given type with everything else
        zero; 0 when there is none.  Inode 0 is never used. */
    method Ialloc(typ: int) returns (inum: nat)
      requires Valid() && typ != 0
      modifies `inodes, `dinodes, `logged, `peak
      ensures Valid() && |inodes| == old(|inodes|)
      ensures inum == 0 ==> && inodes == old(inodes) && logged == old(logged)
                            && forall i :: 1 <= i < |inodes| ==> inodes[i].typ != 0
      ensures inum != 0 ==> && inum < |inodes| && old(inodes)[inum].typ == 0
                            && (forall i :: 1 <= i < inum ==> inodes[i].typ != 0)
                            && inodes == old(inodes)[inum := FreshInode(typ)]
                            && logged == old(logged) + {IBlock(inum)} && SameFiles(old(St()), St())
                            && St() == old(St()).(inodes := inodes)
    {
      hide Owned, NoHoles, Empty, SameFiles;
      inum := 1;
      while inum < |dinodes|
        invariant 1 <= inum && forall i :: 1 <= i < inum && i < |inodes| ==> inodes[i].typ != 0
      {
        if dinodes[inum].typ == 0 {
          FreshFrame(l, St(), owner, inum, typ);
          dinodes := dinodes[inum := FreshInode(typ)];
          LogWrite(inum / IPB + l.inodeStart);
          inodes := inodes[inum := FreshInode(typ)];
          assert St() == old(St()).(inodes := inodes);
          return;
        }
        inum := inum + 1;
      }
      inum := 0;
    }

    /** The freeing branch of iput: truncate, mark free, write back. */
    method FreeInode(i: nat)
      requires Valid() && i < |inodes|
      modifies `bitmap, `inodes, `dinodes, `logged, `peak, `owner
      ensures Valid() && |inodes| == old(|inodes|) && inodes[i].typ == 0
      ensures IBlock(i) in logged && old(logged) <= logged <= old(logged) + MapBlocks(l, MapSize(l)) + {IBlock(i)}
      ensures Recorded(l, old(St()), St(), logged)
      ensures TruncEffect(old(St()), St().(inodes := inodes[i := inodes[i].(typ := old(inodes[i].typ))]), old(owner), i)
    {
      hide Owned, NoHoles, Ptr, SameFiles, MapBlocks, Recorded, PeakOk;
      Itrunc(i);
      ghost var st1, logged1 := St(), logged;
      inodes := inodes[i := inodes[i].(typ := 0)];
      RetypeFrame(l, st1, owner, i, 0);
      assert St() == st1.(inodes := inodes);
      assert St().(inodes := inodes[i := inodes[i].(typ := old(inodes[i].typ))]) == st1;
      Iupdate(i);
      RecordedRetype(l, old(St()), st1, St(), logged1, logged);
      OthersStillEmpty(old(St()), st1, St(), old(owner), i);
    }
  }

  /** An image the kernel can run on: blocks owned exactly, no holes, free inodes own nothing. */
  ghost predicate Mountable(l: Layout, st: State, owner: map<nat, Slot>)
  {
    && Owned(l, st, owner) && (forall i: nat :: i < |st.inodes| ==> NoHoles(st, i))
    && forall i: nat :: i < |st.inodes| && st.inodes[i].typ == 0 ==> Empty(st, i)
  }

  /** The last commit has every block at its full length, and every indirect block as it is now. */
  ghost predicate BackedBy(st: State, safe: seq<Bytes>, owner: map<nat, Slot>)
  {
    && |safe| == |st.data| && (forall b :: 0 <= b < |safe| ==> |safe[b]| == BSIZE)
    && forall b :: b in owner && owner[b].Indirect? && b < |safe| ==> safe[b] == st.data[b]
  }

  /** The slots of the last commit are those of the present. */
  lemma BackedSlots(l: Layout, st: State, safe: seq<Bytes>, owner: map<nat, Slot>)
    requires Owned(l, st, owner) && BackedBy(st, safe, owner)
    ensures SameSlots(st, st.(data := safe)) && Owned(l, st.(data := safe), owner)
  {
    var st' := st.(data := safe);
    forall t ensures Ptr(st', t) == Ptr(st, t) {
      if t.Entry? {
        assert Addr(st, t.i, NDIRECT) == Ptr(st, Indirect(t.i));
      }
    }
    OwnedSame(l, st, st', owner);
  }

  lemma BackedMountable(l: Layout, st: State, safe: seq<Bytes>, owner: map<nat, Slot>)
    requires Mountable(l, st, owner) && BackedBy(st, safe, owner)
    ensures Mountable(l, st.(data := safe), owner) && SameSlots(st, st.(data := safe))
  {
    hide Owned, Ptr, BackedBy;
    var st' := st.(data := safe);
    BackedSlots(l, st, safe, owner);
    forall i: nat | i < |st'.inodes| ensures NoHoles(st', i) {
      assert NoHoles(st, i);
    }
  }

  function FreshInode(typ: int): Inode
  {
    Inode(typ, 0, 0, seq(NDIRECT + 1, _ => 0))
  }

  /** Reusing an inode that owns nothing disturbs no block and no file. */
  lemma FreshFrame(l: Layout, st: State, owner: map<nat, Slot>, i: nat, typ: int)
    requires Owned(l, st, owner) && i < |st.inodes| && Empty(st, i)
    requires forall j: nat :: j < |st.inodes| ==> NoHoles(st, j)
    requires forall j: nat :: j < |st.inodes| && st.inodes[j].typ == 0 ==> Empty(st, j)
    requires typ != 0
    ensures var st' := st.(inodes := st.inodes[i := FreshInode(typ)]);
            && Owned(l, st', owner) && SameFiles(st, st') && (forall j: nat :: j < |st'.inodes| ==> NoHoles(st', j))
            && (forall j: nat :: j < |st'.inodes| && st'.inodes[j].typ == 0 ==> Empty(st', j))
  {
    var st' := st.(inodes := st.inodes[i := FreshInode(typ)]);
    forall t ensures Ptr(st', t) == Ptr(st, t) {
      if t.i == i {
        assert Ptr(st, t) == 0;
      }
    }
    OwnedSame(l, st, st', owner);
    forall j: nat ensures SameFile(st, st', j) {
      SameFileFrame(st, st', j);
    }
    forall j: nat | j < |st'.inodes| ensures NoHoles(st', j) {
      assert NoHoles(st, j);
      if j != i {
        KeptFrame(st, st', j, st.inodes[j].size);
      }
    }
    forall j: nat | j < |st'.inodes| && st'.inodes[j].typ == 0 ensures Empty(st', j) {
      assert Empty(st, j);
    }
  }

  lemma RetypeFrame(l: Layout, st: State, owner: map<nat, Slot>, i: nat, typ: int)
    requires Owned(l, st, owner) && i < |st.inodes| && forall j: nat :: j < |st.inodes| ==> NoHoles(st, j)
    ensures var st' := st.(inodes := st.inodes[i := st.inodes[i].(typ := typ)]);
            && Owned(l, st', owner) && SameSlots(st, st') && forall j: nat :: j < |st'.inodes| ==> NoHoles(st', j)
  {
    var st' := st.(inodes := st.inodes[i := st.inodes[i].(typ := typ)]);
    forall t ensures Ptr(st', t) == Ptr(st, t) {
      forall k ensures Addr(st', t.i, k) == Addr(st, t.i, k) {
      }
    }
    OwnedSame(l, st, st', owner);
    forall j: nat | j < |st'.inodes| ensures NoHoles(st', j) {
      assert NoHoles(st, j);
      KeptFrame(st, st', j, st.inodes[j].size);
    }
  }

  lemma OthersStillEmpty(st0: State, st1: State, st2: State, owner0: map<nat, Slot>, i: nat)
    requires TruncEffect(st0, st1, owner0, i) && SameSlots(st1, st2)
    requires st2.inodes == st1.inodes[i := st1.inodes[i].(typ := 0)]
    requires forall j: nat :: j < |st0.inodes| && st0.inodes[j].typ == 0 ==> Empty(st0, j)
    ensures forall j: nat :: j < |st2.inodes| && st2.inodes[j].typ == 0 ==> Empty(st2, j)
  {
    forall j: nat | j < |st2.inodes| && st2.inodes[j].typ == 0 ensures Empty(st2, j) {
      if j != i {
        assert Empty(st0, j);
        forall t: Slot | t.i == j ensures Ptr(st2, t) == 0 {
          assert Ptr(st2, t) == Ptr(st1, t);
          SameInodeSlots(st0, st1, t);
        }
      } else {
        assert Empty(st1, i);
      }
    }
  }

  /** A slot depends only on its inode's addresses and the data blocks. */
  lemma SameInodeSlots(st: State, st': State, t: Slot)
    requires st'.data == st.data && t.i < |st.inodes| == |st'.inodes| && st'.inodes[t.i] == st.inodes[t.i]
    ensures Ptr(st', t) == Ptr(st, t)
  {
  }

  /** What itrunc leaves behind. */
  ghost predicate TruncEffect(st0: State, st: State, owner0: map<nat, Slot>, i: nat)
  {
    && i < |st0.inodes| == |st.inodes|
    && (forall j :: 0 <= j < |st0.inodes| && j != i ==> st.inodes[j] == st0.inodes[j])
    && st.inodes[i].(addrs := []) == st0.inodes[i].(addrs := [], size := 0)
    && Empty(st, i) && st.data == st0.data
    && (forall j: nat :: j != i ==> SameFile(st0, st, j))
    && (forall c: nat :: c < |st0.data| ==>
          (InUse(st, c) <==> InUse(st0, c) && !(c in owner0 && owner0[c].i == i)))
  }

  /** From st0 to st inode i lost its indirect slots and the blocks they owned. */
  ghost predicate Emptied(st0: State, st: State, owner0: map<nat, Slot>, owner: map<nat, Slot>, i: nat)
  {
    && st.data == st0.data && |st.inodes| == |st0.inodes|
    && (forall j :: 0 <= j < |st0.inodes| && j != i ==> st.inodes[j] == st0.inodes[j])
    && (i < |st0.inodes| ==> st.inodes[i].(addrs := []) == st0.inodes[i].(addrs := []))
    && (forall t :: Ptr(st, t) == if t.i == i && !t.Direct? then 0 else Ptr(st0, t))
    && (forall b :: b in owner <==> b in owner0 && !(owner0[b].i == i && !owner0[b].Direct?))
    && (forall b :: b in owner ==> owner[b] == owner0[b])
  }

  /** The state of the loop over the indirect block of inode i after n entries. */
  ghost predicate Drained(l: Layout, st0: State, st: State, owner0: map<nat, Slot>, owner: map<nat, Slot>, i: nat,
                          n: nat)
  {
    && Draining(l, st, owner, i, n) && st.data == st0.data && st.inodes == st0.inodes
    && (forall b :: b in owner <==> b in owner0 && !(owner0[b].Entry? && owner0[b].i == i && owner0[b].j < n))
    && (forall b :: b in owner ==> owner[b] == owner0[b])
  }

  lemma DrainStart(l: Layout, st: State, owner: map<nat, Slot>, i: nat)
    requires Owned(l, st, owner)
    ensures Drained(l, st, st, owner, owner, i, 0)
  {
  }

  lemma DrainStep(l: Layout, st0: State, st: State, owner0: map<nat, Slot>, owner: map<nat, Slot>, i: nat, n: nat)
    requires Drained(l, st0, st, owner0, owner, i, n) && n < NINDIRECT && i < |st.inodes| && Addr(st, i, NDIRECT) != 0
    ensures Shaped(l, st) && 0 < Addr(st, i, NDIRECT) < |st.data|
    ensures var b := Word(st.data[Addr(st, i, NDIRECT)], n);
            && (b == 0 ==> Drained(l, st0, st, owner0, owner, i, n + 1))
            && (b != 0 ==> b < l.size && InUse(st, b) && b / BPB < MapSize(l)
                           && Drained(l, st0, Freed(st, b), owner0, owner - {b}, i, n + 1))
  {
    hide Owned;
    assert Ptr(st, Indirect(i)) == Addr(st, i, NDIRECT);
    assert Ptr(st, Entry(i, n)) == Word(st.data[Addr(st, i, NDIRECT)], n);
    DrainEntry(l, st, owner, i, n);
  }

  lemma DrainEnd(l: Layout, st0: State, st: State, owner0: map<nat, Slot>, owner: map<nat, Slot>, i: nat)
    requires Drained(l, st0, st, owner0, owner, i, NINDIRECT) && i < |st.inodes| && Addr(st, i, NDIRECT) != 0
    requires Owned(l, st0, owner0)
    ensures var b := Addr(st, i, NDIRECT);
            var st' := SetAddr(Freed(st, b), i, NDIRECT, 0);
            && Shaped(l, st) && b < l.size && InUse(st, b) && b / BPB < MapSize(l)
            && Owned(l, st', owner - {b}) && Emptied(st0, st', owner0, owner - {b}, i)
  {
    DropIndirect(l, st, owner, i);
    SlotsOf(st0, owner0, i, l);
    assert forall t :: Ptr(st, t) == Ptr(st0, t);
  }

  lemma SlotsOf(st: State, owner: map<nat, Slot>, i: nat, l: Layout)
    requires Owned(l, st, owner)
    ensures forall b :: b in owner && owner[b].Entry? ==> owner[b].j < NINDIRECT
    ensures forall b :: b in owner && owner[b].Direct? ==> owner[b].k < NDIRECT
    ensures Addr(st, i, NDIRECT) == 0 ==> forall b :: b in owner && owner[b].i == i ==> owner[b].Direct?
  {
    forall b | b in owner
      ensures (owner[b].Entry? ==> owner[b].j < NINDIRECT) && (owner[b].Direct? ==> owner[b].k < NDIRECT)
    {
      assert Ptr(st, owner[b]) == b;
    }
    if Addr(st, i, NDIRECT) == 0 {
      forall b | b in owner && owner[b].i == i ensures owner[b].Direct? {
        assert Ptr(st, owner[b]) == b;
      }
    }
  }

  lemma NothingToDrain(st: State, owner: map<nat, Slot>, i: nat, l: Layout)
    requires Owned(l, st, owner) && Addr(st, i, NDIRECT) == 0
    ensures Emptied(st, st, owner, owner, i)
  {
    SlotsOf(st, owner, i, l);
  }

  lemma TruncDone(l: Layout, st0: State, st1: State, st2: State, owner0: map<nat, Slot>, owner1: map<nat, Slot>,
                  owner2: map<nat, Slot>, i: nat)
    requires Owned(l, st0, owner0) && Owned(l, st2, owner2) && i < |st0.inodes|
    requires Truncating(l, st0, st1, owner0, owner1, i, NDIRECT, 0) && Emptied(st1, st2, owner1, owner2, i)
    requires forall j: nat :: j < |st0.inodes| ==> NoHoles(st0, j)
    ensures var st := SetSize(st2, i, 0);
            && Owned(l, st, owner2) && TruncEffect(st0, st, owner0, i)
            && forall j: nat :: j < |st.inodes| ==> NoHoles(st, j)
  {
    var st := SetSize(st2, i, 0);
    SetSizeFrame(l, st2, owner2, i, 0);
    SlotsOf(st0, owner0, i, l);
    TruncSlots(l, st0, st1, st2, owner0, owner1, owner2, i);
    forall j: nat | j != i ensures SameFile(st0, st, j) {
      SameFileFrame(st0, st, j);
    }
    forall j: nat | j < |st.inodes| ensures NoHoles(st, j) {
      assert NoHoles(st0, j);
      if j != i {
        KeptFrame(st0, st, j, st0.inodes[j].size);
      }
    }
    forall c: nat | c < |st0.data| ensures InUse(st, c) <==> InUse(st0, c) && !(c in owner0 && owner0[c].i == i) {
      assert InUse(st, c) == InUse(st2, c);
    }
  }

  lemma KeptFrame(st: State, st': State, j: nat, n: nat)
    requires MappedTo(st, j, n) && forall t: Slot :: t.i == j ==> Ptr(st', t) == Ptr(st, t)
    ensures MappedTo(st', j, n)
  {
    forall bn: nat | bn * BSIZE < n ensures Ptr(st', FileSlot(j, bn)) != 0 {
      assert FileSlot(j, bn).i == j;
    }
  }

  lemma TruncSlots(l: Layout, st0: State, st1: State, st2: State, owner0: map<nat, Slot>, owner1: map<nat, Slot>,
                   owner2: map<nat, Slot>, i: nat)
    requires Owned(l, st0, owner0) && Owned(l, st2, owner2) && i < |st0.inodes|
    requires Truncating(l, st0, st1, owner0, owner1, i, NDIRECT, 0) && Emptied(st1, st2, owner1, owner2, i)
    ensures Empty(st2, i) && forall t: Slot :: t.i != i ==> Ptr(st2, t) == Ptr(st0, t)
    ensures forall b :: b in owner2 <==> b in owner0 && owner0[b].i != i
  {
    SlotsOf(st0, owner0, i, l);
    forall t: Slot | t.i == i ensures Ptr(st2, t) == 0 {
      assert Ptr(st2, t) == if t.i == i && !t.Direct? then 0 else Ptr(st1, t);
    }
  }

  /** Progress of itrunc: the first k direct slots and the first n indirect entries of inode i are
      released; everything else is as before. */
  ghost predicate Truncating(l: Layout, st0: State, st: State, owner0: map<nat, Slot>, owner: map<nat, Slot>,
                             i: nat, k: nat, n: nat)
  {
    && st.data == st0.data && |st.inodes| == |st0.inodes|
    && (forall j :: 0 <= j < |st0.inodes| && j != i ==> st.inodes[j] == st0.inodes[j])
    && (i < |st0.inodes| ==> st.inodes[i].(addrs := []) == st0.inodes[i].(addrs := []))
    && (forall t :: Ptr(st, t) == if t.Direct? && t.i == i && t.k < k then 0 else Ptr(st0, t))
    && (forall b :: b in owner <==> b in owner0 && !Released(owner0[b], i, k, n))
    && (forall b :: b in owner ==> owner[b] == owner0[b])
  }

  ghost predicate Released(t: Slot, i: nat, k: nat, n: nat)
  {
    t.i == i && ((t.Direct? && t.k < k) || (t.Entry? && t.j < n))
  }

  lemma TruncStart(l: Layout, st: State, owner: map<nat, Slot>, i: nat)
    ensures Truncating(l, st, st, owner, owner, i, 0, 0)
  {
  }

  lemma TruncShape(l: Layout, st: State, owner: map<nat, Slot>, i: nat, k: nat)
    requires Owned(l, st, owner)
    ensures Shaped(l, st)
    ensures i < |st.inodes| && k <= NDIRECT ==> k < |st.inodes[i].addrs| && Addr(st, i, k) == st.inodes[i].addrs[k]
    ensures i < |st.inodes| && k <= NDIRECT && Addr(st, i, k) != 0 ==> Addr(st, i, k) / BPB < MapSize(l)
  {
    assert k < NDIRECT ==> Addr(st, i, k) == Ptr(st, Direct(i, k));
    assert Addr(st, i, NDIRECT) == Ptr(st, Indirect(i));
  }

  lemma TruncDirectStep(l: Layout, st0: State, st1: State, st2: State, owner0: map<nat, Slot>, owner1: map<nat, Slot>,
                        owner2: map<nat, Slot>, i: nat, k: nat)
    requires Truncating(l, st0, st1, owner0, owner1, i, k, 0) && i < |st1.inodes| && k < NDIRECT
    requires Owned(l, st1, owner1)
    requires var b := Addr(st1, i, k);
             if b == 0 then st2 == st1 && owner2 == owner1
             else && b in owner1 && owner1[b] == Direct(i, k) && owner2 == owner1 - {b}
                  && st2 == SetAddr(Freed(st1, b), i, k, 0) && SlotSet(st1, st2, Direct(i, k), 0)
    ensures Truncating(l, st0, st2, owner0, owner2, i, k + 1, 0)
  {
    assert Ptr(st1, Direct(i, k)) == Addr(st1, i, k);
  }

  /** The checks at the head of writei, in 32-bit arithmetic. */
  predicate Rejected(size: nat, off: nat, n: nat)
  {
    off > size || off + n >= U32 || off + n > MAXFILE * BSIZE
  }

  /** What a successful call of writei leaves behind. */
  ghost predicate WriteEffect(l: Layout, st0: State, st: State, i: nat, off: nat, s: seq<nat>, r: nat, touched: nat,
                              avail: nat, logged: set<nat>)
  {
    && i < |st0.inodes| == |st.inodes| && r <= touched <= |s|
    && (forall j :: 0 <= j < |st.inodes| && j != i ==> st.inodes[j] == st0.inodes[j])
    && st.inodes[i].(addrs := []) == st0.inodes[i].(addrs := [], size := Max(st0.inodes[i].size, off + r))
    && Spliced(st0, st, i, off, s[..touched]) && SlotsKept(st0, st)
    && r <= avail && WriteStops(l, st, off, s, r, touched, avail)
    && WriteRecorded(l, st0, st, i, off, r, touched, logged)
  }

  /** No slot loses its block. */
  ghost predicate SlotsKept(st: State, st': State)
  {
    forall t :: Ptr(st, t) != 0 ==> Ptr(st', t) == Ptr(st, t)
  }

  function SetSize(st: State, i: nat, n: nat): State
  {
    if i < |st.inodes| then st.(inodes := st.inodes[i := st.inodes[i].(size := n)]) else st
  }

  /** The file size affects neither slots nor bytes. */
  lemma SetSizeFrame(l: Layout, st: State, owner: map<nat, Slot>, i: nat, n: nat)
    requires Owned(l, st, owner)
    ensures var st' := SetSize(st, i, n); Owned(l, st', owner) && SameSlots(st, st') && SameFiles(st, st')
  {
    var st' := SetSize(st, i, n);
    forall u ensures Ptr(st', u) == Ptr(st, u) {
      forall k ensures Addr(st', u.i, k) == Addr(st, u.i, k) {
      }
    }
    OwnedSame(l, st, st', owner);
    forall j: nat, k: nat ensures ByteAt(st', j, k) == ByteAt(st, j, k) {
      assert Ptr(st', FileSlot(j, k / BSIZE)) == Ptr(st, FileSlot(j, k / BSIZE));
    }
  }

  lemma Resized(l: Layout, st0: State, mid: State, owner: map<nat, Slot>, i: nat, off: nat, s: seq<nat>, tot: nat,
                touched: nat, avail: nat, logged: set<nat>, logged': set<nat>)
    requires Owned(l, mid, owner) && Ended(l, st0, mid, i, off, s, tot, touched, avail, logged) && logged <= logged'
    requires forall j: nat :: j < |st0.inodes| ==> NoHoles(st0, j)
    requires off + |s| <= MAXFILE * BSIZE
    ensures i < |st0.inodes| == |mid.inodes|
    ensures var st := SetSize(mid, i, Max(st0.inodes[i].size, off + tot));
            && Owned(l, st, owner) && (forall j: nat :: j < |st.inodes| ==> NoHoles(st, j))
            && WriteEffect(l, st0, st, i, off, s, tot, touched, avail, logged')
  {
    hide Owned, Recorded, ByteAt, Ptr;
    var n := Max(st0.inodes[i].size, off + tot);
    var st := SetSize(mid, i, n);
    SetSizeFrame(l, mid, owner, i, n);
    SplicedNothing(mid, st, i, off + touched);
    SplicedTrans(st0, mid, st, i, off, s[..touched], []);
    assert s[..touched] + [] == s[..touched];
    forall j: nat | j < |st.inodes| ensures NoHoles(st, j) {
      assert NoHoles(st0, j);
      if j != i {
        KeptMapped(st0, mid, i, j, st0.inodes[j].size);
      }
    }
    ResizeRecorded(l, st0, mid, i, n, off, s, tot, touched, avail, logged, logged');
  }

  lemma ResizeRecorded(l: Layout, st0: State, mid: State, i: nat, n: nat, off: nat, s: seq<nat>, r: nat, touched: nat,
                       avail: nat, logged: set<nat>, logged': set<nat>)
    requires WriteRecorded(l, st0, mid, i, off, r, touched, logged) && logged <= logged'
    requires WriteStops(l, mid, off, s, r, touched, avail) && SameSlots(mid, SetSize(mid, i, n))
    ensures WriteRecorded(l, st0, SetSize(mid, i, n), i, off, r, touched, logged')
    ensures WriteStops(l, SetSize(mid, i, n), off, s, r, touched, avail)
  {
    hide Ptr, Covers;
    var st := SetSize(mid, i, n);
    assert forall c: nat :: InUse(st, c) == InUse(mid, c);
  }

  lemma EmptyAfterWrite(l: Layout, st0: State, st: State, i: nat, off: nat, s: seq<nat>, r: nat, touched: nat,
                        avail: nat, logged: set<nat>)
    requires WriteEffect(l, st0, st, i, off, s, r, touched, avail, logged) && st.inodes[i].typ != 0
    requires forall j: nat :: j < |st0.inodes| && st0.inodes[j].typ == 0 ==> Empty(st0, j)
    ensures forall j: nat :: j < |st.inodes| && st.inodes[j].typ == 0 ==> Empty(st, j)
    ensures st.inodes == st0.inodes[i := st.inodes[i]]
  {
    forall j: nat | j < |st.inodes| && st.inodes[j].typ == 0 ensures Empty(st, j) {
      EmptyKept(st0, st, j);
    }
  }

  lemma EndedKept(l: Layout, st0: State, st: State, i: nat, off: nat, s: seq<nat>, tot: nat, touched: nat,
                  avail: nat, logged: set<nat>)
    requires Ended(l, st0, st, i, off, s, tot, touched, avail, logged)
    ensures i < |st.inodes| == |st0.inodes| && st.inodes[i].size == st0.inodes[i].size && tot <= touched <= |s|
  {
  }

  lemma RecordedFree(l: Layout, st0: State, st: State, st': State, b: nat, logged: set<nat>, logged': set<nat>)
    requires Recorded(l, st0, st, logged) && st'.data == st.data && st'.bitmap == Freed(st, b).bitmap
    requires logged <= logged' && b / BPB + l.bmapStart in logged' && Shaped(l, st) && b < l.size
    requires SlotsShrink(st, st')
    ensures Recorded(l, st0, st', logged')
  {
    hide Ptr;
    forall c: nat ensures c != b ==> InUse(st', c) == InUse(st, c) {
      PutBitGet(st.bitmap, b, false, c);
    }
  }

  lemma SetSizeShrinks(st: State, i: nat, n: nat)
    ensures SlotsShrink(st, SetSize(st, i, n))
  {
    var st' := SetSize(st, i, n);
    forall u ensures Ptr(st', u) == Ptr(st, u) {
      forall k ensures Addr(st', u.i, k) == Addr(st, u.i, k) {
      }
    }
  }

  lemma FreedShrinks(st: State, b: nat)
    ensures SlotsShrink(st, Freed(st, b))
  {
  }

  lemma DroppedShrinks(st: State, i: nat, b: nat)
    ensures SlotsShrink(st, SetAddr(Freed(st, b), i, NDIRECT, 0))
  {
    DroppedSlots(st, Freed(st, b), i);
  }

  /** Slots keep their blocks or lose them. */
  ghost predicate SlotsShrink(st: State, st': State)
  {
    forall t :: Ptr(st', t) == Ptr(st, t) || Ptr(st', t) == 0
  }

  lemma RecordedRetype(l: Layout, st0: State, st: State, st': State, logged: set<nat>, logged': set<nat>)
    requires Recorded(l, st0, st, logged) && st'.data == st.data && st'.bitmap == st.bitmap && logged <= logged'
    requires SlotsShrink(st, st')
    ensures Recorded(l, st0, st', logged')
  {
    hide Ptr;
    assert forall c: nat :: InUse(st', c) == InUse(st, c);
  }

  /** The most blocks one writei of n bytes at off can log: its data blocks, a free-map block for
      each that is new, the indirect block and its free-map block, and the inode's block. */
  function LogCost(off: nat, n: nat): nat
  {
    2 * Rounds(off, n) + 3 - if n > 0 && off % BSIZE != 0 then 1 else 0
  }

  lemma TallyTotal(l: Layout, t: Tally, logged: set<nat>, ino: nat, off: nat, n: nat, peak: nat)
    requires t.Within(off % BSIZE != 0) && t.rounds <= Rounds(off, n) && t.maps <= MapBlocks(l, MapSize(l))
    ensures t.Covers({}, logged) ==>
              && |logged| < LogCost(off, n) && |logged + {ino}| <= LogCost(off, n)
              && (PeakOk(0, peak, logged) ==> peak < LogCost(off, n))
              && |logged + {ino}| <= Rounds(off, n) + MapSize(l) + 2
  {
    if t.Covers({}, logged) {
      var a := t.blocks + t.maps;
      UnionBound(t.blocks, t.maps);
      UnionBound(a, t.indirect);
      assert {} + t.blocks + t.maps + t.indirect == a + t.indirect;
      SubsetBound(logged, a + t.indirect);
      UnionBound(logged, {ino});
      SubsetBound(t.maps, MapBlocks(l, MapSize(l)));
    }
  }

  /** What has been logged beyond base: data blocks, free-map blocks and the block of inode i. */
  ghost predicate LoggedFor(l: Layout, i: nat, base: set<nat>, logged: set<nat>)
  {
    forall b :: b in logged && b !in base ==>
      b in MapBlocks(l, MapSize(l)) || l.nmeta <= b < l.size || b == i / IPB + l.inodeStart
  }

  lemma LoggedNothing(l: Layout, i: nat, logged: set<nat>)
    ensures LoggedFor(l, i, logged, logged)
  {
  }

  lemma LoggedInode(l: Layout, i: nat, base: set<nat>, logged: set<nat>)
    requires LoggedFor(l, i, base, logged)
    ensures LoggedFor(l, i, base, logged + {i / IPB + l.inodeStart})
  {
    hide MapBlocks;
  }

  lemma RoundLogged(l: Layout, st: State, st': State, owner: map<nat, Slot>, i: nat, off: nat, s: seq<nat>, avail: nat,
                    r: ChunkResult, addr: nat, maps: set<nat>, base: set<nat>, logged: set<nat>, logged': set<nat>)
    requires ChunkDone(l, st, st', i, off, s, avail, r, addr, maps, logged, logged') && Owned(l, st', owner)
    requires LoggedFor(l, i, base, logged) && maps <= MapBlocks(l, MapSize(l))
    ensures LoggedFor(l, i, base, logged')
  {
    hide Owned, Kept, Spliced, Recorded, MapBlocks, InUse;
    OwnedBound(l, st', owner, FileSlot(i, off / BSIZE));
    OwnedBound(l, st', owner, Indirect(i));
    assert Ptr(st', Indirect(i)) == Addr(st', i, NDIRECT);
  }

  /** log_write was never called with more blocks logged than are logged now, from peak p0 on. */
  ghost predicate PeakOk(p0: nat, p: nat, logged: set<nat>)
  {
    p <= Max(p0, |logged|)
  }

  lemma PeakStart(p: nat, logged: set<nat>)
    ensures PeakOk(p, p, logged)
  {
  }

  lemma PeakTrans(p0: nat, p1: nat, p2: nat, logged1: set<nat>, logged2: set<nat>)
    requires PeakOk(p0, p1, logged1) && PeakOk(p1, p2, logged2) && logged1 <= logged2
    ensures PeakOk(p0, p2, logged2)
  {
    SubsetBound(logged1, logged2);
  }

  lemma ChunkIs(st: State, i: nat, off: nat, s: seq<nat>)
    requires Ptr(st, FileSlot(i, off / BSIZE)) < |st.data|
    ensures var a := Ptr(st, FileSlot(i, off / BSIZE));
            Chunk(st, i, off, s) == State(st.bitmap, st.data[a := Overwrite(st.data[a], off % BSIZE, s)], st.inodes)
  {
  }

  /** What one round of writei leaves behind. */
  ghost predicate ChunkDone(l: Layout, st: State, st': State, i: nat, off: nat, s: seq<nat>, avail: nat,
                            r: ChunkResult, addr: nat, maps: set<nat>, logged: set<nat>, logged': set<nat>)
  {
    && Kept(st, st', i)
    && addr == Ptr(st', FileSlot(i, off / BSIZE))
    && (r == Written ==> avail >= |s| && Spliced(st, st', i, off, s) && addr != 0)
    && (r == NoSpace ==> addr == 0 && Spliced(st, st', i, off, []) && forall c: nat :: c < l.size ==> InUse(st', c))
    && (r == BadCopy ==> avail < |s| && Spliced(st, st', i, off, s[..avail]))
    && (r != BadCopy || avail == 0 || Ptr(st, FileSlot(i, off / BSIZE)) == 0 ==> Recorded(l, st, st', logged'))
    && RecordedBut(l, st, st', logged', addr) && (r == Written ==> addr in logged')
    && (r == BadCopy && Ptr(st, FileSlot(i, off / BSIZE)) != 0 ==> logged' == logged)
    && |maps| <= (if Ptr(st, FileSlot(i, off / BSIZE)) == 0 then 1 else 0)
                 + (if off / BSIZE >= NDIRECT && Addr(st, i, NDIRECT) == 0 then 1 else 0)
    && logged <= logged' <= logged + maps + ({addr, Addr(st', i, NDIRECT)} - {0})
    && (r == Written && off / BSIZE >= NDIRECT ==> Addr(st', i, NDIRECT) != 0)
  }

  /** The state of writei's loop after tot bytes. */
  ghost predicate Rounding(l: Layout, st0: State, st: State, i: nat, off: nat, s: seq<nat>, tot: nat, avail: nat,
                           base: set<nat>, logged: set<nat>, tally: Tally)
  {
    && RoundData(l, st0, st, i, off, s, tot, avail, logged)
    && RoundTally(st0, st, i, off, tot, base, logged, tally)
    && (tot < |s| ==> tot == 0 || (off + tot) % BSIZE == 0)
    && tot <= avail && tally.rounds == Rounds(off, tot)
  }

  ghost predicate RoundData(l: Layout, st0: State, st: State, i: nat, off: nat, s: seq<nat>, tot: nat, avail: nat,
                            logged: set<nat>)
  {
    && i < |st0.inodes| && tot <= |s|
    && Kept(st0, st, i) && Spliced(st0, st, i, off, s[..tot])
    && MappedTo(st, i, Max(st0.inodes[i].size, off + tot))
    && Recorded(l, st0, st, logged) && PiecesLogged(st, i, off, tot, logged)
    && tot <= avail
  }

  /** The blocks that hold the n bytes at off of file i were logged. */
  ghost predicate PiecesLogged(st: State, i: nat, off: nat, n: nat, logged: set<nat>)
  {
    forall bn: nat :: Covers(off, n, bn) ==> Ptr(st, FileSlot(i, bn)) != 0 && Ptr(st, FileSlot(i, bn)) in logged
  }

  /** Block bn of a file holds some of the n bytes at off. */
  predicate Covers(off: nat, n: nat, bn: nat)
  {
    n > 0 && off / BSIZE <= bn <= (off + n - 1) / BSIZE
  }

  lemma CoversMore(off: nat, n: nat, m: nat, bn: nat)
    requires 0 < m && (n == 0 || (off + n) % BSIZE == 0) && (off + n) % BSIZE + m <= BSIZE
    ensures Covers(off, n + m, bn) <==> Covers(off, n, bn) || bn == (off + n) / BSIZE
  {
  }

  lemma PiecesMore(st: State, st': State, i: nat, off: nat, n: nat, m: nat, logged: set<nat>, logged': set<nat>)
    requires PiecesLogged(st, i, off, n, logged) && SlotsKept(st, st') && logged <= logged'
    requires 0 < m && (n == 0 || (off + n) % BSIZE == 0) && (off + n) % BSIZE + m <= BSIZE
    requires var b := Ptr(st', FileSlot(i, (off + n) / BSIZE)); b != 0 && b in logged'
    ensures PiecesLogged(st', i, off, n + m, logged')
  {
    hide Covers, Ptr;
    forall bn: nat | Covers(off, n + m, bn)
      ensures Ptr(st', FileSlot(i, bn)) != 0 && Ptr(st', FileSlot(i, bn)) in logged'
    {
      CoversMore(off, n, m, bn);
    }
  }

  /** The block behind those that hold the n bytes at off. */
  function EndBlock(off: nat, n: nat): nat
  {
    if n == 0 then off / BSIZE else (off + n - 1) / BSIZE + 1
  }

  /** The slot is inode i's indirect one or that of a file block from lo up to hi. */
  predicate Between(t: Slot, i: nat, lo: nat, hi: nat)
  {
    t.i == i && (t.Indirect? || exists k: nat :: lo <= k < hi && t == FileSlot(i, k))
  }

  /** What has been logged beyond base: free-map blocks, and blocks of file i from its block lo up to hi. */
  ghost predicate LoggedSlots(l: Layout, owner: map<nat, Slot>, i: nat, lo: nat, hi: nat, base: set<nat>,
                              logged: set<nat>)
  {
    forall b :: b in logged && b !in base ==>
      b in MapBlocks(l, MapSize(l)) || (b in owner && Between(owner[b], i, lo, hi))
  }

  lemma LoggedSlotsNone(l: Layout, owner: map<nat, Slot>, i: nat, lo: nat, hi: nat, logged: set<nat>)
    ensures LoggedSlots(l, owner, i, lo, hi, logged, logged)
  {
  }

  lemma SlotsInode(l: Layout, owner: map<nat, Slot>, i: nat, lo: nat, hi: nat, base: set<nat>, logged: set<nat>, b: nat)
    requires LoggedSlots(l, owner, i, lo, hi, base, logged)
    ensures LoggedSlots(l, owner, i, lo, hi, base + {b}, logged + {b})
  {
    hide MapBlocks;
  }

  lemma LoggedSlotsMore(l: Layout, owner: map<nat, Slot>, i: nat, lo: nat, hi: nat, hi': nat, base: set<nat>,
                        logged: set<nat>)
    requires LoggedSlots(l, owner, i, lo, hi, base, logged) && hi <= hi'
    ensures LoggedSlots(l, owner, i, lo, hi', base, logged)
  {
    hide MapBlocks;
  }

  /** How far a write of r bytes at off may have logged blocks of the file: up to a block that it had to add. */
  ghost function WriteEnd(st: State, i: nat, off: nat, r: nat): nat
  {
    EndBlock(off, r) + if Ptr(st, FileSlot(i, EndBlock(off, r))) == 0 then 1 else 0
  }

  lemma EndsBehind(st: State, i: nat, off: nat, r: nat)
    ensures EndBlock(off, r) <= WriteEnd(st, i, off, r)
  {
  }

  /** Slots that are kept have the same owners. */
  lemma OwnersKept(l: Layout, st: State, st': State, owner: map<nat, Slot>, owner': map<nat, Slot>)
    requires Owned(l, st, owner) && Owned(l, st', owner') && SlotsKept(st, st')
    ensures forall b :: b in owner ==> b in owner' && owner'[b] == owner[b]
  {
    forall b | b in owner ensures b in owner' && owner'[b] == owner[b] {
      assert Ptr(st, owner[b]) == b;
    }
  }

  lemma RoundSlots(l: Layout, st0: State, st: State, st': State, owner: map<nat, Slot>, owner': map<nat, Slot>, i: nat,
                   off: nat, tot: nat, s: seq<nat>, avail: nat, r: ChunkResult, addr: nat, maps: set<nat>,
                   base: set<nat>, logged: set<nat>, logged': set<nat>)
    requires ChunkDone(l, st, st', i, off + tot, s, avail, r, addr, maps, logged, logged')
    requires Owned(l, st, owner) && Owned(l, st', owner') && SlotsKept(st0, st) && maps <= MapBlocks(l, MapSize(l))
    requires tot == 0 || (off + tot) % BSIZE == 0
    requires LoggedSlots(l, owner, i, off / BSIZE, EndBlock(off, tot), base, logged)
    requires 0 < |s| && (off + tot) % BSIZE + |s| <= BSIZE
    ensures r == Written ==> LoggedSlots(l, owner', i, off / BSIZE, EndBlock(off, tot + |s|), base, logged')
    ensures r != Written ==> LoggedSlots(l, owner', i, off / BSIZE, WriteEnd(st0, i, off, tot), base, logged')
  {
    hide MapBlocks, InUse, RecordedBut, Recorded, Spliced, LoggedSlots, Owned;
    var bn := (off + tot) / BSIZE;
    assert EndBlock(off, tot) == bn && EndBlock(off, tot + |s|) == bn + 1;
    OwnersKept(l, st, st', owner, owner');
    SlotOwner(l, st', owner', FileSlot(i, bn));
    SlotOwner(l, st', owner', Indirect(i));
    assert Ptr(st', Indirect(i)) == Addr(st', i, NDIRECT);
    LoggedSlotsMove(l, owner, owner', i, off / BSIZE, bn, base, logged);
    if r == BadCopy && Ptr(st, FileSlot(i, bn)) != 0 {
      LoggedSlotsMore(l, owner', i, off / BSIZE, bn, WriteEnd(st0, i, off, tot), base, logged);
    } else {
      LoggedSlotsAdd(l, owner', i, off / BSIZE, bn, base, logged, logged', maps, addr, Addr(st', i, NDIRECT));
    }
  }

  lemma LoggedSlotsMove(l: Layout, owner: map<nat, Slot>, owner': map<nat, Slot>, i: nat, lo: nat, hi: nat,
                        base: set<nat>, logged: set<nat>)
    requires LoggedSlots(l, owner, i, lo, hi, base, logged)
    requires forall b :: b in owner ==> b in owner' && owner'[b] == owner[b]
    ensures LoggedSlots(l, owner', i, lo, hi, base, logged)
  {
    hide MapBlocks, Between;
  }

  /** One round: the file's next block, its indirect block and their free-map blocks. */
  lemma LoggedSlotsAdd(l: Layout, owner: map<nat, Slot>, i: nat, lo: nat, bn: nat, base: set<nat>, logged: set<nat>,
                       logged': set<nat>, maps: set<nat>, addr: nat, ib: nat)
    requires LoggedSlots(l, owner, i, lo, bn, base, logged) && lo <= bn && maps <= MapBlocks(l, MapSize(l))
    requires logged' <= logged + maps + ({addr, ib} - {0})
    requires addr != 0 ==> addr in owner && owner[addr] == FileSlot(i, bn)
    requires ib != 0 ==> ib in owner && owner[ib] == Indirect(i)
    ensures LoggedSlots(l, owner, i, lo, bn + 1, base, logged')
  {
    hide MapBlocks;
    LoggedSlotsMore(l, owner, i, lo, bn, bn + 1, base, logged);
    assert Between(FileSlot(i, bn), i, lo, bn + 1);
  }

  lemma SlotOwner(l: Layout, st: State, owner: map<nat, Slot>, t: Slot)
    requires Owned(l, st, owner)
    ensures Ptr(st, t) != 0 ==> Ptr(st, t) in owner && owner[Ptr(st, t)] == t
  {
  }

  lemma GainLogged(l: Layout, st: State, st': State, t: Slot, logged: set<nat>)
    requires Recorded(l, st, st', logged)
    ensures Ptr(st, t) == 0 && Ptr(st', t) != 0 ==> Ptr(st', t) in logged
  {
  }

  /** How many of the first n bytes at off fill blocks to their end. */
  function Whole(off: nat, n: nat): nat
  {
    if off % BSIZE + n < BSIZE then 0 else n - (off + n) % BSIZE
  }

  /** Where a copy that can fetch only avail bytes stops. */
  lemma StopsWhole(off: nat, tot: nat, m: nat, avail: nat)
    requires (tot == 0 || (off + tot) % BSIZE == 0) && tot <= avail < tot + m && (off + tot) % BSIZE + m <= BSIZE
    ensures tot == Whole(off, avail)
  {
  }

  ghost predicate RoundTally(st0: State, st: State, i: nat, off: nat, tot: nat, base: set<nat>, logged: set<nat>,
                             tally: Tally)
  {
    && tally.rounds == Rounds(off, tot)
    && tally.Head(base, logged, Addr(st0, i, NDIRECT), Addr(st, i, NDIRECT), off % BSIZE != 0)
    && (off % BSIZE != 0 ==> Ptr(st, FileSlot(i, off / BSIZE)) != 0)
  }

  lemma RoundsStart(l: Layout, st: State, i: nat, off: nat, s: seq<nat>, avail: nat, logged: set<nat>)
    requires i < |st.inodes| && off <= st.inodes[i].size && NoHoles(st, i)
    ensures Rounding(l, st, st, i, off, s, 0, avail, logged, logged, Tally(0, {}, {}, {Addr(st, i, NDIRECT)} - {0}))
  {
    assert off % BSIZE != 0 ==> (off / BSIZE) * BSIZE < st.inodes[i].size;
  }

  lemma RoundKept(l: Layout, st0: State, st: State, i: nat, off: nat, s: seq<nat>, tot: nat, avail: nat,
                  logged: set<nat>)
    requires RoundData(l, st0, st, i, off, s, tot, avail, logged)
    ensures i < |st.inodes| == |st0.inodes| && SlotsKept(st0, st)
  {
  }

  lemma RoundsOver(l: Layout, st0: State, st: State, i: nat, off: nat, s: seq<nat>, avail: nat,
                   base: set<nat>, logged: set<nat>, tally: Tally)
    requires Rounding(l, st0, st, i, off, s, |s|, avail, base, logged, tally)
    ensures Ended(l, st0, st, i, off, s, |s|, |s|, avail, logged)
    ensures tally.Covers(base, logged) && tally.Within(off % BSIZE != 0)
  {
    RecordedIsBut(l, st0, st, logged, Ptr(st, NextSlot(i, off, |s|)));
  }

  lemma RoundCounted(l: Layout, st0: State, st1: State, st2: State, i: nat, off: nat, s: seq<nat>, tot: nat, m: nat,
                     avail: nat, r: ChunkResult, addr: nat, maps: set<nat>, base: set<nat>, logged1: set<nat>,
                     logged2: set<nat>, tally: Tally) returns (tally': Tally)
    requires Kept(st0, st1, i) && RoundTally(st0, st1, i, off, tot, base, logged1, tally)
    requires Kept(st1, st2, i) && Rounds(off, tot + m) == Rounds(off, tot) + 1
    requires |maps| <= (if Ptr(st1, FileSlot(i, (off + tot) / BSIZE)) == 0 then 1 else 0)
                       + (if (off + tot) / BSIZE >= NDIRECT && Addr(st1, i, NDIRECT) == 0 then 1 else 0)
    requires logged1 <= logged2 <= logged1 + maps + ({addr, Addr(st2, i, NDIRECT)} - {0})
    requires r == Written && (off + tot) / BSIZE >= NDIRECT ==> Addr(st2, i, NDIRECT) != 0
    requires tally.rounds == 0 ==> tot == 0
    ensures tally'.rounds == tally.rounds + 1 && tally'.Covers(base, logged2) && tally'.Within(off % BSIZE != 0)
    ensures tally'.maps == tally.maps + maps
    ensures r == Written ==> RoundTally(st0, st2, i, off, tot + m, base, logged2, tally')
  {
    assert Addr(st0, i, NDIRECT) == Ptr(st0, Indirect(i)) && Addr(st1, i, NDIRECT) == Ptr(st1, Indirect(i));
    assert Addr(st2, i, NDIRECT) == Ptr(st2, Indirect(i));
    tally' := TallyStep(tally, base, logged1, logged2, Addr(st0, i, NDIRECT), Addr(st1, i, NDIRECT),
                        Addr(st2, i, NDIRECT), off % BSIZE != 0, addr, maps,
                        Ptr(st1, FileSlot(i, (off + tot) / BSIZE)) == 0, (off + tot) / BSIZE >= NDIRECT);
  }

  /** One round, whatever its outcome: the loop invariant again after success, and the final
      state after failure. */
  lemma RoundDone(l: Layout, st0: State, st1: State, st2: State, i: nat, off: nat, s: seq<nat>, tot: nat, m: nat,
                  avail: nat, r: ChunkResult, addr: nat, maps: set<nat>, base: set<nat>, logged1: set<nat>,
                  logged2: set<nat>, tally: Tally) returns (tally': Tally)
    requires Rounding(l, st0, st1, i, off, s, tot, avail, base, logged1, tally) && off <= st0.inodes[i].size
    requires tot < |s| && m == Min(|s| - tot, BSIZE - (off + tot) % BSIZE)
    requires ChunkDone(l, st1, st2, i, off + tot, s[tot..tot + m], avail - tot, r, addr, maps, logged1, logged2)
    ensures tally'.Covers(base, logged2) && tally'.Within(off % BSIZE != 0) && tally'.rounds <= Rounds(off, |s|)
    ensures logged1 <= logged2 && tally'.maps == tally.maps + maps
    ensures r == Written ==> Rounding(l, st0, st2, i, off, s, tot + m, avail, base, logged2, tally')
    ensures r != Written ==>
              Ended(l, st0, st2, i, off, s, tot, if r == BadCopy then avail else tot, avail, logged2)
  {
    RoundsStep(off, tot, m, |s|);
    tally' := RoundCounted(l, st0, st1, st2, i, off, s, tot, m, avail, r, addr, maps, base, logged1, logged2, tally);
    if r == Written {
      RoundWritten(l, st0, st1, st2, i, off, s, tot, m, avail, addr, maps, base, logged1, logged2);
    } else {
      RoundFailed(l, st0, st1, st2, i, off, s, tot, m, avail, r, addr, maps, base, logged1, logged2);
    }
  }

  lemma RoundWritten(l: Layout, st0: State, st1: State, st2: State, i: nat, off: nat, s: seq<nat>, tot: nat, m: nat,
                     avail: nat, addr: nat, maps: set<nat>, base: set<nat>, logged1: set<nat>, logged2: set<nat>)
    requires RoundData(l, st0, st1, i, off, s, tot, avail, logged1) && tot + m <= |s| && off <= st0.inodes[i].size
    requires 0 < m && (off + tot) % BSIZE + m <= BSIZE && (tot == 0 || (off + tot) % BSIZE == 0)
    requires ChunkDone(l, st1, st2, i, off + tot, s[tot..tot + m], avail - tot,
                       Written, addr, maps, logged1, logged2)
    ensures RoundData(l, st0, st2, i, off, s, tot + m, avail, logged2)
  {
    hide Spliced, Recorded, RecordedBut, MappedTo, PiecesLogged, InUse, Kept, SlotsKept, Ptr;
    KeptShape(st0, st1, i);
    KeptShape(st1, st2, i);
    KeptTrans(st0, st1, st2, i);
    SplicedTrans(st0, st1, st2, i, off, s[..tot], s[tot..tot + m]);
    assert s[..tot] + s[tot..tot + m] == s[..tot + m];
    KeptMapped(st1, st2, i, i, Max(st0.inodes[i].size, off + tot));
    MappedExtend(st2, i, off + tot, m, Max(st0.inodes[i].size, off + tot));
    RecordedTrans(l, st0, st1, st2, logged1, logged2);
    PiecesMore(st1, st2, i, off, tot, m, logged1, logged2);
  }

  lemma RoundFailed(l: Layout, st0: State, st1: State, st2: State, i: nat, off: nat, s: seq<nat>, tot: nat, m: nat,
                    avail: nat, r: ChunkResult, addr: nat, maps: set<nat>, base: set<nat>, logged1: set<nat>,
                    logged2: set<nat>)
    requires RoundData(l, st0, st1, i, off, s, tot, avail, logged1) && tot + m <= |s| && r != Written
    requires (off + tot) % BSIZE + m <= BSIZE && (tot == 0 || (off + tot) % BSIZE == 0)
    requires ChunkDone(l, st1, st2, i, off + tot, s[tot..tot + m], avail - tot,
                       r, addr, maps, logged1, logged2)
    ensures Ended(l, st0, st2, i, off, s, tot, if r == BadCopy then avail else tot, avail, logged2)
  {
    hide Spliced, Recorded, RecordedBut, MappedTo, PiecesLogged, InUse, Kept, SlotsKept, Ptr;
    KeptShape(st0, st1, i);
    KeptShape(st1, st2, i);
    var left := avail - tot;
    KeptTrans(st0, st1, st2, i);
    var piece := if r == BadCopy then s[tot..tot + m][..left] else [];
    SplicedTrans(st0, st1, st2, i, off, s[..tot], piece);
    assert s[..tot] + piece == s[..if r == BadCopy then avail else tot];
    KeptMapped(st1, st2, i, i, Max(st0.inodes[i].size, off + tot));
    RecordedButTrans(l, st0, st1, st2, logged1, logged2, addr);
    if r != BadCopy || left == 0 || Ptr(st1, FileSlot(i, (off + tot) / BSIZE)) == 0 {
      RecordedTrans(l, st0, st1, st2, logged1, logged2);
    }
    GainLogged(l, st0, st1, FileSlot(i, (off + tot) / BSIZE), logged1);
    KeptPtr(st1, st2, FileSlot(i, (off + tot) / BSIZE));
    if r == BadCopy {
      StopsWhole(off, tot, m, avail);
    }
    PiecesKept(st1, st2, i, off, tot, logged1, logged2);
  }

  lemma KeptShape(st: State, st': State, i: nat)
    requires Kept(st, st', i)
    ensures i < |st.inodes| == |st'.inodes| && SlotsKept(st, st') && st'.inodes[i].size == st.inodes[i].size
  {
  }

  lemma KeptPtr(st: State, st': State, t: Slot)
    requires SlotsKept(st, st')
    ensures Ptr(st, t) != 0 ==> Ptr(st', t) == Ptr(st, t)
  {
  }

  lemma PiecesKept(st: State, st': State, i: nat, off: nat, n: nat, logged: set<nat>, logged': set<nat>)
    requires PiecesLogged(st, i, off, n, logged) && SlotsKept(st, st') && logged <= logged'
    ensures PiecesLogged(st', i, off, n, logged')
  {
    hide Ptr, Covers;
  }

  /** What writei's loop leaves behind. */
  ghost predicate Ended(l: Layout, st0: State, st: State, i: nat, off: nat, s: seq<nat>, tot: nat, touched: nat,
                        avail: nat, logged: set<nat>)
  {
    && i < |st0.inodes| && Kept(st0, st, i)
    && tot <= touched <= |s| && Spliced(st0, st, i, off, s[..touched])
    && MappedTo(st, i, Max(st0.inodes[i].size, off + tot))
    && tot <= avail && WriteStops(l, st, off, s, tot, touched, avail)
    && WriteRecorded(l, st0, st, i, off, tot, touched, logged)
  }

  ghost predicate DiskFull(l: Layout, st: State)
  {
    forall c: nat :: c < l.size ==> InUse(st, c)
  }

  /** Why a write of r bytes ended: all were written, the disk is full, or the source faulted, and then
      it ended with the last whole block. */
  ghost predicate WriteStops(l: Layout, st: State, off: nat, s: seq<nat>, r: nat, touched: nat, avail: nat)
  {
    && (touched == r || (touched == avail < |s| && r == Whole(off, avail)))
    && (r < |s| ==> DiskFull(l, st) || (avail < |s| && touched == avail && r == Whole(off, avail)))
  }

  /** The block that a write of r bytes at off would have filled next. */
  function NextSlot(i: nat, off: nat, r: nat): Slot
  {
    FileSlot(i, (off + r) / BSIZE)
  }

  /** What a write has logged: the blocks of its r bytes and whatever else it changed, except the block in
      which the source faulted, if that block was there before and part of it has been stored. */
  ghost predicate WriteRecorded(l: Layout, st0: State, st: State, i: nat, off: nat, r: nat, touched: nat,
                                logged: set<nat>)
  {
    && PiecesLogged(st, i, off, r, logged)
    && RecordedBut(l, st0, st, logged, Ptr(st, NextSlot(i, off, r)))
    && (touched == r || Ptr(st0, NextSlot(i, off, r)) == 0 ==> Recorded(l, st0, st, logged))
  }

  /** How many blocks n bytes from off on touch. */
  function Rounds(off: nat, n: nat): nat
  {
    if n == 0 then 0 else (off + n - 1) / BSIZE - off / BSIZE + 1
  }

  lemma RoundsStep(off: nat, tot: nat, m: nat, n: nat)
    requires tot < n && (tot == 0 || (off + tot) % BSIZE == 0)
    requires m == Min(n - tot, BSIZE - (off + tot) % BSIZE)
    ensures 0 < m && Rounds(off, tot + m) == Rounds(off, tot) + 1 && Rounds(off, tot + m) <= Rounds(off, n)
    ensures tot + m < n ==> (off + tot + m) % BSIZE == 0
  {
  }

  /** What a run of writei rounds has logged: data blocks, free-map blocks and the indirect block. */
  datatype Tally = Tally(rounds: nat, blocks: set<nat>, maps: set<nat>, indirect: set<nat>) {
    ghost predicate Covers(base: set<nat>, logged: set<nat>)
    {
      logged <= base + blocks + maps + indirect && |blocks| <= rounds && |indirect| <= 1
    }

    /** At most one free-map block for each new data block and one for a new indirect block; the
        first block is not new when the write starts inside it. */
    ghost predicate Within(partial: bool)
    {
      |maps| <= rounds + 1 - if rounds > 0 && partial then 1 else 0
    }

    /** The state at the head of the loop, ib0 and ib being the indirect block then and now. */
    ghost predicate Head(base: set<nat>, logged: set<nat>, ib0: nat, ib: nat, partial: bool)
    {
      && Covers(base, logged) && indirect == {ib} - {0}
      && |maps| <= rounds + (if ib0 == 0 && ib != 0 then 1 else 0) - (if rounds > 0 && partial then 1 else 0)
    }
  }

  lemma UnionBound(a: set<nat>, b: set<nat>)
    ensures |a + b| <= |a| + |b|
  {
    assert a + b == a + (b - a);
  }

  lemma TallyStep(t: Tally, base: set<nat>, logged: set<nat>, logged': set<nat>, ib0: nat, ib: nat, ib': nat,
                  partial: bool, addr: nat, maps: set<nat>, missing: bool, deep: bool) returns (t': Tally)
    requires t.Head(base, logged, ib0, ib, partial)
    requires logged' <= logged + maps + ({addr, ib'} - {0})
    requires |maps| <= (if missing then 1 else 0) + (if deep && ib == 0 then 1 else 0)
    requires (ib != 0 ==> ib' == ib) && (ib == 0 ==> ib0 == 0)
    requires t.rounds == 0 && partial ==> !missing
    ensures t'.rounds == t.rounds + 1 && t'.Covers(base, logged') && t'.Within(partial)
    ensures t'.maps == t.maps + maps
    ensures (deep ==> ib' != 0) ==> t'.Head(base, logged', ib0, ib', partial)
  {
    t' := Tally(t.rounds + 1, t.blocks + {addr}, t.maps + maps, {ib'} - {0});
    UnionBound(t.maps, maps);
    UnionBound(t.blocks, {addr});
    SubsetBound({ib'} - {0}, {ib'});
    TallyCovers(t, base, logged, logged', ib, ib', addr, maps);
  }

  lemma TallyCovers(t: Tally, base: set<nat>, logged: set<nat>, logged': set<nat>, ib: nat, ib': nat, addr: nat,
                    maps: set<nat>)
    requires logged <= base + t.blocks + t.maps + t.indirect && t.indirect == {ib} - {0}
    requires logged' <= logged + maps + ({addr, ib'} - {0}) && (ib != 0 ==> ib' == ib)
    ensures logged' <= base + (t.blocks + {addr}) + (t.maps + maps) + ({ib'} - {0})
  {
  }

  /** bmap has given file i blocks without changing any file's bytes, and has logged what it changed. */
  ghost predicate Filled(l: Layout, st: State, st': State, i: nat, logged: set<nat>)
  {
    Grown(st, st', i) && Recorded(l, st, st', logged)
  }

  /** The blocks of the bytes from lo to hi of file i are there. */
  ghost predicate MappedFrom(st: State, i: nat, lo: nat, hi: nat)
  {
    forall bn: nat :: lo / BSIZE <= bn && bn * BSIZE < hi && lo < hi ==> Ptr(st, FileSlot(i, bn)) != 0
  }

  /** What readi returns when m bytes from off on are wanted and there.  A read of a file with a hole is short
      only on a full disk, and then it ends with a whole block. */
  ghost predicate ReadDone(l: Layout, st0: State, st: State, i: nat, off: nat, m: nat, room: nat, r: ReadResult)
  {
    && off + m <= |Content(st, i)|
    && if NoHoles(st0, i) then r == if m <= room then Read(Content(st, i)[off..off + m]) else Fault
       else if r.Fault? then room < m
       else
         var k := |r.bytes|;
         && k <= m && r.bytes == Content(st, i)[off..off + k] && MappedFrom(st, i, off, off + k)
         && (k < m ==> DiskFull(l, st) && (k == 0 || (off + k) % BSIZE == 0))
         && (k == 0 && off / BSIZE < NDIRECT ==> st == st0)
  }

  lemma FilledNothing(l: Layout, st: State, i: nat, off: nat, logged: set<nat>)
    requires i < |st.inodes|
    ensures Filled(l, st, st, i, logged) && MappedFrom(st, i, off, off)
  {
  }

  lemma FilledMore(l: Layout, a: State, b: State, c: State, i: nat, x: set<nat>, y: set<nat>)
    requires Filled(l, a, b, i, x) && Filled(l, b, c, i, y) && x <= y
    ensures Filled(l, a, c, i, y)
  {
    hide Grown, Recorded;
    GrownTrans(a, b, c, i);
    RecordedTrans(l, a, b, c, x, y);
  }

  lemma FilledSame(l: Layout, st: State, st': State, i: nat, logged: set<nat>)
    requires Filled(l, st, st', i, logged)
    ensures i < |st.inodes| == |st'.inodes| && st'.inodes[i].size == st.inodes[i].size
    ensures Content(st', i) == Content(st, i) && SlotsKept(st, st')
  {
    hide Recorded, ByteAt;
    assert SameFile(st, st', i);
  }

  lemma FilledMapped(l: Layout, st: State, st': State, i: nat, logged: set<nat>, lo: nat, hi: nat)
    requires Filled(l, st, st', i, logged) && MappedFrom(st, i, lo, hi)
    ensures MappedFrom(st', i, lo, hi)
  {
    hide Filled;
    FilledSame(l, st, st', i, logged);
    hide Ptr;
  }

  lemma MappedMore(l: Layout, st: State, st': State, i: nat, logged: set<nat>, lo: nat, hi: nat, k: nat)
    requires Filled(l, st, st', i, logged) && MappedFrom(st, i, lo, hi) && lo <= hi && hi % BSIZE + k <= BSIZE
    requires Ptr(st', FileSlot(i, hi / BSIZE)) != 0
    ensures MappedFrom(st', i, lo, hi + k)
  {
    hide Filled;
    FilledMapped(l, st, st', i, logged, lo, hi);
    hide Ptr;
    forall bn: nat | lo / BSIZE <= bn && bn * BSIZE < hi + k && lo < hi + k ensures Ptr(st', FileSlot(i, bn)) != 0 {
      if bn * BSIZE >= hi || lo == hi {
        assert bn == hi / BSIZE;
      }
    }
  }

  lemma HoleFree(st: State, i: nat, off: nat)
    requires i < |st.inodes| && off < st.inodes[i].size
    ensures NoHoles(st, i) ==> Ptr(st, FileSlot(i, off / BSIZE)) != 0
  {
    hide Ptr;
    assert off / BSIZE * BSIZE <= off;
  }

  lemma JoinSlices(c: seq<nat>, a: nat, b: nat, d: nat)
    requires a <= b <= d <= |c|
    ensures c[a..b] + c[b..d] == c[a..d]
  {
  }

  lemma SameMapBlock(b: nat, bi: nat)
    requires b % BPB == 0 && bi < BPB
    ensures (b + bi) / BPB == b / BPB
  {
  }
}
