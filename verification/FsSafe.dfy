/** What the last commit holds beside what the cache shows: the two differ where a write stopped half-way
    through a block that it did not log. */
module FsSafe {
  import opened FsBytes
  import opened FsState
  import opened Fs

  /** Inode blocks, free map and data follow one another. */
  ghost predicate Ordered(l: Layout, ninodes: nat)
  {
    && l.inodeStart + ninodes / IPB < l.bmapStart && l.bmapStart + MapSize(l) <= l.nmeta
  }

  /** The blocks of a transaction are committed as the cache has them. */
  ghost predicate Committed(st: State, safe: seq<Bytes>, safe': seq<Bytes>, logged: set<nat>)
  {
    && |safe| == |safe'| == |st.data|
    && forall b: nat :: b < |safe| ==> safe'[b] == if b in logged then st.data[b] else safe[b]
  }

  function Saved(st: State, safe: seq<Bytes>): State
  {
    st.(data := safe)
  }

  /** A transaction that logs its changes, but for one block that is not an indirect one, keeps the last
      commit in step. */
  lemma BackedAfter(l: Layout, st0: State, safe0: seq<Bytes>, owner0: map<nat, Slot>, st: State, safe: seq<Bytes>,
                    owner: map<nat, Slot>, logged: set<nat>, a: nat)
    requires Owned(l, st0, owner0) && BackedBy(st0, safe0, owner0) && Owned(l, st, owner)
    requires Committed(st, safe0, safe, logged) && RecordedBut(l, st0, st, logged, a)
    requires a in owner ==> !owner[a].Indirect?
    ensures BackedBy(st, safe, owner)
  {
    hide Ptr, InUse;
    forall b | b in owner && owner[b].Indirect? && b < |safe| ensures safe[b] == st.data[b] {
      var t := owner[b];
      assert Ptr(st, t) == b;
      if b !in logged {
        assert Ptr(st0, t) == b;
        assert owner0[b] == t;
      }
    }
  }

  /** A byte of the last commit after a transaction: as in the cache if its block was logged, and else as
      it was. */
  lemma SavedByte(l: Layout, st0: State, safe0: seq<Bytes>, owner0: map<nat, Slot>, st: State, safe: seq<Bytes>,
                  owner: map<nat, Slot>, logged: set<nat>, j: nat, k: nat)
    requires Owned(l, st0, owner0) && BackedBy(st0, safe0, owner0) && Owned(l, st, owner) && BackedBy(st, safe, owner)
    requires Committed(st, safe0, safe, logged) && GainsLogged(st0, st, logged)
    requires Ptr(st, FileSlot(j, k / BSIZE)) == 0 ==> Ptr(st0, FileSlot(j, k / BSIZE)) == 0
    ensures var b := Ptr(st, FileSlot(j, k / BSIZE));
            ByteAt(Saved(st, safe), j, k) ==
            if b != 0 && b in logged then ByteAt(st, j, k) else ByteAt(Saved(st0, safe0), j, k)
  {
    BackedSlots(l, st0, safe0, owner0);
    BackedSlots(l, st, safe, owner);
    hide Ptr, Owned, BackedBy, SameSlots;
    var t := FileSlot(j, k / BSIZE);
    SlotsAgree(st, Saved(st, safe), t);
    SlotsAgree(st0, Saved(st0, safe0), t);
    assert Ptr(st, t) !in logged && Ptr(st, t) != 0 ==> Ptr(st0, t) == Ptr(st, t);
  }

  lemma SlotsAgree(st: State, st': State, t: Slot)
    requires SameSlots(st, st')
    ensures Ptr(st', t) == Ptr(st, t)
  {
  }

  /** Recycling a buffer takes back what its block has not committed. */
  lemma RecycledByte(l: Layout, st: State, safe: seq<Bytes>, owner: map<nat, Slot>, b: nat, j: nat, k: nat)
    requires Owned(l, st, owner) && BackedBy(st, safe, owner) && b < |safe|
    ensures var st' := st.(data := st.data[b := safe[b]]);
            ByteAt(st', j, k) ==
            if b != 0 && Ptr(st, FileSlot(j, k / BSIZE)) == b then ByteAt(Saved(st, safe), j, k) else ByteAt(st, j, k)
  {
    var st' := st.(data := st.data[b := safe[b]]);
    RecycledSlots(l, st, safe, owner, b);
    BackedSlots(l, st, safe, owner);
    hide Ptr, Owned, BackedBy, SameSlots;
    SlotsAgree(st, st', FileSlot(j, k / BSIZE));
    SlotsAgree(st, Saved(st, safe), FileSlot(j, k / BSIZE));
  }

  lemma RecycledSlots(l: Layout, st: State, safe: seq<Bytes>, owner: map<nat, Slot>, b: nat)
    requires Owned(l, st, owner) && BackedBy(st, safe, owner) && b < |safe|
    ensures var st' := st.(data := st.data[b := safe[b]]);
            SameSlots(st, st') && Owned(l, st', owner) && BackedBy(st', safe, owner)
  {
    var st' := st.(data := st.data[b := safe[b]]);
    forall t ensures Ptr(st', t) == Ptr(st, t) {
      if t.Entry? {
        assert Addr(st, t.i, NDIRECT) == Ptr(st, Indirect(t.i));
      }
    }
    OwnedSame(l, st, st', owner);
  }

  /** With the layout in order, a logged block that a slot holds is one of the file written. */
  lemma LoggedData(l: Layout, st: State, owner: map<nat, Slot>, ninodes: nat, i: nat, lo: nat, hi: nat,
                   logged: set<nat>,
                   t: Slot)
    requires Ordered(l, ninodes) && i < ninodes && Owned(l, st, owner)
    requires LoggedSlots(l, owner, i, lo, hi, {i / IPB + l.inodeStart}, logged)
    ensures Ptr(st, t) != 0 && Ptr(st, t) in logged ==> Between(t, i, lo, hi)
  {
    var b := Ptr(st, t);
    if b != 0 && b in logged {
      OwnedBound(l, st, owner, t);
      SlotOwner(l, st, owner, t);
      if b in MapBlocks(l, MapSize(l)) {
        MapBlocksBound(l, MapSize(l), b);
      }
    }
  }
}
