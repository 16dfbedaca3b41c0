/** kernel/sysfile.c and kernel/fs.c: link, unlink, create and iput, as far as entries and link counts go. */
module Links {
  import opened LinkState

  /** The first two entries of a finished directory. */
  ghost predicate Made(f: Fs, d: int) {
    && Slots(f, d) >= 2
    && Ent(f, d, 0).inum != 0 && Ent(f, d, 0).name == "."
    && Ent(f, d, 1).inum != 0 && Ent(f, d, 1).name == ".."
  }

  ghost predicate MadeAt(f: Fs, making: set<int>, d: int) {
    && (d in making ==> KindOf(f, d) == DIR)
    && (KindOf(f, d) == DIR && d !in making ==> Made(f, d))
  }

  /** A directory with its first two entries. */
  ghost function Dotted(f: Fs, i: int, d: int): Fs {
    SetEnt(SetEnt(f, i, 0, Dirent(i, ".")), i, 1, Dirent(d, ".."))
  }

  ghost predicate SameInode(f: Fs, g: Fs, j: int) {
    KindOf(g, j) == KindOf(f, j) && Nlink(g, j) == Nlink(f, j) && Credit(g, j) == Credit(f, j)
  }

  ghost predicate SameEntry(f: Fs, g: Fs, a: int, b: int) {
    Ent(g, a, b) == Ent(f, a, b) || (Ent(g, a, b).inum == 0 && Ent(f, a, b).inum == 0)
  }

  /** The same inodes in use with the same counts, and the same entries. */
  ghost predicate Alike(f: Fs, g: Fs) {
    (forall j :: SameInode(f, g, j)) && (forall a, b :: SameEntry(f, g, a, b))
  }

  ghost predicate InodeAfter(f: Fs, g: Fs, d: int, i: int, type': Kind, j: int) {
    && KindOf(g, j) == (if j == i then type' else KindOf(f, j)) && Credit(g, j) == Credit(f, j)
    && Nlink(g, j) == if j == i then 1 else if j == d && type' == DIR then Nlink(f, d) + 1 else Nlink(f, j)
  }

  ghost predicate EntryAfter(f: Fs, g: Fs, d: int, k: int, name: string, i: int, type': Kind, a: int, b: int) {
    if a == d && b == k then Ent(f, a, b).inum == 0 && Ent(g, a, b) == Dirent(i, name)
    else if a == i && type' == DIR && b == 0 then Ent(g, a, b) == Dirent(i, ".")
    else if a == i && type' == DIR && b == 1 then Ent(g, a, b) == Dirent(d, "..")
    else SameEntry(f, g, a, b)
  }

  /** Inode `i` is new, with one link and one name, and a directory also has its two entries; nothing else is
      different. */
  ghost predicate Appeared(f: Fs, g: Fs, d: int, k: int, name: string, i: int, type': Kind) {
    (forall j :: InodeAfter(f, g, d, i, type', j)) && (forall a, b :: EntryAfter(f, g, d, k, name, i, type', a, b))
  }

  lemma Itself(f: Fs)
    ensures Alike(f, f)
  {
    forall j ensures SameInode(f, f, j) { }
    forall a, b ensures SameEntry(f, f, a, b) { }
  }

  lemma NothingThere(f: Fs, i: int)
    requires Inv(f) && i > 0 && KindOf(f, i) == FREE
    ensures Nlink(f, i) == 0 && Credit(f, i) == 0 && forall k :: Ent(f, i, k).inum == 0
  {
    assert Unlinked(f, i);
    NoLinkNoName(f, i);
    forall k ensures Ent(f, i, k).inum == 0 { assert EntryOk(f, i, k); }
  }

  /** The allocated inode, with or without its two entries, can be given up without a trace. */
  lemma GivenUp(f0: Fs, f1: Fs, f2: Fs, i: int, type': Kind)
    requires KindOf(f0, i) == FREE && Nlink(f0, i) == 0 && Credit(f0, i) == 0 && forall k :: Ent(f0, i, k).inum == 0
    requires f1 == Alloc(f0, i, type')
    requires f2 == f1 || f2 == SetEnt(f1, i, 0, Dirent(i, ".")) || exists d :: f2 == Dotted(f1, i, d)
    ensures Credit(f2, i) == Nlink(f2, i) == 1 && Alike(f0, LinkState.Free(DropLink(f2, i), i))
  {
    var g := LinkState.Free(DropLink(f2, i), i);
    forall j ensures SameInode(f0, g, j) { }
    forall a, b ensures SameEntry(f0, g, a, b) { }
  }

  lemma Complete(f0: Fs, f2: Fs, d: int, k: nat, name: string, i: int, type': Kind)
    requires Inv(f0) && KindOf(f0, i) == FREE && Nlink(f0, i) == 0 && Credit(f0, i) == 0 && KindOf(f0, d) == DIR
    requires forall b :: Ent(f0, i, b).inum == 0
    requires f2 == if type' == DIR then Dotted(Alloc(f0, i, type'), i, d) else Alloc(f0, i, type')
    requires Credit(f2, i) == 1 && k <= Slots(f2, d) && (k < Slots(f2, d) ==> Vacant(f2, d, k))
    ensures Appeared(f0, Enter(f2, d, k, name, i), d, k, name, i, type')
    ensures Ent(Enter(f2, d, k, name, i), d, k) == Dirent(i, name)
  {
    var g := Enter(f2, d, k, name, i);
    assert EntryOk(f0, d, k);
    hide Enter, Dotted, Alloc, Inv;
    forall j ensures InodeAfter(f0, g, d, i, type', j) { CompleteInode(f0, f2, d, k, name, i, type', j); }
    forall a, b ensures EntryAfter(f0, g, d, k, name, i, type', a, b) {
      CompleteEntry(f0, f2, d, k, name, i, type', a, b);
    }
    CompleteEntry(f0, f2, d, k, name, i, type', d, k);
  }

  lemma CompleteInode(f0: Fs, f2: Fs, d: int, k: nat, name: string, i: int, type': Kind, j: int)
    requires KindOf(f0, i) == FREE && Credit(f0, i) == 0 && KindOf(f0, d) == DIR
    requires f2 == if type' == DIR then Dotted(Alloc(f0, i, type'), i, d) else Alloc(f0, i, type')
    ensures Credit(f2, i) == 1 && InodeAfter(f0, Enter(f2, d, k, name, i), d, i, type', j)
  {
  }

  lemma CompleteEntry(f0: Fs, f2: Fs, d: int, k: nat, name: string, i: int, type': Kind, a: int, b: int)
    requires EntryOk(f0, d, k) && KindOf(f0, i) == FREE && KindOf(f0, d) == DIR && Credit(f2, i) == 1
    requires Ent(f0, i, b).inum == 0
    requires f2 == if type' == DIR then Dotted(Alloc(f0, i, type'), i, d) else Alloc(f0, i, type')
    requires k <= Slots(f2, d) && (k < Slots(f2, d) ==> Vacant(f2, d, k))
    ensures EntryAfter(f0, Enter(f2, d, k, name, i), d, k, name, i, type', a, b)
    ensures Ent(Enter(f2, d, k, name, i), d, k) == Dirent(i, name)
  {
  }

  /** Where dirlink() may write: a free slot or one past the end. */
  ghost predicate FitsAt(f: Fs, d: int, k: nat) {
    k <= Slots(f, d) && (k < Slots(f, d) ==> Vacant(f, d, k))
  }

  /** The name leads to something that open() with O_CREATE accepts. */
  ghost predicate LeadsToFile(f: Fs, d: int, name: string) {
    exists i :: Leads(f, d, name, i) && (KindOf(f, i) == FILE || KindOf(f, i) == DEVICE)
  }

  /** There is space for the entries of the new inode and for its own in the parent. */
  ghost predicate Creatable(f: Fs, d: int, type': Kind, spaces: (bool, bool, bool)) {
    (type' == DIR ==> spaces.0 && spaces.1) && (spaces.2 || HasRoom(f, d))
  }

  datatype Unlinking = Erased | Refused | Panicked

  /** A name leads to one inode. */
  lemma OneTarget(f: Fs, d: int, name: string, k: nat, i: int)
    requires Inv(f) && k < Slots(f, d) && i != 0 && Ent(f, d, k) == Dirent(i, name)
    ensures Leads(f, d, name, i) && Named(f, d, name) && forall j :: Leads(f, d, name, j) ==> j == i
  {
    forall j | Leads(f, d, name, j) ensures j == i {
      var m: nat :| m < Slots(f, d) && Ent(f, d, m) == Dirent(j, name);
      assert LinkState.Distinct(f, d, k, m);
    }
  }

  lemma DroppedFree(f: Fs, i: int)
    requires Credit(f, i) > 0
    ensures LinkState.Free(DropLink(f, i), i) == LinkState.Free(f, i)
  {
  }

  lemma CountIsNat(f: Fs, i: int)
    requires Inv(f) && i > 0
    ensures Nlink(f, i) >= 0
  {
    assert Covered(f, i);
  }

  /** A new inode, with or without its entries, changes nothing about another directory. */
  lemma OtherDirectory(f0: Fs, f2: Fs, d: int, i: int, type': Kind, name: string)
    requires i != d && (f2 == Alloc(f0, i, type') || f2 == Dotted(Alloc(f0, i, type'), i, d))
    ensures Named(f2, d, name) <==> Named(f0, d, name)
    ensures HasRoom(f2, d) <==> HasRoom(f0, d)
  {
    assert Slots(f2, d) == Slots(f0, d) && forall k: nat :: Ent(f2, d, k) == Ent(f0, d, k);
    assert forall k: nat :: Vacant(f2, d, k) == Vacant(f0, d, k);
  }

  class Directories {
    var kind: map<int, Kind>
    /** Link counts as stored, in 16 bits, and as they should be. */
    var nlink: map<int, int>
    ghost var links: map<int, int>
    var slots: map<int, nat>
    var ents: map<(int, int), Dirent>
    ghost var credit: map<int, nat>
    /** Directories that create() has allocated and not yet entered or given up. */
    ghost var making: set<int>

    ghost function State(): Fs
      reads this
    {
      Fs(kind, links, slots, ents, credit)
    }

    ghost predicate Valid()
      reads this
    {
      Inv(State()) && (forall d :: MadeAt(State(), making, d)) && Stored(nlink, links)
    }

    /** The tree that mkfs makes: a root directory that is its own parent. */
    constructor ()
      ensures Valid() && making == {} && credit == map[] && Type(ROOT) == DIR && Links(ROOT) == 1
      ensures links == map[ROOT := 1] && kind == map[ROOT := DIR] && slots == map[ROOT := 2]
      ensures ents == map[(ROOT, 0) := Dirent(ROOT, "."), (ROOT, 1) := Dirent(ROOT, "..")]
    {
      kind, nlink, links, slots := map[ROOT := DIR], map[ROOT := 1], map[ROOT := 1], map[ROOT := 2];
      ents := map[(ROOT, 0) := Dirent(ROOT, "."), (ROOT, 1) := Dirent(ROOT, "..")];
      credit, making := map[], {};
      new;
      OnlyRoot(State());
    }

    function SlotCount(d: int): nat
      reads this
    {
      if d in slots then slots[d] else 0
    }

    function Entry(d: int, k: int): Dirent
      reads this
    {
      if (d, k) in ents then ents[(d, k)] else Dirent(0, "")
    }

    function Links(i: int): int
      reads this
    {
      if i in nlink then nlink[i] else 0
    }

    function Type(i: int): Kind
      reads this
    {
      if i in kind then kind[i] else FREE
    }

    /** nlink++ and nlink--. */
    method Count(i: int, delta: int)
      requires Stored(nlink, links)
      modifies `nlink, `links
      ensures links == old(links)[i := CountIn(old(links), i) + delta] && Stored(nlink, links)
    {
      hide Short;
      assert StoredAt(nlink, links, i);
      ShortAdd(CountIn(links, i), delta);
      StoredSet(nlink, links, i, CountIn(links, i) + delta);
      nlink := nlink[i := Short(Links(i) + delta)];
      links := links[i := CountIn(links, i) + delta];
    }

    /** nlink = n for a small n. */
    method SetCount(i: int, n: int)
      requires Stored(nlink, links) && 0 <= n <= 1
      modifies `nlink, `links
      ensures links == old(links)[i := n] && Stored(nlink, links)
    {
      ShortSign(n);
      StoredSet(nlink, links, i, n);
      nlink, links := nlink[i := n], links[i := n];
    }

    /** The slot of the entry with this name, or -1 if there is none. */
    method Dirlookup(d: int, name: string) returns (k: int)
      ensures -1 <= k < SlotCount(d)
      ensures k >= 0 ==> Entry(d, k).inum != 0 && Entry(d, k).name == name
      ensures k < 0 ==> forall j :: 0 <= j < SlotCount(d) && Entry(d, j).inum != 0 ==> Entry(d, j).name != name
    {
      k := 0;
      while k < SlotCount(d)
        invariant 0 <= k <= SlotCount(d)
        invariant forall j :: 0 <= j < k && Entry(d, j).inum != 0 ==> Entry(d, j).name != name
      {
        if Entry(d, k).inum != 0 && Entry(d, k).name == name {
          return;
        }
        k := k + 1;
      }
      k := -1;
    }

    /** Writes a new entry into the first free slot unless the name is taken or the directory cannot grow. */
    method Dirlink(d: int, name: string, inum: int, space: bool) returns (ok: bool, ghost k: nat)
      modifies `ents, `slots
      ensures ok <==> !Named(old(State()), d, name) && (space || HasRoom(old(State()), d))
      ensures !ok ==> State() == old(State())
      ensures ok ==> State() == SetEnt(old(State()), d, k, Dirent(inum, name)) && k <= Slots(old(State()), d)
      ensures ok && k < Slots(old(State()), d) ==> Vacant(old(State()), d, k)
      ensures ok ==> forall j :: 0 <= j < k ==> Ent(old(State()), d, j).inum != 0
      ensures ok ==> forall j :: 0 <= j < Slots(old(State()), d) && Ent(old(State()), d, j).inum != 0 ==>
                                   Ent(old(State()), d, j).name != name
    {
      ghost var f := State();
      k := 0;
      var found := Dirlookup(d, name);
      if found >= 0 {
        assert Ent(f, d, found) == Entry(d, found);
        assert Named(f, d, name);
        return false, 0;
      }
      assert forall j :: 0 <= j < Slots(f, d) && Ent(f, d, j).inum != 0 ==> Ent(f, d, j).name != name by {
        forall j | 0 <= j < Slots(f, d) && Ent(f, d, j).inum != 0
          ensures Ent(f, d, j).name != name
        {
          assert Entry(d, j) == Ent(f, d, j);
        }
      }
      var off := 0;
      while off < SlotCount(d) && Entry(d, off).inum != 0
        invariant 0 <= off <= SlotCount(d) && State() == f
        invariant forall j :: 0 <= j < off ==> Ent(f, d, j).inum != 0
      {
        assert Entry(d, off) == Ent(f, d, off);
        off := off + 1;
      }
      k := off;
      assert off < SlotCount(d) ==> Entry(d, off) == Ent(f, d, off) && Vacant(f, d, off);
      if off == SlotCount(d) {
        if !space {
          return false, k;
        }
        slots := slots[d := off + 1];
      }
      ents := ents[(d, off) := Dirent(inum, name)];
      return true, k;
    }

    /** The first half of link(): a link is counted before there is an entry for it. Directories are refused. */
    method LinkBegin(i: int) returns (ok: bool)
      requires Valid() && i > 0 && Type(i) != FREE
      modifies this
      ensures Valid() && making == old(making)
      ensures ok <==> old(Type(i)) != DIR
      ensures State() == if ok then AddLink(old(State()), i) else old(State())
    {
      hide Covered, EntryOk, LinkState.Distinct, Unlinked;
      if Type(i) == DIR {
        return false;
      }
      ghost var f := State();
      AddKeeps(f, making, i);
      Count(i, 1);
      credit := credit[i := Credit(f, i) + 1];
      return true;
    }

    /** The second half: either the entry is written or the count goes back. */
    method LinkEnd(i: int, d: int, name: string, parent: bool, space: bool) returns (ok: bool)
      requires Valid() && i > 0 && Type(i) != DIR && Credit(State(), i) > 0
      requires parent ==> Type(d) == DIR && d !in making
      modifies this
      ensures Valid() && making == old(making)
      ensures ok <==> parent && !Named(old(State()), d, name) && (space || HasRoom(old(State()), d))
      ensures ok ==> exists k: nat :: FitsAt(old(State()), d, k) && State() == Enter(old(State()), d, k, name, i)
      ensures !ok ==> State() == DropLink(old(State()), i)
    {
      hide Covered, EntryOk, LinkState.Distinct, Unlinked, Made;
      ghost var f := State();
      DropKeeps(f, making, i);
      ok := false;
      if parent {
        ghost var k: nat;
        ok, k := Dirlink(d, name, i, space);
        if ok {
          Entered(f, making, d, k, name, i);
          credit := credit[i := Credit(f, i) - 1];
          assert State() == Enter(f, d, k, name, i);
          return true;
        }
      }
      Count(i, -1);
      credit := credit[i := Credit(f, i) - 1];
    }

    /** True exactly when nothing but the first two entries is in use. */
    method IsDirEmpty(d: int) returns (empty: bool)
      requires Valid()
      ensures empty <==> forall k :: 2 <= k < Slots(State(), d) ==> Vacant(State(), d, k)
    {
      var k := 2;
      while k < SlotCount(d)
        invariant 2 <= k && forall j :: 2 <= j < k && j < SlotCount(d) ==> Vacant(State(), d, j)
      {
        assert Entry(d, k) == Ent(State(), d, k);
        if Entry(d, k).inum != 0 {
          assert !Vacant(State(), d, k);
          return false;
        }
        k := k + 1;
      }
      return true;
    }

    /**
     * unlink() up to the release of the parent: the entry goes, and the inode it named is owed a
     * decrement. It refuses exactly "." and "..", a name that is not there and a directory that is not
     * empty, and panics exactly if the true count, which is at least one, is out of a short's range.
     */
    method UnlinkBegin(d: int, name: string) returns (r: Unlinking, i: int)
      requires Valid() && Type(d) == DIR && d !in making
      modifies this
      ensures Valid() && making == old(making)
      ensures r != Erased ==> State() == old(State())
      ensures r != Refused ==> !Dot(name) && i > 0 && Leads(old(State()), d, name, i) && Nlink(old(State()), i) >= 1
      ensures r == Panicked ==> !InRange(Nlink(old(State()), i))
      ensures r == Erased ==> InRange(Nlink(old(State()), i)) && Removable(old(State()), i)
      ensures r == Refused ==> || Dot(name) || !Named(old(State()), d, name)
                               || (Leads(old(State()), d, name, i) && !Removable(old(State()), i))
      ensures r == Erased ==> exists k: nat ::
                && k < Slots(old(State()), d) && Ent(old(State()), d, k) == Dirent(i, name)
                && State() == Erase(old(State()), d, k)
    {
      hide Covered, EntryOk, LinkState.Distinct, Unlinked, Made, Short, InRange;
      ghost var f := State();
      i := 0;
      if name == "." || name == ".." {
        return Refused, 0;
      }
      var k := Dirlookup(d, name);
      if k < 0 {
        assert !Named(f, d, name) by { NotNamed(d, name); }
        return Refused, 0;
      }
      i := Entry(d, k).inum;
      NamedHasLink(f, d, k);
      assert Ent(f, d, k) == Dirent(i, name);
      assert StoredAt(nlink, links, i);
      ShortSign(Nlink(f, i));
      if Links(i) < 1 {
        return Panicked, i;
      }
      if Type(i) == DIR {
        var empty := IsDirEmpty(i);
        if !empty {
          return Refused, i;
        }
      }
      EraseAt(d, k, i);
      return Erased, i;
    }

    lemma NotNamed(d: int, name: string)
      requires forall j :: 0 <= j < SlotCount(d) && Entry(d, j).inum != 0 ==> Entry(d, j).name != name
      ensures !Named(State(), d, name)
    {
      forall j: nat | j < SlotCount(d) ensures Entry(d, j) == Ent(State(), d, j) { }
    }

    method EraseAt(d: int, k: nat, i: int)
      requires Valid() && d !in making && Counts(Ent(State(), d, k)) && i == Ent(State(), d, k).inum
      modifies this
      ensures Valid() && making == old(making) && State() == Erase(old(State()), d, k)
    {
      hide Covered, EntryOk, LinkState.Distinct, Unlinked, Made, Short;
      ghost var f := State();
      ErasedKeeps(f, making, d, k);
      ents := ents[(d, k) := Dirent(0, "")];
      if Type(i) == DIR {
        Count(d, -1);
      }
      credit := credit[i := Credit(f, i) + 1];
      assert State() == Erase(f, d, k);
    }

    /** The decrement that unlink() owes the inode. */
    method UnlinkEnd(i: int)
      requires Valid() && i > 0 && Credit(State(), i) > 0
      modifies this
      ensures Valid() && making == old(making) && State() == DropLink(old(State()), i)
    {
      ghost var f := State();
      DropKeeps(f, making, i);
      Count(i, -1);
      credit := credit[i := Credit(f, i) - 1];
    }

    /** The last reference to an inode whose stored count is zero frees it; while counts are below 65536 no
        entry names it then. */
    method Iput(i: int, refs: nat) returns (freed: bool)
      requires Valid() && i > 0 && i !in making && Type(i) != FREE
      modifies this
      ensures making == old(making) && Stored(nlink, links)
      ensures freed <==> refs == 1 && Nlink(old(State()), i) % 0x1_0000 == 0
      ensures State() == if freed then LinkState.Free(old(State()), i) else old(State())
      ensures Nlink(old(State()), i) < 0x1_0000 ==> Valid()
      ensures freed && Nlink(old(State()), i) < 0x1_0000 ==> LinkState.Names(old(State()), i) == {} && i != ROOT
    {
      hide Covered, EntryOk, LinkState.Distinct, Unlinked, Short;
      ghost var f := State();
      assert StoredAt(nlink, links, i);
      ShortSign(Nlink(f, i));
      freed := refs == 1 && Links(i) == 0;
      if freed {
        if Nlink(f, i) < 0x1_0000 {
          assert Nlink(f, i) == 0 by { CountIsNat(f, i); }
          Freed(f, making, i);
        }
        Wipe(i);
      }
    }

    /** itrunc(), type 0 and no links. */
    method Wipe(i: int)
      requires Stored(nlink, links)
      modifies this
      ensures Stored(nlink, links) && making == old(making) && State() == LinkState.Free(old(State()), i)
    {
      kind, slots := kind[i := FREE], slots[i := 0];
      ents := map e | e in ents && e.0 != i :: ents[e];
      SetCount(i, 0);
      credit := credit[i := 0];
    }

    /** A new inode with one link that no entry stands for yet. */
    method CreateAlloc(i: int, type': Kind)
      requires Valid() && i > 0 && Type(i) == FREE && type' != FREE
      modifies this
      ensures Valid() && State() == Alloc(old(State()), i, type')
      ensures making == old(making) + (if type' == DIR then {i} else {})
    {
      hide Covered, EntryOk, LinkState.Distinct, Unlinked, Made;
      ghost var f := State();
      Allocated(f, making, i, type');
      kind, slots := kind[i := type'], slots[i := 0];
      SetCount(i, 1);
      credit := credit[i := 1];
      if type' == DIR {
        making := making + {i};
      }
    }

    /** The entries "." and "..", for which no link is counted. */
    method CreateDots(i: int, d: int, space: bool, space': bool) returns (ok: bool)
      requires Valid() && i > 0 && i in making && d > 0 && Type(i) == DIR && SlotCount(i) == 0
      modifies `ents, `slots
      ensures Valid() && nlink == old(nlink) && kind == old(kind) && (ok <==> space && space')
      ensures ok ==> Made(State(), i) && State() == Dotted(old(State()), i, d)
      ensures !ok ==> State() == old(State()) || State() == SetEnt(old(State()), i, 0, Dirent(i, "."))
    {
      hide Covered, LinkState.Distinct, Unlinked;
      ghost var f := State();
      ghost var k: nat;
      ok, k := Dirlink(i, ".", i, space);
      if !ok {
        return;
      }
      FirstDot(f, making, i);
      ghost var g := State();
      ok, k := Dirlink(i, "..", d, space');
      if ok {
        SecondDot(f, making, i, d);
        assert k == 1;
      }
    }

    /** The entry in the parent, and for a directory the parent's link; the new inode's link is now accounted for. */
    method CreateEnter(i: int, d: int, name: string, space: bool) returns (ok: bool)
      requires Valid() && i > 0 && Credit(State(), i) > 0 && Type(d) == DIR && d !in making
      requires Type(i) == DIR ==> Made(State(), i)
      modifies this
      ensures Valid() && making == if ok then old(making) - {i} else old(making)
      ensures ok <==> !Named(old(State()), d, name) && (space || HasRoom(old(State()), d))
      ensures ok ==> exists k: nat :: FitsAt(old(State()), d, k) && State() == Enter(old(State()), d, k, name, i)
      ensures !ok ==> State() == old(State())
    {
      hide Covered, EntryOk, LinkState.Distinct, Unlinked, Made;
      ghost var f := State();
      ghost var k: nat;
      ok, k := Dirlink(d, name, i, space);
      if ok {
        Entered(f, making, d, k, name, i);
        if Type(i) == DIR {
          Count(d, 1);
        }
        credit := credit[i := Credit(f, i) - 1];
        assert State() == Enter(f, d, k, name, i);
        Finished(f, State(), making, d, k, name, i);
        making := making - {i};
      }
    }

    /** Giving up: the link goes, and with it the inode. */
    method CreateFail(i: int)
      requires Valid() && i > 0 && Credit(State(), i) == Nlink(State(), i) == 1
      modifies this
      ensures Valid() && making == old(making) - {i} && State() == LinkState.Free(DropLink(old(State()), i), i)
    {
      hide Covered, EntryOk, LinkState.Distinct, Unlinked, Made;
      ghost var f := State();
      DropKeeps(f, making, i);
      ghost var g := DropLink(f, i);
      Freed(g, making, i);
      GaveUp(g, making, i);
      Wipe(i);
      assert State() == LinkState.Free(g, i) by { DroppedFree(f, i); }
      making := making - {i};
    }

    /**
     * create(): an existing file is returned as it is; otherwise a new inode gets its entry, or
     * nothing remains of it. `i` is what ialloc() finds, 0 if there is none.
     */
    method Create(d: int, name: string, type': Kind, i: int, spaces: (bool, bool, bool)) returns (r: int)
      requires Valid() && Type(d) == DIR && d !in making && d > 0 && type' != FREE
      requires i != 0 ==> i > 0 && Type(i) == FREE
      modifies this
      ensures Valid() && making == old(making)
      ensures r != 0 ==> exists k: nat :: Ent(State(), d, k) == Dirent(r, name)
      ensures r != 0 && r != i ==> State() == old(State()) && type' == FILE && (Type(r) == FILE || Type(r) == DEVICE)
      ensures r != 0 && r == i ==> exists k: nat :: Appeared(old(State()), State(), d, k, name, i, type')
      ensures r != 0 && r == i ==> !Named(old(State()), d, name)
      ensures r == 0 ==> Alike(old(State()), State())
      ensures r == 0 <==>
                if Named(old(State()), d, name) then !(type' == FILE && LeadsToFile(old(State()), d, name))
                else i == 0 || !Creatable(old(State()), d, type', spaces)
    {
      hide Covered, EntryOk, LinkState.Distinct, Unlinked, Made;
      assert MadeAt(State(), making, i);
      var k := Dirlookup(d, name);
      if k >= 0 {
        Itself(State());
        var there := Entry(d, k).inum;
        assert Ent(State(), d, k) == Dirent(there, name);
        OneTarget(State(), d, name, k, there);
        if type' == FILE && (Type(there) == FILE || Type(there) == DEVICE) {
          return there;
        }
        return 0;
      }
      NotNamed(d, name);
      if i == 0 {
        Itself(State());
        return 0;
      }
      ghost var f := State();
      var ok := CreateNew(d, name, type', i, spaces);
      if ok {
        ghost var at: nat :| Appeared(f, State(), d, at, name, i, type');
        assert EntryAfter(f, State(), d, at, name, i, type', d, at);
        return i;
      }
      return 0;
    }

    /** A fresh inode for a name that is not taken. */
    method CreateNew(d: int, name: string, type': Kind, i: int, spaces: (bool, bool, bool)) returns (ok: bool)
      requires Valid() && Type(d) == DIR && d !in making && d > 0 && type' != FREE && i > 0 && Type(i) == FREE
      modifies this
      ensures Valid() && making == old(making)
      requires !Named(State(), d, name)
      ensures ok <==> Creatable(old(State()), d, type', spaces)
      ensures ok ==> exists k: nat :: Appeared(old(State()), State(), d, k, name, i, type')
      ensures !ok ==> Alike(old(State()), State())
    {
      hide Inv, Made, Dotted, Enter, Alike, Appeared, SetEnt, DropLink, LinkState.Free;
      assert MadeAt(State(), making, i);
      ghost var f0 := State();
      NothingThere(f0, i);
      CreateAlloc(i, type');
      ghost var f1 := State();
      if type' == DIR {
        ok := CreateDots(i, d, spaces.0, spaces.1);
        if !ok {
          GivenUp(f0, f1, State(), i, type');
          CreateFail(i);
          return;
        }
      }
      ghost var f2 := State();
      GivenUp(f0, f1, f2, i, type');
      OtherDirectory(f0, f2, d, i, type', name);
      ok := CreateEnter(i, d, name, spaces.2);
      if !ok {
        CreateFail(i);
        return;
      }
      ghost var at: nat :| FitsAt(f2, d, at) && State() == Enter(f2, d, at, name, i);
      Complete(f0, f2, d, at, name, i, type');
    }
  }

  lemma OnlyRoot(f: Fs)
    requires f.kind == map[ROOT := DIR] && f.nlink == map[ROOT := 1] && f.slots == map[ROOT := 2] && f.credit == map[]
    requires f.ents == map[(ROOT, 0) := Dirent(ROOT, "."), (ROOT, 1) := Dirent(ROOT, "..")]
    ensures Inv(f) && forall d :: MadeAt(f, {}, d)
  {
    forall i
      ensures Covered(f, i) && Unlinked(f, i) && MadeAt(f, {}, i)
    {
      assert LinkState.Names(f, i) == {} && Subs(f, i) == {};
    }
    forall d, k ensures EntryOk(f, d, k) { }
    forall d, j, k ensures LinkState.Distinct(f, d, j, k) { }
  }

  lemma Allocated(f: Fs, making: set<int>, i: int, type': Kind)
    requires Inv(f) && i > 0 && KindOf(f, i) == FREE && type' != FREE && forall c :: MadeAt(f, making, c)
    ensures Inv(Alloc(f, i, type'))
    ensures type' == DIR ==> forall c :: MadeAt(Alloc(f, i, type'), making + {i}, c)
    ensures type' != DIR ==> forall c :: MadeAt(Alloc(f, i, type'), making, c)
  {
    AllocKeeps(f, i, type');
    var g, m := Alloc(f, i, type'), if type' == DIR then making + {i} else making;
    forall c ensures MadeAt(g, m, c) { assert MadeAt(f, making, c); }
  }

  lemma FirstDot(f: Fs, making: set<int>, i: int)
    requires Inv(f) && i > 0 && i in making && KindOf(f, i) == DIR && Slots(f, i) == 0
    requires forall c :: MadeAt(f, making, c)
    ensures var g := SetEnt(f, i, 0, Dirent(i, "."));
            Inv(g) && (forall c :: MadeAt(g, making, c)) && Slots(g, i) == 1
  {
    forall k ensures Ent(f, i, k).inum == 0 { assert EntryOk(f, i, k); }
    DotKeeps(f, i, 0, Dirent(i, "."));
    var g := SetEnt(f, i, 0, Dirent(i, "."));
    forall c ensures MadeAt(g, making, c) { assert MadeAt(f, making, c); }
  }

  lemma SecondDot(f: Fs, making: set<int>, i: int, d: int)
    requires Inv(f) && i > 0 && d > 0 && i in making && KindOf(f, i) == DIR && Slots(f, i) == 0
    requires forall c :: MadeAt(f, making, c)
    ensures var h := SetEnt(SetEnt(f, i, 0, Dirent(i, ".")), i, 1, Dirent(d, ".."));
            Inv(h) && (forall c :: MadeAt(h, making, c)) && Made(h, i)
  {
    FirstDot(f, making, i);
    var g := SetEnt(f, i, 0, Dirent(i, "."));
    forall k ensures Ent(g, i, k).inum != 0 ==> k == 0 { assert EntryOk(f, i, k); }
    DotKeeps(g, i, 1, Dirent(d, ".."));
    var h := SetEnt(g, i, 1, Dirent(d, ".."));
    forall c ensures MadeAt(h, making, c) { assert MadeAt(g, making, c); }
  }

  lemma Finished(f: Fs, g: Fs, making: set<int>, d: int, k: nat, name: string, i: int)
    requires Credit(f, i) > 0 && g == Enter(f, d, k, name, i) && (forall c :: MadeAt(g, making, c)) && d !in making
    requires KindOf(f, i) == DIR ==> Made(f, i)
    ensures forall c :: MadeAt(g, making - {i}, c)
  {
    forall c
      ensures MadeAt(g, making - {i}, c)
    {
      assert MadeAt(g, making, c) && MadeAt(g, making, d);
    }
  }

  lemma GaveUp(g: Fs, making: set<int>, i: int)
    requires forall c :: c != i ==> MadeAt(Free(g, i), making, c)
    ensures forall c :: MadeAt(Free(g, i), making - {i}, c)
  {
    var h := Free(g, i);
    forall c ensures MadeAt(h, making - {i}, c) { assert c != i ==> MadeAt(h, making, c); }
  }

  lemma AddKeeps(f: Fs, making: set<int>, i: int)
    requires Inv(f) && KindOf(f, i) != FREE && forall d :: MadeAt(f, making, d)
    ensures Inv(AddLink(f, i)) && forall d :: MadeAt(AddLink(f, i), making, d)
  {
    var g := AddLink(f, i);
    CountersKeep(f, g, i);
    forall d ensures MadeAt(g, making, d) { assert MadeAt(f, making, d); }
  }

  lemma DropKeeps(f: Fs, making: set<int>, i: int)
    requires Inv(f) && i > 0 && Credit(f, i) > 0 && forall d :: MadeAt(f, making, d)
    ensures Inv(DropLink(f, i)) && forall d :: MadeAt(DropLink(f, i), making, d)
  {
    var g := DropLink(f, i);
    assert Covered(f, i) && Unlinked(f, i);
    CountersKeep(f, g, i);
    forall d ensures MadeAt(g, making, d) { assert MadeAt(f, making, d); }
  }

  lemma Entered(f: Fs, making: set<int>, d: int, k: nat, name: string, i: int)
    requires Inv(f) && forall c :: MadeAt(f, making, c)
    requires KindOf(f, d) == DIR && d !in making && k <= Slots(f, d) && (k < Slots(f, d) ==> Vacant(f, d, k))
    requires forall j :: 0 <= j < k ==> Ent(f, d, j).inum != 0
    requires forall j :: 0 <= j < Slots(f, d) && Ent(f, d, j).inum != 0 ==> Ent(f, d, j).name != name
    requires i > 0 && Credit(f, i) > 0
    ensures Inv(Enter(f, d, k, name, i)) && forall c :: MadeAt(Enter(f, d, k, name, i), making, c)
  {
    assert MadeAt(f, making, d) && EntryOk(f, d, k);
    assert Ent(f, d, 0).name != name && Ent(f, d, 1).name != name;
    EnterKeeps(f, d, k, name, i);
    var g := Enter(f, d, k, name, i);
    forall c ensures MadeAt(g, making, c) { assert MadeAt(f, making, c); }
  }

  lemma ErasedKeeps(f: Fs, making: set<int>, d: int, k: nat)
    requires Inv(f) && (forall c :: MadeAt(f, making, c)) && Counts(Ent(f, d, k))
    ensures Inv(Erase(f, d, k)) && (forall c :: MadeAt(Erase(f, d, k), making, c)) && 0 <= k < Slots(f, d)
  {
    EraseKeeps(f, d, k);
    assert EntryOk(f, d, k);
    var g := Erase(f, d, k);
    forall c ensures MadeAt(g, making, c) { assert MadeAt(f, making, c); }
  }

  lemma Freed(f: Fs, making: set<int>, i: int)
    requires Inv(f) && i > 0 && Nlink(f, i) == 0 && forall c :: MadeAt(f, making, c)
    ensures Inv(Free(f, i)) && (forall c :: c != i || i !in making ==> MadeAt(Free(f, i), making, c))
    ensures LinkState.Names(f, i) == {} && i != ROOT
  {
    FreeKeeps(f, i);
    NoLinkNoName(f, i);
    var g := Free(f, i);
    forall c | c != i || i !in making ensures MadeAt(g, making, c) { assert MadeAt(f, making, c); }
  }
}
