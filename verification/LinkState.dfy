/**
 * Directory entries and link counts as values (kernel/sysfile.c, kernel/fs.c).
 *
 * `credit` counts, for each inode, the links that a system call under way has added to nlink
 * before writing the entry, or has yet to take off after erasing one.
 */
module LinkState {
  import opened Base

  const ROOT := 1

  datatype Kind = FREE | FILE | DIR | DEVICE

  datatype Dirent = Dirent(inum: int, name: string)

  datatype Fs = Fs(kind: map<int, Kind>, nlink: map<int, int>, slots: map<int, nat>, ents: map<(int, int), Dirent>,
                   credit: map<int, nat>)

  function KindOf(f: Fs, i: int): Kind { if i in f.kind then f.kind[i] else FREE }
  function Nlink(f: Fs, i: int): int { if i in f.nlink then f.nlink[i] else 0 }
  function Slots(f: Fs, d: int): nat { if d in f.slots then f.slots[d] else 0 }
  function Credit(f: Fs, i: int): nat { if i in f.credit then f.credit[i] else 0 }
  function Ent(f: Fs, d: int, k: int): Dirent { if (d, k) in f.ents then f.ents[(d, k)] else Dirent(0, "") }

  predicate Dot(name: string) {
    name == "." || name == ".."
  }

  /** An entry that counts as a link: in use, and neither "." nor "..". */
  predicate Counts(e: Dirent) {
    e.inum != 0 && !Dot(e.name)
  }

  /** The entries that name inode `i`. */
  ghost function Names(f: Fs, i: int): set<(int, int)> {
    set e | e in f.ents && Counts(f.ents[e]) && f.ents[e].inum == i
  }

  /** The entries of directory `d` that name directories; each stands for a ".." that names `d`. */
  ghost function Subs(f: Fs, d: int): set<(int, int)> {
    set e | e in f.ents && e.0 == d && Counts(f.ents[e]) && KindOf(f, f.ents[e].inum) == DIR
  }

  /** The link count covers every entry that relies on it. */
  ghost predicate Covered(f: Fs, i: int) {
    i > 0 ==> Nlink(f, i) >= |Names(f, i)| + |Subs(f, i)| + Credit(f, i) + (if i == ROOT then 1 else 0)
  }

  ghost predicate EntryOk(f: Fs, d: int, k: int) {
    && (Ent(f, d, k).inum != 0 ==> KindOf(f, d) == DIR && 0 <= k < Slots(f, d) && Ent(f, d, k).inum > 0)
    && (k >= 2 && Ent(f, d, k).inum != 0 ==> !Dot(Ent(f, d, k).name))
  }

  /** A name occurs once in a directory. */
  ghost predicate Distinct(f: Fs, d: int, j: int, k: int) {
    Ent(f, d, j).inum != 0 && Ent(f, d, k).inum != 0 && Ent(f, d, j).name == Ent(f, d, k).name ==> j == k
  }

  ghost predicate Unlinked(f: Fs, i: int) {
    KindOf(f, i) == FREE ==> Nlink(f, i) == 0
  }

  ghost predicate Inv(f: Fs) {
    && (forall i :: Covered(f, i))
    && (forall i :: Unlinked(f, i))
    && (forall d, k :: EntryOk(f, d, k))
    && (forall d, j, k :: Distinct(f, d, j, k))
  }

  /** Whatever an entry names has a link, so it is in use and unlink finds a count to take down. */
  lemma NamedHasLink(f: Fs, d: int, k: int)
    requires Inv(f) && Counts(Ent(f, d, k))
    ensures Ent(f, d, k).inum > 0 && Nlink(f, Ent(f, d, k).inum) >= 1 && KindOf(f, Ent(f, d, k).inum) != FREE
  {
    var i := Ent(f, d, k).inum;
    assert EntryOk(f, d, k) && Covered(f, i) && Unlinked(f, i);
    assert (d, k) in Names(f, i);
  }

  /** An inode without links is named by no entry. */
  lemma NoLinkNoName(f: Fs, i: int)
    requires Inv(f) && i > 0 && Nlink(f, i) == 0
    ensures Names(f, i) == {} && Subs(f, i) == {} && Credit(f, i) == 0 && i != ROOT
  {
    assert Covered(f, i);
  }

  // ---- 16-bit counts ----

  /** The value of a `short` that should be n. */
  function Short(n: int): int {
    (n + 0x8000) % 0x1_0000 - 0x8000
  }

  /** Counting in 16 bits gives the 16-bit value of the count. */
  lemma ShortAdd(n: int, delta: int)
    ensures Short(Short(n) + delta) == Short(n + delta)
  {
    var q := (n + 0x8000) / 0x1_0000;
    assert Short(n) == n - q * 0x1_0000;
    assert (n + delta + 0x8000 - q * 0x1_0000) % 0x1_0000 == (n + delta + 0x8000) % 0x1_0000;
  }

  /** A count that unlink() can take down: its 16-bit value is positive. */
  predicate InRange(n: int) {
    0 < n % 0x1_0000 < 0x8000
  }

  /** The 16-bit value is positive, or zero, exactly when the last 16 bits of the count say so. */
  lemma ShortSign(n: int)
    ensures (Short(n) >= 1 <==> InRange(n)) && (Short(n) == 0 <==> n % 0x1_0000 == 0)
    ensures -0x8000 <= n < 0x8000 <==> Short(n) == n
  {
  }

  function CountIn(counts: map<int, int>, i: int): int { if i in counts then counts[i] else 0 }

  ghost predicate StoredAt(stored: map<int, int>, links: map<int, int>, i: int) {
    CountIn(stored, i) == Short(CountIn(links, i))
  }

  /** The stored link counts are the 16-bit values of the true ones. */
  ghost predicate Stored(stored: map<int, int>, links: map<int, int>) {
    forall i :: StoredAt(stored, links, i)
  }

  lemma StoredSet(stored: map<int, int>, links: map<int, int>, i: int, n: int)
    requires Stored(stored, links)
    ensures Stored(stored[i := Short(n)], links[i := n])
  {
    hide Short;
    var stored', links' := stored[i := Short(n)], links[i := n];
    forall j ensures StoredAt(stored', links', j) { assert StoredAt(stored, links, j); }
  }

  // ---- Names ----

  /** Directory d has an entry with this name. */
  ghost predicate Named(f: Fs, d: int, name: string) {
    exists k: nat :: k < Slots(f, d) && Ent(f, d, k).inum != 0 && Ent(f, d, k).name == name
  }

  /** Directory d has a free slot. */
  ghost predicate HasRoom(f: Fs, d: int) {
    exists k: nat :: k < Slots(f, d) && Vacant(f, d, k)
  }

  /** Not a directory with entries of its own. */
  ghost predicate Removable(f: Fs, i: int) {
    KindOf(f, i) == DIR ==> forall k: nat :: 2 <= k < Slots(f, i) ==> Vacant(f, i, k)
  }

  /** Directory d has an entry with this name for inode i. */
  ghost predicate Leads(f: Fs, d: int, name: string, i: int) {
    exists k: nat :: k < Slots(f, d) && i != 0 && Ent(f, d, k) == Dirent(i, name)
  }

  // ---- Counters ----

  ghost function AddLink(f: Fs, i: int): Fs {
    f.(nlink := f.nlink[i := Nlink(f, i) + 1], credit := f.credit[i := Credit(f, i) + 1])
  }

  ghost function DropLink(f: Fs, i: int): Fs
    requires Credit(f, i) > 0
  {
    f.(nlink := f.nlink[i := Nlink(f, i) - 1], credit := f.credit[i := Credit(f, i) - 1])
  }

  lemma CountersKeep(f: Fs, g: Fs, i: int)
    requires Inv(f) && g.kind == f.kind && g.slots == f.slots && g.ents == f.ents
    requires forall j :: j != i ==> Nlink(g, j) == Nlink(f, j) && Credit(g, j) == Credit(f, j)
    requires Nlink(g, i) - Credit(g, i) >= Nlink(f, i) - Credit(f, i)
    requires KindOf(f, i) == FREE ==> Nlink(g, i) == 0
    ensures Inv(g)
  {
    forall j
      ensures Covered(g, j)
    {
      assert Covered(f, j) && Names(g, j) == Names(f, j) && Subs(g, j) == Subs(f, j);
    }
    forall j ensures Unlinked(g, j) { assert Unlinked(f, j); }
    forall d, k ensures EntryOk(g, d, k) { assert EntryOk(f, d, k); }
    forall d, j, k ensures Distinct(g, d, j, k) { assert Distinct(f, d, j, k); }
  }

  // ---- Entries ----

  /** Writes one entry; a directory grows when the slot is one past its end. */
  ghost function SetEnt(f: Fs, d: int, k: nat, e: Dirent): Fs {
    f.(ents := f.ents[(d, k) := e], slots := if k < Slots(f, d) then f.slots else f.slots[d := k + 1])
  }

  lemma OneApart<T>(a: set<T>, b: set<T>, x: T)
    requires a - {x} == b - {x}
    ensures |b| == |a| + (if x in b then 1 else 0) - (if x in a then 1 else 0)
  {
    var rest := a - {x};
    assert a == if x in a then rest + {x} else rest;
    assert b == if x in b then rest + {x} else rest;
  }

  lemma SetEntNames(f: Fs, d: int, k: nat, e: Dirent, i: int)
    ensures var n := if Counts(e) && e.inum == i then 1 else 0;
            var o := if Counts(Ent(f, d, k)) && Ent(f, d, k).inum == i then 1 else 0;
            |Names(SetEnt(f, d, k, e), i)| == |Names(f, i)| + n - o
  {
    hide Counts;
    var g := SetEnt(f, d, k, e);
    EmptyNot();
    assert (d, k) in Names(f, i) <==> Counts(Ent(f, d, k)) && Ent(f, d, k).inum == i;
    assert (d, k) in Names(g, i) <==> Counts(e) && e.inum == i;
    OneApart(Names(f, i), Names(g, i), (d, k));
  }

  lemma EmptyNot()
    ensures !Counts(Dirent(0, ""))
  {
  }

  lemma SetEntSubs(f: Fs, d: int, k: nat, e: Dirent, i: int)
    ensures var n := if Counts(e) && i == d && KindOf(f, e.inum) == DIR then 1 else 0;
            var o := if Counts(Ent(f, d, k)) && i == d && KindOf(f, Ent(f, d, k).inum) == DIR then 1 else 0;
            |Subs(SetEnt(f, d, k, e), i)| == |Subs(f, i)| + n - o
  {
    hide Counts;
    var g := SetEnt(f, d, k, e);
    EmptyNot();
    assert (d, k) in Subs(f, i) <==> Counts(Ent(f, d, k)) && i == d && KindOf(f, Ent(f, d, k).inum) == DIR;
    assert (d, k) in Subs(g, i) <==> Counts(e) && i == d && KindOf(f, e.inum) == DIR;
    OneApart(Subs(f, i), Subs(g, i), (d, k));
  }

  ghost predicate Vacant(f: Fs, d: int, k: nat) {
    Ent(f, d, k).inum == 0
  }

  /** Adds entry `name` for inode `i` in directory `d`, spending a credit of `i`; a subdirectory also counts for `d`. */
  ghost function Enter(f: Fs, d: int, k: nat, name: string, i: int): Fs
    requires Credit(f, i) > 0
  {
    var g := SetEnt(f, d, k, Dirent(i, name));
    var h := g.(credit := g.credit[i := Credit(f, i) - 1]);
    if KindOf(f, i) == DIR then h.(nlink := h.nlink[d := Nlink(f, d) + 1]) else h
  }

  lemma EnterKeeps(f: Fs, d: int, k: nat, name: string, i: int)
    requires Inv(f) && KindOf(f, d) == DIR && Vacant(f, d, k) && k <= Slots(f, d) && k >= 2 && !Dot(name)
    requires i > 0 && Credit(f, i) > 0
    requires forall j :: 0 <= j < Slots(f, d) && Ent(f, d, j).inum != 0 ==> Ent(f, d, j).name != name
    ensures Inv(Enter(f, d, k, name, i))
  {
    var e, h := Dirent(i, name), Enter(f, d, k, name, i);
    var g := SetEnt(f, d, k, e);
    forall j
      ensures Covered(h, j)
    {
      assert Covered(f, j) && Names(h, j) == Names(g, j) && Subs(h, j) == Subs(g, j);
      SetEntNames(f, d, k, e, j);
      SetEntSubs(f, d, k, e, j);
    }
    hide Names, Subs;
    forall j ensures Unlinked(h, j) { assert Unlinked(f, j); }
    forall a, b ensures EntryOk(h, a, b) { assert EntryOk(f, a, b); }
    forall a, b, c
      ensures Distinct(h, a, b, c)
    {
      assert Distinct(f, a, b, c) && EntryOk(f, a, b) && EntryOk(f, a, c);
      assert a == d && Ent(f, d, b).inum != 0 ==> Ent(f, d, b).name != name;
      assert a == d && Ent(f, d, c).inum != 0 ==> Ent(f, d, c).name != name;
    }
  }

  /** Erases an entry; the inode it named is owed a decrement, and a subdirectory no longer counts for `d`. */
  ghost function Erase(f: Fs, d: int, k: nat): Fs {
    var i := Ent(f, d, k).inum;
    var g := SetEnt(f, d, k, Dirent(0, ""));
    var h := g.(credit := g.credit[i := Credit(f, i) + 1]);
    if KindOf(f, i) == DIR then h.(nlink := h.nlink[d := Nlink(f, d) - 1]) else h
  }

  lemma EraseKeeps(f: Fs, d: int, k: nat)
    requires Inv(f) && Counts(Ent(f, d, k))
    ensures Inv(Erase(f, d, k))
  {
    var e, h, i := Dirent(0, ""), Erase(f, d, k), Ent(f, d, k).inum;
    var g := SetEnt(f, d, k, e);
    assert EntryOk(f, d, k);
    EmptyNot();
    forall j
      ensures Covered(h, j)
    {
      assert Covered(f, j) && Names(h, j) == Names(g, j) && Subs(h, j) == Subs(g, j);
      SetEntNames(f, d, k, e, j);
      SetEntSubs(f, d, k, e, j);
    }
    hide Names, Subs;
    forall j ensures Unlinked(h, j) { assert Unlinked(f, j); }
    forall a, b ensures EntryOk(h, a, b) { assert EntryOk(f, a, b); }
    forall a, b, c ensures Distinct(h, a, b, c) { assert Distinct(f, a, b, c); }
  }

  // ---- Inodes ----

  /** ialloc() and the first link: the inode is in use, empty, and has one link that no entry accounts for yet. */
  ghost function Alloc(f: Fs, i: int, kind: Kind): Fs {
    f.(kind := f.kind[i := kind], nlink := f.nlink[i := 1], credit := f.credit[i := 1], slots := f.slots[i := 0])
  }

  lemma AllocKeeps(f: Fs, i: int, kind: Kind)
    requires Inv(f) && i > 0 && KindOf(f, i) == FREE && kind != FREE
    ensures Inv(Alloc(f, i, kind))
  {
    var g := Alloc(f, i, kind);
    assert Unlinked(f, i);
    NoLinkNoName(f, i);
    forall j
      ensures Covered(g, j)
    {
      assert Covered(f, j) && Names(g, j) == Names(f, j);
      assert Subs(g, j) == Subs(f, j) by {
        forall e | e in f.ents && Counts(f.ents[e]) ensures f.ents[e].inum != i {
          assert e in Names(f, f.ents[e].inum);
        }
      }
    }
    forall j ensures Unlinked(g, j) { assert Unlinked(f, j); }
    forall a, b ensures EntryOk(g, a, b) { assert EntryOk(f, a, b); }
    forall a, b, c ensures Distinct(g, a, b, c) { assert Distinct(f, a, b, c); }
  }

  /** itrunc() and type 0: the inode and the entries stored in it are gone. */
  ghost function Free(f: Fs, i: int): Fs {
    f.(kind := f.kind[i := FREE], nlink := f.nlink[i := 0], credit := f.credit[i := 0], slots := f.slots[i := 0],
       ents := map e | e in f.ents && e.0 != i :: f.ents[e])
  }

  lemma FreeKeeps(f: Fs, i: int)
    requires Inv(f) && i > 0 && Nlink(f, i) == 0
    ensures Inv(Free(f, i))
  {
    var g := Free(f, i);
    NoLinkNoName(f, i);
    forall j
      ensures Covered(g, j)
    {
      assert Covered(f, j);
      assert Names(g, j) <= Names(f, j) && Subs(g, j) <= Subs(f, j);
      SubsetBound(Names(g, j), Names(f, j));
      SubsetBound(Subs(g, j), Subs(f, j));
    }
    hide Names, Subs;
    forall j ensures Unlinked(g, j) { assert Unlinked(f, j); }
    forall a, b ensures EntryOk(g, a, b) { assert EntryOk(f, a, b); }
    forall a, b, c ensures Distinct(g, a, b, c) { assert Distinct(f, a, b, c); }
  }

  /** The "." and ".." entries of a new directory count for nothing. */
  lemma DotKeeps(f: Fs, d: int, k: nat, e: Dirent)
    requires Inv(f) && KindOf(f, d) == DIR && Vacant(f, d, k) && k < 2 && Dot(e.name) && e.inum > 0
    requires forall j :: Ent(f, d, j).inum != 0 ==> Ent(f, d, j).name != e.name
    ensures Inv(SetEnt(f, d, k, e))
  {
    var g := SetEnt(f, d, k, e);
    forall j
      ensures Covered(g, j)
    {
      assert Covered(f, j);
      SetEntNames(f, d, k, e, j);
      SetEntSubs(f, d, k, e, j);
    }
    hide Names, Subs;
    forall j ensures Unlinked(g, j) { assert Unlinked(f, j); }
    forall a, b ensures EntryOk(g, a, b) { assert EntryOk(f, a, b); }
    forall a, b, c
      ensures Distinct(g, a, b, c)
    {
      assert Distinct(f, a, b, c);
      assert a == d && Ent(f, d, b).inum != 0 ==> Ent(f, d, b).name != e.name;
      assert a == d && Ent(f, d, c).inum != 0 ==> Ent(f, d, c).name != e.name;
    }
  }

  // ---- Exact counts ----

  /** By how much the link count exceeds the entries, subdirectories and calls under way that account for it. */
  ghost function Slack(f: Fs, i: int): int {
    Nlink(f, i) - |Names(f, i)| - |Subs(f, i)| - Credit(f, i) - (if i == ROOT then 1 else 0)
  }

  lemma CountersSlack(f: Fs, g: Fs, j: int)
    requires g.kind == f.kind && g.ents == f.ents && Nlink(g, j) - Credit(g, j) == Nlink(f, j) - Credit(f, j)
    ensures Slack(g, j) == Slack(f, j)
  {
    assert Names(g, j) == Names(f, j) && Subs(g, j) == Subs(f, j);
  }

  lemma EnterSlack(f: Fs, d: int, k: nat, name: string, i: int, j: int)
    requires Vacant(f, d, k) && !Dot(name) && i != 0 && Credit(f, i) > 0
    ensures Slack(Enter(f, d, k, name, i), j) == Slack(f, j)
  {
    var e, h := Dirent(i, name), Enter(f, d, k, name, i);
    var g := SetEnt(f, d, k, e);
    assert Names(h, j) == Names(g, j) && Subs(h, j) == Subs(g, j);
    SetEntNames(f, d, k, e, j);
    SetEntSubs(f, d, k, e, j);
    hide Names, Subs;
  }

  lemma EraseSlack(f: Fs, d: int, k: nat, j: int)
    requires Counts(Ent(f, d, k))
    ensures Slack(Erase(f, d, k), j) == Slack(f, j)
  {
    var e, h := Dirent(0, ""), Erase(f, d, k);
    var g := SetEnt(f, d, k, e);
    EmptyNot();
    assert Names(h, j) == Names(g, j) && Subs(h, j) == Subs(g, j);
    SetEntNames(f, d, k, e, j);
    SetEntSubs(f, d, k, e, j);
    hide Names, Subs;
  }

  lemma FreeNames(f: Fs, i: int, j: int)
    ensures |Names(Free(f, i), j)| <= |Names(f, j)|
    ensures |Names(Free(f, i), j)| == |Names(f, j)| <==> forall e :: e in Names(f, j) ==> e.0 != i
  {
    var old', new' := Names(f, j), Names(Free(f, i), j);
    assert new' == set e | e in old' && e.0 != i;
    hide Names;
    SubsetBound(new', old');
    if forall e :: e in old' ==> e.0 != i {
      assert new' == old';
    } else {
      var e :| e in old' && e.0 == i;
      SubsetBound(new', old' - {e});
    }
  }

  lemma FreeSubs(f: Fs, i: int, j: int)
    requires Names(f, i) == {} && Subs(f, i) == {}
    ensures Subs(Free(f, i), j) == Subs(f, j)
  {
    forall e | e in f.ents && Counts(f.ents[e]) ensures f.ents[e].inum != i {
      assert e in Names(f, f.ents[e].inum);
    }
  }

  /** Freeing an inode without links leaves every count as exact as it was, but for the inodes named by entries
      stored in the freed one. */
  lemma FreeSlack(f: Fs, i: int, j: int)
    requires Inv(f) && i > 0 && Nlink(f, i) == 0
    ensures Slack(Free(f, i), j) >= Slack(f, j)
    ensures Slack(Free(f, i), j) == Slack(f, j) <==> forall e :: e in Names(f, j) ==> e.0 != i
  {
    hide Inv, Names, Subs;
    NoLinkNoName(f, i);
    FreeNames(f, i, j);
    FreeSubs(f, i, j);
  }
}
