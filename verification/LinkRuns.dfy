/** Runs of link, unlink, create and iput, the two halves of link and unlink in any order among the others. */
module LinkRuns {
  import opened LinkState
  import opened Links

  /** The most that a `short` link count can hold. */
  const MAX_LINKS: int := 0x7FFF

  /** A system call, or the half of it that happens under one lock. */
  datatype Call =
    | LinkStart(i: int)
    | LinkFinish(i: int, d: int, name: string, parent: bool, space: bool)
    | UnlinkStart(d: int, name: string)
    | UnlinkFinish(i: int)
    | Put(i: int, refs: nat)
    | Make(d: int, name: string, type': Kind, i: int, spaces: (bool, bool, bool))

  datatype Reply = Yes | No | Found(i: int)

  // ---------------------------------------------------------------------
  // The tree of names

  /** Directory d has an entry with this name for inode i. */
  ghost predicate Has(f: Fs, d: int, name: string, i: int) {
    i != 0 && exists k :: Ent(f, d, k) == Dirent(i, name)
  }

  ghost predicate SameNames(f: Fs, g: Fs) {
    forall a, n, j :: Has(g, a, n, j) <==> Has(f, a, n, j)
  }

  ghost predicate Gains(f: Fs, g: Fs, d: int, name: string, i: int) {
    forall a, n, j :: Has(g, a, n, j) <==> Has(f, a, n, j) || (a == d && n == name && j == i)
  }

  ghost predicate GainsDirectory(f: Fs, g: Fs, d: int, name: string, i: int) {
    forall a, n, j :: Has(g, a, n, j) <==>
      Has(f, a, n, j) || (a == d && n == name && j == i) || (a == i && ((n == "." && j == i) || (n == ".." && j == d)))
  }

  ghost predicate Loses(f: Fs, g: Fs, d: int, name: string, i: int) {
    forall a, n, j :: Has(g, a, n, j) <==> Has(f, a, n, j) && !(a == d && n == name && j == i)
  }

  ghost predicate LosesAll(f: Fs, g: Fs, i: int) {
    forall a, n, j :: Has(g, a, n, j) <==> Has(f, a, n, j) && a != i
  }

  /** What a call adds to the link count of inode j.  link() counts ahead and takes it back when it fails;
      unlink() first takes a subdirectory's ".." off the parent, and the link itself in its second half. */
  function Added(f: Fs, call: Call, reply: Reply, j: int): int {
    match call
    case LinkStart(i) => if reply == Yes && j == i then 1 else 0
    case LinkFinish(i, _, _, _, _) => if reply == No && j == i then -1 else 0
    case UnlinkStart(d, _) => if reply.Found? && KindOf(f, reply.i) == DIR && j == d then -1 else 0
    case UnlinkFinish(i) => if j == i then -1 else 0
    case Put(_, _) => 0
    case Make(d, _, type', i, _) => if reply == Found(i) && (j == i || (j == d && type' == DIR)) then 1 else 0
  }

  /** The kind of inode j after a call: only iput() frees an inode and only create() makes one. */
  function KindAfter(f: Fs, call: Call, reply: Reply, j: int): Kind {
    match call
    case Put(i, _) => if reply == Yes && j == i then FREE else KindOf(f, j)
    case Make(_, _, type', i, _) => if reply == Found(i) && j == i then type' else KindOf(f, j)
    case _ => KindOf(f, j)
  }

  ghost predicate InodeOk(f: Fs, call: Call, reply: Reply, g: Fs, j: int) {
    Nlink(g, j) == Nlink(f, j) + Added(f, call, reply, j) && KindOf(g, j) == KindAfter(f, call, reply, j)
  }

  /** What a call does to the tree of names and to every inode, and when it succeeds. */
  ghost predicate CallOk(f: Fs, call: Call, reply: Reply, g: Fs) {
    TreeOk(f, call, reply, g) && (forall j :: InodeOk(f, call, reply, g, j)) && SlackOk(f, call, reply, g)
  }

  /** iput() frees a directory in which a name was made after it was removed. */
  ghost predicate Strands(f: Fs, call: Call, reply: Reply) {
    call.Put? && reply == Yes && exists name, j :: Has(f, call.i, name, j) && !Dot(name)
  }

  ghost predicate SameSlack(f: Fs, g: Fs) {
    forall j :: Slack(g, j) == Slack(f, j)
  }

  /** The counts stay as exact as they were, except when a name is lost with its directory. */
  ghost predicate SlackOk(f: Fs, call: Call, reply: Reply, g: Fs) {
    (SameSlack(f, g) <==> !Strands(f, call, reply)) && forall j :: Slack(g, j) >= Slack(f, j)
  }

  ghost predicate TreeOk(f: Fs, call: Call, reply: Reply, g: Fs) {
    match call
    case LinkStart(i) => SameNames(f, g) && (reply == Yes <==> KindOf(f, i) != DIR)
    case LinkFinish(i, d, name, parent, space) =>
      && (reply == Yes || reply == No) && (reply == Yes <==> parent && !Named(f, d, name) && (space || HasRoom(f, d)))
      && if reply == Yes then Gains(f, g, d, name, i) else SameNames(f, g)
    case UnlinkStart(d, name) =>
      if reply.Found? then
        Has(f, d, name, reply.i) && !Dot(name) && Removable(f, reply.i) && Loses(f, g, d, name, reply.i)
      else SameNames(f, g) && (Dot(name) || !Named(f, d, name) || exists i :: Has(f, d, name, i) && !Removable(f, i))
    case UnlinkFinish(_) => SameNames(f, g)
    case Put(i, refs) =>
      && (reply == Yes <==> refs == 1 && Nlink(f, i) == 0)
      && if reply == Yes then LosesAll(f, g, i) && forall a, n :: Has(f, a, n, i) ==> Dot(n) else SameNames(f, g)
    case Make(d, name, type', i, spaces) =>
      && (reply.Found? <==> if Named(f, d, name) then type' == FILE && LeadsToFile(f, d, name)
                            else i != 0 && Creatable(f, d, type', spaces))
      && if !reply.Found? then SameNames(f, g)
         else if reply.i != i then SameNames(f, g) && Has(f, d, name, reply.i)
         else if type' == DIR then GainsDirectory(f, g, d, name, i)
         else Gains(f, g, d, name, i)
  }

  /** A name leads to one inode; an entry is in a directory, and what it names is in use and has a link. */
  ghost predicate Sound(f: Fs) {
    && (forall d, name, i :: Has(f, d, name, i) ==>
          KindOf(f, d) == DIR && i > 0 && (Dot(name) || (KindOf(f, i) != FREE && 1 <= Nlink(f, i) <= MAX_LINKS)))
    && (forall d, name, i, j :: Has(f, d, name, i) && Has(f, d, name, j) ==> i == j)
    && KindOf(f, ROOT) != FREE
  }

  ghost predicate Bounded(f: Fs) {
    forall i :: Nlink(f, i) <= MAX_LINKS
  }

  lemma InvSound(f: Fs)
    requires Inv(f) && Bounded(f)
    ensures Sound(f)
  {
    hide Covered, Unlinked, EntryOk, LinkState.Distinct;
    forall d, name, i | Has(f, d, name, i)
      ensures KindOf(f, d) == DIR && i > 0 && (Dot(name) || (KindOf(f, i) != FREE && 1 <= Nlink(f, i) <= MAX_LINKS))
    {
      var k :| Ent(f, d, k) == Dirent(i, name);
      EntryIsOk(f, d, k);
      if !Dot(name) {
        NamedHasLink(f, d, k);
      }
    }
    forall d, name, i, j | Has(f, d, name, i) && Has(f, d, name, j) ensures i == j {
      var k :| Ent(f, d, k) == Dirent(i, name);
      var m :| Ent(f, d, m) == Dirent(j, name);
      OneEntry(f, d, k, m);
    }
    RootInUse(f);
  }

  lemma EntryIsOk(f: Fs, d: int, k: int)
    requires Inv(f) && Ent(f, d, k).inum != 0
    ensures KindOf(f, d) == DIR && 0 <= k < Slots(f, d) && Ent(f, d, k).inum > 0
  {
    assert EntryOk(f, d, k);
  }

  lemma OneEntry(f: Fs, d: int, k: int, m: int)
    requires Inv(f) && Ent(f, d, k).inum != 0 && Ent(f, d, m).inum != 0 && Ent(f, d, k).name == Ent(f, d, m).name
    ensures k == m
  {
    assert LinkState.Distinct(f, d, k, m);
  }

  lemma RootInUse(f: Fs)
    requires Inv(f)
    ensures KindOf(f, ROOT) != FREE
  {
    assert Covered(f, ROOT) && Unlinked(f, ROOT);
  }

  /** Within the bounds of the directory, Has is Named and Leads. */
  lemma HasIsLeads(f: Fs, d: int, name: string)
    requires Inv(f)
    ensures Named(f, d, name) <==> exists i :: Has(f, d, name, i)
    ensures forall i :: Leads(f, d, name, i) <==> Has(f, d, name, i)
  {
    hide Covered, Unlinked, EntryOk, LinkState.Distinct;
    forall i ensures Leads(f, d, name, i) <==> Has(f, d, name, i) {
      if Has(f, d, name, i) {
        var k :| Ent(f, d, k) == Dirent(i, name);
        EntryIsOk(f, d, k);
      }
    }
    if Named(f, d, name) {
      var k: nat :| k < Slots(f, d) && Ent(f, d, k).inum != 0 && Ent(f, d, k).name == name;
      assert Ent(f, d, k) == Dirent(Ent(f, d, k).inum, name);
      assert Has(f, d, name, Ent(f, d, k).inum);
    }
    if i :| Has(f, d, name, i) {
      var k :| Ent(f, d, k) == Dirent(i, name);
      EntryIsOk(f, d, k);
    }
  }

  // ---------------------------------------------------------------------
  // What the entries say about the names

  lemma SameEntsSameNames(f: Fs, g: Fs)
    requires g.ents == f.ents
    ensures SameNames(f, g)
  {
    assert forall d, k :: Ent(g, d, k) == Ent(f, d, k);
  }

  lemma AlikeNames(f: Fs, g: Fs)
    requires Alike(f, g)
    ensures SameNames(f, g)
  {
    forall a, n, j ensures Has(g, a, n, j) <==> Has(f, a, n, j) {
      if Has(f, a, n, j) {
        var k :| Ent(f, a, k) == Dirent(j, n);
        assert SameEntry(f, g, a, k);
      }
      if Has(g, a, n, j) {
        var k :| Ent(g, a, k) == Dirent(j, n);
        assert SameEntry(f, g, a, k);
      }
    }
  }

  /** A new entry in a free slot. */
  lemma EnteredNames(f: Fs, g: Fs, d: int, k: int, name: string, i: int)
    requires i != 0 && Ent(f, d, k).inum == 0 && Ent(g, d, k) == Dirent(i, name)
    requires forall a, b :: !(a == d && b == k) ==> Ent(g, a, b) == Ent(f, a, b)
    ensures Gains(f, g, d, name, i)
  {
    forall a, n, j ensures Has(g, a, n, j) <==> Has(f, a, n, j) || (a == d && n == name && j == i) {
      if Has(f, a, n, j) {
        var b :| Ent(f, a, b) == Dirent(j, n);
        assert Ent(g, a, b) == Dirent(j, n);
      }
      if Has(g, a, n, j) {
        var b :| Ent(g, a, b) == Dirent(j, n);
        assert !(a == d && b == k) ==> Ent(f, a, b) == Dirent(j, n);
      }
    }
  }

  /** An entry erased. */
  lemma ErasedNames(f: Fs, g: Fs, d: int, k: int, name: string, i: int)
    requires Inv(f) && i != 0 && Ent(f, d, k) == Dirent(i, name) && Ent(g, d, k).inum == 0
    requires forall a, b :: !(a == d && b == k) ==> Ent(g, a, b) == Ent(f, a, b)
    ensures Loses(f, g, d, name, i)
  {
    hide Covered, Unlinked, EntryOk, LinkState.Distinct;
    forall a, n, j ensures Has(g, a, n, j) <==> Has(f, a, n, j) && !(a == d && n == name && j == i) {
      if Has(f, a, n, j) && !(a == d && n == name && j == i) {
        var b :| Ent(f, a, b) == Dirent(j, n);
        assert Ent(g, a, b) == Dirent(j, n);
      }
      if Has(g, a, n, j) {
        var b :| Ent(g, a, b) == Dirent(j, n);
        assert Ent(f, a, b) == Dirent(j, n);
        if a == d && n == name {
          OneEntry(f, d, k, b);
        }
      }
    }
  }

  lemma FreedNames(f: Fs, i: int)
    ensures LosesAll(f, LinkState.Free(f, i), i)
  {
    var g := LinkState.Free(f, i);
    assert forall a, b :: Ent(g, a, b) == if a == i then Dirent(0, "") else Ent(f, a, b);
    forall a, n, j ensures Has(g, a, n, j) <==> Has(f, a, n, j) && a != i {
      if Has(f, a, n, j) && a != i {
        var b :| Ent(f, a, b) == Dirent(j, n);
        assert Ent(g, a, b) == Dirent(j, n);
      }
    }
  }

  lemma UnnamedButDots(f: Fs, i: int)
    requires LinkState.Names(f, i) == {} && i > 0
    ensures forall a, n :: Has(f, a, n, i) ==> Dot(n)
  {
    forall a, n | Has(f, a, n, i) ensures Dot(n) {
      var k :| Ent(f, a, k) == Dirent(i, n);
      assert (a, k) !in LinkState.Names(f, i);
    }
  }

  lemma AppearedNames(f: Fs, g: Fs, d: int, k: int, name: string, i: int, type': Kind)
    requires Appeared(f, g, d, k, name, i, type') && i > 0 && d > 0 && i != d
    requires forall b :: Ent(f, i, b).inum == 0
    ensures if type' == DIR then GainsDirectory(f, g, d, name, i) else Gains(f, g, d, name, i)
  {
    forall a, n, j
      ensures Has(g, a, n, j) <==> || Has(f, a, n, j) || (a == d && n == name && j == i)
                                   || (type' == DIR && a == i && ((n == "." && j == i) || (n == ".." && j == d)))
    {
      assert EntryAfter(f, g, d, k, name, i, type', d, k);
      assert EntryAfter(f, g, d, k, name, i, type', i, 0) && EntryAfter(f, g, d, k, name, i, type', i, 1);
      if Has(f, a, n, j) {
        var b :| Ent(f, a, b) == Dirent(j, n);
        assert EntryAfter(f, g, d, k, name, i, type', a, b);
      }
      if Has(g, a, n, j) {
        var b :| Ent(g, a, b) == Dirent(j, n);
        assert EntryAfter(f, g, d, k, name, i, type', a, b);
      }
    }
  }

  // ---------------------------------------------------------------------
  // How exact the counts are

  lemma CountersSame(f: Fs, g: Fs)
    requires g.kind == f.kind && g.ents == f.ents
    requires forall j :: Nlink(g, j) - Credit(g, j) == Nlink(f, j) - Credit(f, j)
    ensures SameSlack(f, g)
  {
    hide Slack;
    forall j ensures Slack(g, j) == Slack(f, j) { CountersSlack(f, g, j); }
  }

  lemma EnterSame(f: Fs, d: int, k: nat, name: string, i: int)
    requires Inv(f) && FitsAt(f, d, k) && !Dot(name) && i > 0 && Credit(f, i) > 0
    ensures SameSlack(f, Enter(f, d, k, name, i))
  {
    hide Slack, Enter, Covered, Unlinked, LinkState.Distinct;
    assert EntryOk(f, d, k);
    forall j ensures Slack(Enter(f, d, k, name, i), j) == Slack(f, j) { EnterSlack(f, d, k, name, i, j); }
  }

  lemma EraseSame(f: Fs, d: int, k: nat)
    requires Counts(Ent(f, d, k))
    ensures SameSlack(f, Erase(f, d, k))
  {
    hide Slack, Erase;
    forall j ensures Slack(Erase(f, d, k), j) == Slack(f, j) { EraseSlack(f, d, k, j); }
  }

  /** Every entry that counts is Has of a name that is no dot. */
  lemma NamesAre(f: Fs, a: int, j: int)
    ensures (exists e :: e in LinkState.Names(f, j) && e.0 == a) <==> exists n :: Has(f, a, n, j) && !Dot(n)
  {
    if e :| e in LinkState.Names(f, j) && e.0 == a {
      assert Ent(f, a, e.1) == Dirent(j, f.ents[e].name);
      assert Has(f, a, f.ents[e].name, j);
    }
    if n :| Has(f, a, n, j) && !Dot(n) {
      var k :| Ent(f, a, k) == Dirent(j, n);
      assert (a, k) in LinkState.Names(f, j);
    }
  }

  lemma FreeSlacks(f: Fs, i: int, refs: nat)
    requires Inv(f) && i > 0 && Nlink(f, i) == 0
    ensures SlackOk(f, Put(i, refs), Yes, LinkState.Free(f, i))
  {
    hide Inv, Slack, LinkState.Names, LinkState.Free, Has;
    var g := LinkState.Free(f, i);
    forall j ensures Slack(g, j) >= Slack(f, j)
      ensures Slack(g, j) == Slack(f, j) <==> !exists n :: Has(f, i, n, j) && !Dot(n)
    {
      FreeSlack(f, i, j);
      NamesAre(f, i, j);
    }
    if Strands(f, Put(i, refs), Yes) {
      var n, j :| Has(f, i, n, j) && !Dot(n);
      assert Slack(g, j) != Slack(f, j);
    } else {
      forall j ensures Slack(g, j) == Slack(f, j) {
        assert forall n :: Has(f, i, n, j) ==> Dot(n);
      }
    }
  }

  lemma AlikeSlack(f: Fs, g: Fs)
    requires Alike(f, g)
    ensures SameSlack(f, g)
  {
    forall j ensures Slack(g, j) == Slack(f, j) {
      AlikeSets(f, g, j);
      assert SameInode(f, g, j);
    }
  }

  lemma AlikeSets(f: Fs, g: Fs, j: int)
    requires Alike(f, g)
    ensures LinkState.Names(g, j) == LinkState.Names(f, j) && Subs(g, j) == Subs(f, j)
  {
    forall e ensures e in LinkState.Names(g, j) <==> e in LinkState.Names(f, j) { assert SameEntry(f, g, e.0, e.1); }
    forall e ensures e in Subs(g, j) <==> e in Subs(f, j) {
      assert SameEntry(f, g, e.0, e.1) && SameInode(f, g, Ent(f, e.0, e.1).inum);
    }
  }

  lemma AppearedSlack(f: Fs, g: Fs, d: int, k: int, name: string, i: int, type': Kind)
    requires Inv(f) && Appeared(f, g, d, k, name, i, type') && KindOf(f, i) == FREE && i > 0 && i != d && !Dot(name)
    requires Nlink(f, i) == Credit(f, i) == 0 && forall b :: Ent(f, i, b).inum == 0
    ensures SameSlack(f, g)
  {
    hide Inv, Appeared, LinkState.Names, Subs;
    NoLinkNoName(f, i);
    forall j ensures Slack(g, j) == Slack(f, j) {
      AppearedSets(f, g, d, k, name, i, type', j);
      AppearedInode(f, g, d, k, name, i, type', j);
    }
  }

  lemma AppearedInode(f: Fs, g: Fs, d: int, k: int, name: string, i: int, type': Kind, j: int)
    requires Appeared(f, g, d, k, name, i, type')
    ensures InodeAfter(f, g, d, i, type', j)
  {
  }

  lemma AppearedSets(f: Fs, g: Fs, d: int, k: int, name: string, i: int, type': Kind, j: int)
    requires Appeared(f, g, d, k, name, i, type') && i > 0 && i != d && !Dot(name)
    requires LinkState.Names(f, i) == {} && forall b :: Ent(f, i, b).inum == 0
    ensures |LinkState.Names(g, j)| == |LinkState.Names(f, j)| + if j == i then 1 else 0
    ensures |Subs(g, j)| == |Subs(f, j)| + if j == d && type' == DIR then 1 else 0
  {
    forall e ensures e in LinkState.Names(g, j) <==> e in LinkState.Names(f, j) || (e == (d, k) && j == i)
      ensures e in Subs(g, j) <==> e in Subs(f, j) || (e == (d, k) && j == d && type' == DIR)
    {
      AppearedAt(f, g, d, k, name, i, type', j, e);
    }
    AppearedEntry(f, g, d, k, name, i, type', d, k);
    assert (d, k) !in LinkState.Names(f, j) && (d, k) !in Subs(f, j);
    hide Appeared, LinkState.Names, Subs;
    assert LinkState.Names(g, j) == LinkState.Names(f, j) + if j == i then {(d, k)} else {};
    assert Subs(g, j) == Subs(f, j) + if j == d && type' == DIR then {(d, k)} else {};
  }

  lemma AppearedAt(f: Fs, g: Fs, d: int, k: int, name: string, i: int, type': Kind, j: int, e: (int, int))
    requires Appeared(f, g, d, k, name, i, type') && i > 0 && i != d && !Dot(name)
    requires LinkState.Names(f, i) == {} && forall b :: Ent(f, i, b).inum == 0
    ensures e in LinkState.Names(g, j) <==> e in LinkState.Names(f, j) || (e == (d, k) && j == i)
    ensures e in Subs(g, j) <==> e in Subs(f, j) || (e == (d, k) && j == d && type' == DIR)
  {
    AppearedEntry(f, g, d, k, name, i, type', e.0, e.1);
    AppearedInode(f, g, d, k, name, i, type', Ent(g, e.0, e.1).inum);
    CountedAt(f, e, j);
    CountedAt(g, e, j);
    CountedAt(f, e, i);
    hide Appeared, LinkState.Names, Subs;
  }

  lemma CountedAt(f: Fs, e: (int, int), j: int)
    ensures e in LinkState.Names(f, j) <==> Counts(Ent(f, e.0, e.1)) && Ent(f, e.0, e.1).inum == j
    ensures e in Subs(f, j) <==> e.0 == j && Counts(Ent(f, e.0, e.1)) && KindOf(f, Ent(f, e.0, e.1).inum) == DIR
  {
  }

  lemma AppearedEntry(f: Fs, g: Fs, d: int, k: int, name: string, i: int, type': Kind, a: int, b: int)
    requires Appeared(f, g, d, k, name, i, type')
    ensures EntryAfter(f, g, d, k, name, i, type', a, b)
  {
  }

  /** A finished directory has its two dots, so a name that is new in it is neither. */
  lemma NewIsNoDot(f: Fs, d: int, name: string)
    requires MadeAt(f, {}, d) && KindOf(f, d) == DIR && !Named(f, d, name)
    ensures !Dot(name)
  {
    assert Ent(f, d, 0).name == "." && Ent(f, d, 1).name == "..";
  }

  // ---------------------------------------------------------------------
  // Runs

  ghost predicate DueAt(f: Fs, linking: multiset<int>, unlinking: multiset<int>, i: int) {
    && Credit(f, i) == linking[i] + unlinking[i]
    && (linking[i] > 0 ==> i > 0 && KindOf(f, i) != DIR) && (unlinking[i] > 0 ==> i > 0)
  }

  /** Every link counted ahead of its entry, or not yet taken off, belongs to a call under way. */
  ghost predicate Due(f: Fs, linking: multiset<int>, unlinking: multiset<int>) {
    forall i :: DueAt(f, linking, unlinking, i)
  }

  ghost predicate StopOk(f: Fs) {
    Inv(f) && Bounded(f) && Sound(f)
  }

  /** Between calls. */
  ghost predicate Running(dirs: Directories, linking: multiset<int>, unlinking: multiset<int>)
    reads dirs
  {
    dirs.Valid() && dirs.making == {} && Bounded(dirs.State()) && Due(dirs.State(), linking, unlinking)
  }

  /** The call can happen: it names inodes that are there, a second half follows a first one, and no count
      is at its limit. */
  predicate Allowed(dirs: Directories, call: Call, linking: multiset<int>, unlinking: multiset<int>)
    reads dirs
  {
    match call
    case LinkStart(i) => i > 0 && dirs.Type(i) != FREE && dirs.Links(i) < MAX_LINKS
    case LinkFinish(i, d, _, parent, _) => linking[i] > 0 && (parent ==> dirs.Type(d) == DIR)
    case UnlinkStart(d, _) => dirs.Type(d) == DIR
    case UnlinkFinish(i) => unlinking[i] > 0
    case Put(i, _) => i > 0 && dirs.Type(i) != FREE
    case Make(d, _, type', i, _) =>
      && d > 0 && dirs.Type(d) == DIR && type' != FREE && (i != 0 ==> i > 0 && dirs.Type(i) == FREE)
      && (type' == DIR ==> dirs.Links(d) < MAX_LINKS)
  }

  /** The same of the state as it should be. */
  ghost predicate MayHappen(f: Fs, call: Call, linking: multiset<int>, unlinking: multiset<int>) {
    match call
    case LinkStart(i) => i > 0 && KindOf(f, i) != FREE && Nlink(f, i) < MAX_LINKS
    case LinkFinish(i, d, _, parent, _) => linking[i] > 0 && (parent ==> KindOf(f, d) == DIR)
    case UnlinkStart(d, _) => KindOf(f, d) == DIR
    case UnlinkFinish(i) => unlinking[i] > 0
    case Put(i, _) => i > 0 && KindOf(f, i) != FREE
    case Make(d, _, type', i, _) =>
      && d > 0 && KindOf(f, d) == DIR && type' != FREE && (i != 0 ==> i > 0 && KindOf(f, i) == FREE)
      && (type' == DIR ==> Nlink(f, d) < MAX_LINKS)
  }

  lemma AllowedIs(dirs: Directories, call: Call, linking: multiset<int>, unlinking: multiset<int>)
    requires dirs.Valid() && Bounded(dirs.State())
    ensures Allowed(dirs, call, linking, unlinking) <==> MayHappen(dirs.State(), call, linking, unlinking)
  {
    hide Inv, MadeAt, Stored, Bounded;
    match call {
      case LinkStart(i) =>
        if i > 0 {
          StoredIsCount(dirs, i);
        }
      case Make(d, _, _, _, _) =>
        if d > 0 {
          StoredIsCount(dirs, d);
        }
      case _ =>
    }
  }

  /** A count within its limit is stored as it is. */
  lemma StoredIsCount(dirs: Directories, i: int)
    requires dirs.Valid() && Bounded(dirs.State()) && i > 0
    ensures dirs.Links(i) == Nlink(dirs.State(), i) >= 0
  {
    CountIsNat(dirs.State(), i);
    assert StoredAt(dirs.nlink, dirs.links, i);
    ShortSign(Nlink(dirs.State(), i));
  }

  /** One counter and one call's due changed together. */
  lemma DueChanges(f: Fs, g: Fs, linking: multiset<int>, unlinking: multiset<int>, linking': multiset<int>,
                   unlinking': multiset<int>, i: int)
    requires Due(f, linking, unlinking) && DueAt(g, linking', unlinking', i)
    requires forall j :: j != i ==>
               Credit(g, j) == Credit(f, j) && linking'[j] == linking[j] && unlinking'[j] == unlinking[j]
    requires forall j :: j != i ==> KindOf(g, j) == KindOf(f, j) || (Credit(f, j) == 0)
    requires Bounded(f) && Nlink(g, i) <= MAX_LINKS && forall j :: j != i ==> Nlink(g, j) <= Nlink(f, j)
    ensures Due(g, linking', unlinking') && Bounded(g)
  {
    forall j ensures DueAt(g, linking', unlinking', j) { assert DueAt(f, linking, unlinking, j); }
    forall j ensures Nlink(g, j) <= MAX_LINKS { assert Nlink(f, j) <= MAX_LINKS; }
  }

  /** Kinds and counts stay, but for one count. */
  lemma OneCount(f: Fs, call: Call, reply: Reply, g: Fs, i: int)
    requires !call.Put? && !call.Make? && g.kind == f.kind && (forall j :: j != i ==> Nlink(g, j) == Nlink(f, j))
    requires forall j :: j != i ==> Added(f, call, reply, j) == 0
    requires Nlink(g, i) == Nlink(f, i) + Added(f, call, reply, i)
    ensures forall j :: InodeOk(f, call, reply, g, j)
  {
  }

  lemma SameInodes(f: Fs, call: Call, reply: Reply, g: Fs)
    requires forall j :: SameInode(f, g, j)
    requires forall j :: Added(f, call, reply, j) == 0 && KindAfter(f, call, reply, j) == KindOf(f, j)
    ensures forall j :: InodeOk(f, call, reply, g, j)
  {
    forall j ensures InodeOk(f, call, reply, g, j) { assert SameInode(f, g, j); }
  }

  method ExecuteLinkStart(dirs: Directories, i: int, linking: multiset<int>, unlinking: multiset<int>)
    returns (reply: Reply, linking': multiset<int>)
    requires Running(dirs, linking, unlinking) && Allowed(dirs, LinkStart(i), linking, unlinking)
    modifies dirs
    ensures Running(dirs, linking', unlinking)
    ensures CallOk(old(dirs.State()), LinkStart(i), reply, dirs.State())
    ensures linking' == if reply == Yes then linking + multiset{i} else linking
  {
    hide Inv, MadeAt, Stored, Has, SameNames, Slack;
    ghost var f := dirs.State();
    StoredIsCount(dirs, i);
    assert DueAt(f, linking, unlinking, i);
    linking' := linking;
    var ok := dirs.LinkBegin(i);
    SameEntsSameNames(f, dirs.State());
    if ok {
      linking' := linking + multiset{i};
      DueChanges(f, dirs.State(), linking, unlinking, linking', unlinking, i);
    }
    reply := if ok then Yes else No;
    OneCount(f, LinkStart(i), reply, dirs.State(), i);
    CountersSame(f, dirs.State());
  }

  method ExecuteLinkFinish(dirs: Directories, i: int, d: int, name: string, parent: bool, space: bool,
                           linking: multiset<int>, unlinking: multiset<int>)
    returns (reply: Reply, linking': multiset<int>)
    requires Running(dirs, linking, unlinking)
    requires Allowed(dirs, LinkFinish(i, d, name, parent, space), linking, unlinking)
    modifies dirs
    ensures Running(dirs, linking', unlinking)
    ensures CallOk(old(dirs.State()), LinkFinish(i, d, name, parent, space), reply, dirs.State())
    ensures linking' == linking - multiset{i}
  {
    hide Inv, MadeAt, Stored, Has, SameNames, Gains, Named, HasRoom, Slack, Enter;
    ghost var f := dirs.State();
    assert DueAt(f, linking, unlinking, i);
    var ok := dirs.LinkEnd(i, d, name, parent, space);
    linking' := linking[i := linking[i] - 1];
    ghost var g := dirs.State();
    if ok {
      ghost var k: nat :| FitsAt(f, d, k) && g == Enter(f, d, k, name, i);
      EnterNames(f, d, k, name, i);
      EnterCounts(f, d, k, name, i);
      assert MadeAt(f, dirs.making, d);
      NewIsNoDot(f, d, name);
      EnterSame(f, d, k, name, i);
    } else {
      SameEntsSameNames(f, g);
      CountersSame(f, g);
    }
    DueChanges(f, g, linking, unlinking, linking', unlinking, i);
    reply := if ok then Yes else No;
    OneCount(f, LinkFinish(i, d, name, parent, space), reply, g, i);
  }

  lemma EnterNames(f: Fs, d: int, k: nat, name: string, i: int)
    requires Inv(f) && FitsAt(f, d, k) && Credit(f, i) > 0 && i > 0
    ensures Gains(f, Enter(f, d, k, name, i), d, name, i)
  {
    hide Covered, Unlinked, LinkState.Distinct, Gains;
    var g := Enter(f, d, k, name, i);
    assert EntryOk(f, d, k);
    assert forall a, b :: !(a == d && b == k) ==> Ent(g, a, b) == Ent(f, a, b);
    EnteredNames(f, g, d, k, name, i);
  }

  lemma EnterCounts(f: Fs, d: int, k: nat, name: string, i: int)
    requires Credit(f, i) > 0 && KindOf(f, i) != DIR
    ensures var g := Enter(f, d, k, name, i);
            && g.kind == f.kind && g.nlink == f.nlink
            && forall j :: Credit(g, j) == Credit(f, j) - if j == i then 1 else 0
  {
  }

  method ExecuteUnlinkStart(dirs: Directories, d: int, name: string, linking: multiset<int>, unlinking: multiset<int>)
    returns (reply: Reply, unlinking': multiset<int>)
    requires Running(dirs, linking, unlinking) && Allowed(dirs, UnlinkStart(d, name), linking, unlinking)
    modifies dirs
    ensures Running(dirs, linking, unlinking')
    ensures CallOk(old(dirs.State()), UnlinkStart(d, name), reply, dirs.State())
    ensures unlinking' == if reply.Found? then unlinking + multiset{reply.i} else unlinking
  {
    hide Inv, MadeAt, Stored, Has, SameNames, Loses, Named, HasRoom, Leads, Removable, Erase, Slack;
    ghost var f := dirs.State();
    HasIsLeads(f, d, name);
    unlinking' := unlinking;
    var r, i := dirs.UnlinkBegin(d, name);
    ghost var g := dirs.State();
    if r == Erased {
      unlinking' := unlinking + multiset{i};
      ghost var k: nat :| k < Slots(f, d) && Ent(f, d, k) == Dirent(i, name) && g == Erase(f, d, k);
      EraseNames(f, d, k, name, i);
      assert DueAt(f, linking, unlinking, i);
      EraseCounts(f, d, k);
      EraseSame(f, d, k);
      DueChanges(f, g, linking, unlinking, linking, unlinking', i);
      reply := Found(i);
    } else {
      SameEntsSameNames(f, g);
      CountersSame(f, g);
      reply := No;
    }
    OneCount(f, UnlinkStart(d, name), reply, g, d);
  }

  lemma EraseNames(f: Fs, d: int, k: nat, name: string, i: int)
    requires Inv(f) && i != 0 && Ent(f, d, k) == Dirent(i, name)
    ensures Loses(f, Erase(f, d, k), d, name, i)
  {
    hide Covered, Unlinked, LinkState.Distinct, Loses;
    var g := Erase(f, d, k);
    assert forall a, b :: !(a == d && b == k) ==> Ent(g, a, b) == Ent(f, a, b);
    ErasedNames(f, g, d, k, name, i);
  }

  lemma EraseCounts(f: Fs, d: int, k: nat)
    ensures var g, i := Erase(f, d, k), Ent(f, d, k).inum;
            && g.kind == f.kind && (forall j :: j != d ==> Nlink(g, j) == Nlink(f, j))
            && Nlink(g, d) == Nlink(f, d) - (if KindOf(f, i) == DIR then 1 else 0)
            && forall j :: Credit(g, j) == Credit(f, j) + if j == i then 1 else 0
  {
  }

  method ExecutePut(dirs: Directories, i: int, refs: nat, linking: multiset<int>, unlinking: multiset<int>)
    returns (reply: Reply)
    requires Running(dirs, linking, unlinking) && Allowed(dirs, Put(i, refs), linking, unlinking)
    modifies dirs
    ensures Running(dirs, linking, unlinking)
    ensures CallOk(old(dirs.State()), Put(i, refs), reply, dirs.State())
  {
    hide Inv, MadeAt, Stored, Has, SameNames, LosesAll, Slack;
    ghost var f := dirs.State();
    StoredIsCount(dirs, i);
    assert DueAt(f, linking, unlinking, i);
    var freed := dirs.Iput(i, refs);
    ghost var g := dirs.State();
    if freed {
      FreedNames(f, i);
      UnnamedButDots(f, i);
      NoLinkNoName(f, i);
      FreeSlacks(f, i, refs);
      DueChanges(f, g, linking, unlinking, linking, unlinking, i);
    } else {
      CountersSame(f, g);
      SameEntsSameNames(f, g);
    }
    reply := if freed then Yes else No;
    assert forall j :: InodeOk(f, Put(i, refs), reply, g, j);
  }

  method ExecuteMake(dirs: Directories, d: int, name: string, type': Kind, i: int, spaces: (bool, bool, bool),
                     linking: multiset<int>, unlinking: multiset<int>)
    returns (reply: Reply)
    requires Running(dirs, linking, unlinking) && Allowed(dirs, Make(d, name, type', i, spaces), linking, unlinking)
    modifies dirs
    ensures Running(dirs, linking, unlinking)
    ensures CallOk(old(dirs.State()), Make(d, name, type', i, spaces), reply, dirs.State())
  {
    hide Inv, MadeAt, Stored, Has, SameNames, Gains, GainsDirectory, Named, HasRoom, LeadsToFile, Appeared, Alike,
         Slack;
    ghost var f := dirs.State();
    StoredIsCount(dirs, d);
    var r := dirs.Create(d, name, type', i, spaces);
    ghost var g := dirs.State();
    reply := if r == 0 then No else Found(r);
    if r == 0 {
      AlikeNames(f, g);
      AlikeCounts(f, g, linking, unlinking);
      SameInodes(f, Make(d, name, type', i, spaces), reply, g);
      AlikeSlack(f, g);
    } else if r != i {
      SameEntsSameNames(f, g);
      CountersSame(f, g);
      ghost var k: nat :| Ent(g, d, k) == Dirent(r, name);
      assert Has(f, d, name, r) by { HasEntry(f, d, k, name, r); }
    } else {
      ghost var k: nat :| Appeared(f, g, d, k, name, i, type');
      NothingThere(f, i);
      AppearedNames(f, g, d, k, name, i, type');
      AppearedCounts(f, g, d, k, name, i, type', linking, unlinking);
      AppearedInodes(f, g, d, k, name, i, type', spaces);
      assert MadeAt(f, dirs.making, d);
      NewIsNoDot(f, d, name);
      AppearedSlack(f, g, d, k, name, i, type');
    }
  }

  lemma HasEntry(f: Fs, d: int, k: int, name: string, i: int)
    requires i != 0 && Ent(f, d, k) == Dirent(i, name)
    ensures Has(f, d, name, i)
  {
  }

  lemma AlikeCounts(f: Fs, g: Fs, linking: multiset<int>, unlinking: multiset<int>)
    requires Alike(f, g) && Due(f, linking, unlinking) && Bounded(f)
    ensures Due(g, linking, unlinking) && Bounded(g) && forall j :: SameInode(f, g, j)
  {
    forall j ensures DueAt(g, linking, unlinking, j) && Nlink(g, j) <= MAX_LINKS {
      assert SameInode(f, g, j) && DueAt(f, linking, unlinking, j);
    }
  }

  lemma AppearedInodes(f: Fs, g: Fs, d: int, k: int, name: string, i: int, type': Kind, spaces: (bool, bool, bool))
    requires Appeared(f, g, d, k, name, i, type') && Nlink(f, i) == 0
    ensures forall j :: InodeOk(f, Make(d, name, type', i, spaces), Found(i), g, j)
  {
    forall j ensures InodeOk(f, Make(d, name, type', i, spaces), Found(i), g, j) {
      assert InodeAfter(f, g, d, i, type', j);
    }
  }

  lemma AppearedCounts(f: Fs, g: Fs, d: int, k: int, name: string, i: int, type': Kind, linking: multiset<int>,
                       unlinking: multiset<int>)
    requires Appeared(f, g, d, k, name, i, type') && Due(f, linking, unlinking) && Bounded(f) && Credit(f, i) == 0
    requires type' == DIR ==> Nlink(f, d) < MAX_LINKS
    ensures Due(g, linking, unlinking) && Bounded(g)
  {
    forall j ensures DueAt(g, linking, unlinking, j) && Nlink(g, j) <= MAX_LINKS {
      assert InodeAfter(f, g, d, i, type', j) && DueAt(f, linking, unlinking, j);
    }
  }

  method Execute(dirs: Directories, call: Call, linking: multiset<int>, unlinking: multiset<int>)
    returns (reply: Reply, linking': multiset<int>, unlinking': multiset<int>)
    requires Running(dirs, linking, unlinking) && Allowed(dirs, call, linking, unlinking)
    modifies dirs
    ensures Running(dirs, linking', unlinking') && CallOk(old(dirs.State()), call, reply, dirs.State())
  {
    hide Inv, MadeAt, Stored, Has, SameNames, Bounded;
    linking', unlinking' := linking, unlinking;
    match call
    case LinkStart(i) => reply, linking' := ExecuteLinkStart(dirs, i, linking, unlinking);
    case LinkFinish(i, d, name, parent, space) =>
      reply, linking' := ExecuteLinkFinish(dirs, i, d, name, parent, space, linking, unlinking);
    case UnlinkStart(d, name) => reply, unlinking' := ExecuteUnlinkStart(dirs, d, name, linking, unlinking);
    case UnlinkFinish(i) => reply, unlinking' := ExecuteUnlinkFinish(dirs, i, linking, unlinking);
    case Put(i, refs) => reply := ExecutePut(dirs, i, refs, linking, unlinking);
    case Make(d, name, type', i, spaces) => reply := ExecuteMake(dirs, d, name, type', i, spaces, linking, unlinking);
  }

  method ExecuteUnlinkFinish(dirs: Directories, i: int, linking: multiset<int>, unlinking: multiset<int>)
    returns (reply: Reply, unlinking': multiset<int>)
    requires Running(dirs, linking, unlinking) && Allowed(dirs, UnlinkFinish(i), linking, unlinking)
    modifies dirs
    ensures Running(dirs, linking, unlinking')
    ensures CallOk(old(dirs.State()), UnlinkFinish(i), reply, dirs.State())
    ensures unlinking' == unlinking - multiset{i}
  {
    hide Inv, MadeAt, Stored, Has, SameNames, Slack;
    ghost var f := dirs.State();
    assert DueAt(f, linking, unlinking, i);
    dirs.UnlinkEnd(i);
    unlinking' := unlinking[i := unlinking[i] - 1];
    SameEntsSameNames(f, dirs.State());
    DueChanges(f, dirs.State(), linking, unlinking, linking, unlinking', i);
    reply := Yes;
    OneCount(f, UnlinkFinish(i), reply, dirs.State(), i);
    CountersSame(f, dirs.State());
  }

  /** The calls with these replies go through these states. */
  ghost predicate IsTrail(trail: seq<Fs>, calls: seq<Call>, replies: seq<Reply>) {
    && |trail| == |calls| + 1 && |calls| == |replies|
    && (forall k :: 0 <= k < |trail| ==> StopOk(trail[k]))
    && forall k :: 0 <= k < |calls| ==> CallOk(trail[k], calls[k], replies[k], trail[k + 1])
  }

  lemma TrailSnoc(trail: seq<Fs>, calls: seq<Call>, replies: seq<Reply>, n: nat, reply: Reply, g: Fs)
    requires n < |calls| && IsTrail(trail, calls[..n], replies) && StopOk(g) && CallOk(trail[n], calls[n], reply, g)
    ensures IsTrail(trail + [g], calls[..n + 1], replies + [reply])
  {
    hide StopOk, CallOk;
  }

  /** Every count is the number of names, subdirectories and calls under way. */
  ghost predicate Exact(f: Fs) {
    forall i :: ExactAt(f, i)
  }

  ghost predicate ExactAt(f: Fs, i: int) {
    Nlink(f, i) == |LinkState.Names(f, i)| + |Subs(f, i)| + Credit(f, i) + if i == ROOT then 1 else 0
  }

  lemma ExactIs(f: Fs)
    ensures Exact(f) <==> forall i :: Slack(f, i) == 0
  {
    hide LinkState.Names, Subs;
    forall i ensures ExactAt(f, i) <==> Slack(f, i) == 0 { }
  }

  /** The counts are exact at the end of a run if and only if it never freed a directory that still held a name;
      otherwise some file keeps a count that no name accounts for. */
  lemma {:induction false} CountsExact(trail: seq<Fs>, calls: seq<Call>, replies: seq<Reply>, n: nat)
    requires IsTrail(trail, calls, replies) && Exact(trail[0]) && n < |trail|
    ensures Exact(trail[n]) <==> forall m: nat :: m < n ==> !Strands(trail[m], calls[m], replies[m])
    ensures forall j :: Slack(trail[n], j) >= 0
    decreases n
  {
    hide StopOk, TreeOk, InodeOk, Exact, Slack, Strands;
    ExactIs(trail[n]);
    if n > 0 {
      CountsExact(trail, calls, replies, n - 1);
      ExactIs(trail[n - 1]);
      assert CallOk(trail[n - 1], calls[n - 1], replies[n - 1], trail[n]);
    }
  }

  /** The root directory alone. */
  const FIRST := Fs(map[ROOT := DIR], map[ROOT := 1], map[ROOT := 2],
                    map[(ROOT, 0) := Dirent(ROOT, "."), (ROOT, 1) := Dirent(ROOT, "..")], map[])

  lemma FirstExact()
    ensures Exact(FIRST)
  {
    forall i ensures ExactAt(FIRST, i) {
      assert LinkState.Names(FIRST, i) == {} && Subs(FIRST, i) == {};
    }
  }

  /** Any calls, in any order, on the tree that mkfs makes: the tree of names and the counts change as each call
      says, every name leads to an inode in use, and unlink() never panics.  The run ends early only at a call that
      cannot happen or that would take a count beyond its limit. */
  method Run(calls: seq<Call>)
    returns (replies: seq<Reply>, done: nat, linking: multiset<int>, unlinking: multiset<int>, ghost trail: seq<Fs>)
    ensures done == |replies| <= |calls| && IsTrail(trail, calls[..done], replies)
    ensures trail[0] == FIRST && Exact(FIRST) && Due(trail[done], linking, unlinking)
    ensures done < |calls| ==> !MayHappen(trail[done], calls[done], linking, unlinking)
  {
    hide CallOk, Inv, MadeAt, Stored, Bounded, Sound, Due, Allowed, MayHappen, Exact;
    var dirs := new Directories();
    linking, unlinking := multiset{}, multiset{};
    replies, done, trail := [], 0, [dirs.State()];
    NewTree(dirs);
    FirstExact();
    InvSound(dirs.State());
    while done < |calls|
      invariant done == |replies| <= |calls| && Running(dirs, linking, unlinking) && fresh(dirs)
      invariant IsTrail(trail, calls[..done], replies) && trail[done] == dirs.State() && trail[0] == FIRST
    {
      AllowedIs(dirs, calls[done], linking, unlinking);
      if !Allowed(dirs, calls[done], linking, unlinking) {
        return;
      }
      var reply;
      reply, linking, unlinking := Execute(dirs, calls[done], linking, unlinking);
      InvSound(dirs.State());
      TrailSnoc(trail, calls, replies, done, reply, dirs.State());
      replies, trail, done := replies + [reply], trail + [dirs.State()], done + 1;
    }
  }

  lemma NewTree(dirs: Directories)
    requires dirs.Valid() && dirs.making == {} && dirs.credit == map[] && dirs.links == map[ROOT := 1]
    ensures Running(dirs, multiset{}, multiset{})
  {
    forall i ensures DueAt(dirs.State(), multiset{}, multiset{}, i) { }
  }

  // ---------------------------------------------------------------------
  // A lost name

  lemma FirstNames(name: string)
    ensures forall a, n, j :: Has(FIRST, a, n, j) ==> a == ROOT && j == ROOT && Dot(n)
    ensures !Dot(name) ==> !Named(FIRST, ROOT, name)
  {
  }

  lemma ExactKept(f: Fs, g: Fs)
    requires Exact(f)
    ensures Exact(g) <==> SameSlack(f, g)
  {
    ExactIs(f);
    ExactIs(g);
    hide Exact, Slack;
  }

  /** The names in the root directory and in directory 2, one under way to be removed. */
  ghost predicate Only(f: Fs, entered: bool, filed: bool) {
    forall a, n, j :: Has(f, a, n, j) ==>
      || (a == ROOT && j == ROOT && Dot(n)) || (entered && a == ROOT && n == "d" && j == 2)
      || (a == 2 && j <= 2 && Dot(n)) || (filed && a == 2 && n == "f" && j == 3)
  }

  lemma EmptyDirectory(f: Fs)
    requires Inv(f) && Only(f, true, false)
    ensures Removable(f, 2)
  {
    hide Covered, Unlinked, LinkState.Distinct, Has;
    forall k: nat | 2 <= k < Slots(f, 2) ensures Vacant(f, 2, k) {
      var e := Ent(f, 2, k);
      assert EntryOk(f, 2, k);
      if e.inum != 0 {
        HasEntry(f, 2, k, e.name, e.inum);
      }
    }
  }

  /** Kinds and counts of the three inodes in the story. */
  ghost predicate Inodes(f: Fs, kinds: (Kind, Kind), links: (int, int)) {
    && KindOf(f, ROOT) == DIR && (KindOf(f, 2), KindOf(f, 3)) == kinds && (Nlink(f, 2), Nlink(f, 3)) == links
  }

  lemma InodesAfter(f: Fs, call: Call, reply: Reply, g: Fs)
    requires CallOk(f, call, reply, g)
    ensures InodeOk(f, call, reply, g, ROOT) && InodeOk(f, call, reply, g, 2) && InodeOk(f, call, reply, g, 3)
  {
  }

  lemma AfterMkdir(reply: Reply, g: Fs)
    requires CallOk(FIRST, Make(ROOT, "d", DIR, 2, (true, true, true)), reply, g)
    ensures reply == Found(2) && Only(g, true, false) && Has(g, ROOT, "d", 2)
    ensures Inodes(g, (DIR, FREE), (1, 0)) && Exact(g)
  {
    hide Has, Exact, Slack, Named, SameSlack;
    InodesAfter(FIRST, Make(ROOT, "d", DIR, 2, (true, true, true)), reply, g);
    FirstNames("d");
    FirstExact();
    ExactKept(FIRST, g);
  }

  lemma AfterRmdir(f: Fs, reply: Reply, g: Fs)
    requires CallOk(f, UnlinkStart(ROOT, "d"), reply, g) && Inv(f) && Only(f, true, false) && Has(f, ROOT, "d", 2)
    requires Inodes(f, (DIR, FREE), (1, 0)) && Exact(f)
    ensures reply == Found(2) && Only(g, false, false) && Inodes(g, (DIR, FREE), (1, 0)) && Exact(g)
  {
    hide Inv, Has, Exact, Slack, Named, SameSlack, Removable;
    InodesAfter(f, UnlinkStart(ROOT, "d"), reply, g);
    EmptyDirectory(f);
    HasIsLeads(f, ROOT, "d");
    ExactKept(f, g);
  }

  lemma AfterUncount(f: Fs, reply: Reply, g: Fs)
    requires CallOk(f, UnlinkFinish(2), reply, g) && Only(f, false, false) && Inodes(f, (DIR, FREE), (1, 0)) && Exact(f)
    ensures Only(g, false, false) && Inodes(g, (DIR, FREE), (0, 0)) && Exact(g)
  {
    hide Has, Exact, Slack, SameSlack;
    InodesAfter(f, UnlinkFinish(2), reply, g);
    ExactKept(f, g);
  }

  lemma AfterCreat(f: Fs, reply: Reply, g: Fs)
    requires CallOk(f, Make(2, "f", FILE, 3, (true, true, true)), reply, g) && Only(f, false, false) && Inv(f)
    requires Inodes(f, (DIR, FREE), (0, 0)) && Exact(f)
    ensures Only(g, false, true) && Has(g, 2, "f", 3) && Inodes(g, (DIR, FILE), (0, 1)) && Exact(g)
  {
    hide Inv, Has, Exact, Slack, SameSlack, Named;
    InodesAfter(f, Make(2, "f", FILE, 3, (true, true, true)), reply, g);
    HasIsLeads(f, 2, "f");
    ExactKept(f, g);
  }

  lemma AfterIput(f: Fs, reply: Reply, g: Fs)
    requires CallOk(f, Put(2, 1), reply, g) && Only(f, false, true) && Has(f, 2, "f", 3)
    requires Inodes(f, (DIR, FILE), (0, 1)) && Exact(f)
    ensures Inodes(g, (FREE, FILE), (0, 1)) && !Exact(g) && forall a, n :: !Has(g, a, n, 3)
  {
    hide Has, Exact, Slack, SameSlack;
    InodesAfter(f, Put(2, 1), reply, g);
    ExactKept(f, g);
  }

  /** mkdir d, rmdir d while it is some process's current directory, creat f in it, and leave: the file keeps its
      inode and its link, and nothing leads to it. */
  method LostName() returns (ghost f: Fs)
    ensures KindOf(f, 3) == FILE && Nlink(f, 3) == 1 && !Exact(f) && forall a, n :: !Has(f, a, n, 3)
  {
    hide Inv, MadeAt, Stored, Has, Exact, Bounded, Due, CallOk, Only;
    var none, all := multiset{}, (true, true, true);
    var dirs := new Directories();
    NewTree(dirs);
    StoredIsCount(dirs, ROOT);
    var reply := ExecuteMake(dirs, ROOT, "d", DIR, 2, all, none, none);
    f := dirs.State();
    AfterMkdir(reply, f);
    var unlinking;
    reply, unlinking := ExecuteUnlinkStart(dirs, ROOT, "d", none, none);
    AfterRmdir(f, reply, dirs.State());
    f := dirs.State();
    reply, unlinking := ExecuteUnlinkFinish(dirs, 2, none, unlinking);
    AfterUncount(f, reply, dirs.State());
    f := dirs.State();
    reply := ExecuteMake(dirs, 2, "f", FILE, 3, all, none, unlinking);
    AfterCreat(f, reply, dirs.State());
    f := dirs.State();
    reply := ExecutePut(dirs, 2, 1, none, unlinking);
    AfterIput(f, reply, dirs.State());
    f := dirs.State();
  }

  // ---------------------------------------------------------------------
  // One link too many

  function Letter(n: nat): char
    requires n < 64
  {
    (48 + n) as char
  }

  /** Names of four characters, all different. */
  function Name(n: nat): (r: string)
    requires n <= 0x8000
    ensures |r| == 4
  {
    ['x', Letter(n / 4096), Letter(n / 64 % 64), Letter(n % 64)]
  }

  lemma NameApart(m: nat, n: nat)
    requires m <= 0x8000 && n <= 0x8000 && Name(m) == Name(n)
    ensures m == n
  {
    assert Name(m)[1] == Name(n)[1] && Name(m)[2] == Name(n)[2] && Name(m)[3] == Name(n)[3];
    assert Letter(m / 4096) == Letter(n / 4096) && Letter(m / 64 % 64) == Letter(n / 64 % 64);
    assert Letter(m % 64) == Letter(n % 64);
    Digits(m);
    Digits(n);
  }

  lemma Digits(n: nat)
    ensures n == n / 4096 * 4096 + n / 64 % 64 * 64 + n % 64
  {
  }

  /** A short name or one of the first n. */
  ghost predicate Early(name: string, n: nat)
    requires n <= 0x8000
  {
    |name| < 4 || exists m: nat :: m < n && Name(m) == name
  }

  /** The names in the root directory are early ones. */
  ghost predicate EarlyNames(f: Fs, n: nat)
    requires n <= 0x8000
  {
    forall k :: Ent(f, ROOT, k).inum != 0 ==> Early(Ent(f, ROOT, k).name, n)
  }

  lemma LateName(f: Fs, n: nat)
    requires n <= 0x8000 && EarlyNames(f, n)
    ensures !Named(f, ROOT, Name(n))
  {
    hide Name;
    if Named(f, ROOT, Name(n)) {
      var k: nat :| k < Slots(f, ROOT) && Ent(f, ROOT, k).inum != 0 && Ent(f, ROOT, k).name == Name(n);
      var m: nat :| m < n && Name(m) == Name(n);
      NameApart(m, n);
    }
  }

  lemma OneMoreName(f: Fs, k: nat, n: nat, i: int)
    requires n < 0x8000 && EarlyNames(f, n) && Credit(f, i) > 0
    ensures EarlyNames(Enter(f, ROOT, k, Name(n), i), n + 1)
  {
    hide Name;
    var g := Enter(f, ROOT, k, Name(n), i);
    forall b | Ent(g, ROOT, b).inum != 0 ensures Early(Ent(g, ROOT, b).name, n + 1) {
      if b != k {
        assert Ent(g, ROOT, b) == Ent(f, ROOT, b);
        assert Early(Ent(f, ROOT, b).name, n);
      }
    }
  }

  lemma FileMade(f: Fs, g: Fs, k: nat)
    requires f.ents == map[(ROOT, 0) := Dirent(ROOT, "."), (ROOT, 1) := Dirent(ROOT, "..")]
    requires f.kind == map[ROOT := DIR]
    requires Inv(g) && Appeared(f, g, ROOT, k, "f", 2, FILE)
    ensures EarlyNames(g, 1) && Leads(g, ROOT, "f", 2)
    ensures Nlink(g, 2) == 1 && KindOf(g, 2) == FILE && KindOf(g, ROOT) == DIR
  {
    assert InodeAfter(f, g, ROOT, 2, FILE, 2) && InodeAfter(f, g, ROOT, 2, FILE, ROOT);
    assert EntryAfter(f, g, ROOT, k, "f", 2, FILE, ROOT, k) && EntryOk(g, ROOT, k);
    forall b | Ent(g, ROOT, b).inum != 0 ensures Early(Ent(g, ROOT, b).name, 1) {
      assert EntryAfter(f, g, ROOT, k, "f", 2, FILE, ROOT, b);
    }
  }

  lemma NoFile(f: Fs)
    requires f.ents == map[(ROOT, 0) := Dirent(ROOT, "."), (ROOT, 1) := Dirent(ROOT, "..")]
    ensures !Named(f, ROOT, "f")
  {
    forall k ensures Ent(f, ROOT, k).name != "f" { }
  }

  lemma LinkedAgain(f: Fs, k: nat, n: nat)
    requires n < 0x8000 && EarlyNames(f, n) && Leads(f, ROOT, "f", 2) && FitsAt(AddLink(f, 2), ROOT, k)
    requires KindOf(f, 2) == FILE
    ensures var g := Enter(AddLink(f, 2), ROOT, k, Name(n), 2);
            && EarlyNames(g, n + 1) && Leads(g, ROOT, "f", 2) && Nlink(g, 2) == Nlink(f, 2) + 1
            && g.kind == f.kind
  {
    hide Name;
    var f1 := AddLink(f, 2);
    SameEntsEarly(f, f1, n);
    OneMoreName(f1, k, n, 2);
    var g := Enter(f1, ROOT, k, Name(n), 2);
    var m: nat :| m < Slots(f, ROOT) && Ent(f, ROOT, m) == Dirent(2, "f");
    assert m != k ==> Ent(g, ROOT, m) == Dirent(2, "f");
    assert m == k ==> Vacant(f1, ROOT, k) && Ent(f1, ROOT, k) == Ent(f, ROOT, k);
  }

  lemma SameEntsEarly(f: Fs, g: Fs, n: nat)
    requires n <= 0x8000 && EarlyNames(f, n) && g.ents == f.ents
    ensures EarlyNames(g, n)
  {
    hide Early;
    forall k ensures Ent(g, ROOT, k) == Ent(f, ROOT, k) { }
  }

  /** A file with 32767 links and one more: it can no longer be unlinked, because its count is negative. */
  method OneLinkTooMany() returns (r: Unlinking)
    ensures r == Panicked
  {
    hide Inv, MadeAt, Stored, Named, HasRoom, Leads, EarlyNames, Name, Appeared, Enter, AddLink;
    var dirs := new Directories();
    ghost var f := dirs.State();
    NoFile(f);
    var i := dirs.Create(ROOT, "f", FILE, 2, (true, true, true));
    ghost var k: nat :| Appeared(f, dirs.State(), ROOT, k, "f", 2, FILE);
    FileMade(f, dirs.State(), k);
    var n := 1;
    while n < 0x8000
      invariant 1 <= n <= 0x8000
      invariant dirs.Valid() && dirs.making == {} && dirs.Type(ROOT) == DIR && dirs.Type(2) == FILE && fresh(dirs)
      invariant Nlink(dirs.State(), 2) == n && EarlyNames(dirs.State(), n) && Leads(dirs.State(), ROOT, "f", 2)
    {
      f := dirs.State();
      var ok := dirs.LinkBegin(2);
      LinkAdded(f);
      SameEntsEarly(f, dirs.State(), n);
      LateName(dirs.State(), n);
      ok := dirs.LinkEnd(2, ROOT, Name(n), true, true);
      k :| FitsAt(AddLink(f, 2), ROOT, k) && dirs.State() == Enter(AddLink(f, 2), ROOT, k, Name(n), 2);
      LinkedAgain(f, k, n);
      n := n + 1;
    }
    f := dirs.State();
    assert Named(f, ROOT, "f") && forall j :: Leads(f, ROOT, "f", j) ==> j == 2 by { OnlyTwo(f); }
    r, i := dirs.UnlinkBegin(ROOT, "f");
  }

  lemma LinkAdded(f: Fs)
    ensures var g := AddLink(f, 2); g.ents == f.ents && g.kind == f.kind && g.slots == f.slots && Credit(g, 2) > 0
  {
  }

  lemma OnlyTwo(f: Fs)
    requires Inv(f) && Leads(f, ROOT, "f", 2)
    ensures Named(f, ROOT, "f") && forall j :: Leads(f, ROOT, "f", j) ==> j == 2
  {
    hide Inv;
    var k: nat :| k < Slots(f, ROOT) && Ent(f, ROOT, k) == Dirent(2, "f");
    OneTarget(f, ROOT, "f", k, 2);
  }
}
