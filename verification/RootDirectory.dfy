/** kernel/fs.c's dirlookup() on the bytes of a directory, and what it finds in the root directory of mkfs's image. */
module RootDirectory {
  import opened FsState
  import opened FlatFiles
  import opened FirstBoot

  const DOT: seq<nat> := ['.' as nat]
  const DOTS: seq<nat> := ['.' as nat, '.' as nat]

  /** Byte k of a string in memory: a NUL and whatever follows it read as zeroes. */
  function CharAt(s: seq<nat>, k: nat): nat
  {
    if k < |s| then s[k] else 0
  }

  /** A string as far as its NUL. */
  function Word(s: seq<nat>): (r: seq<nat>)
    ensures r <= s && (forall k :: 0 <= k < |r| ==> r[k] != 0) && CharAt(s, |r|) == 0
  {
    if CharAt(s, 0) == 0 then [] else [s[0]] + Word(s[1..])
  }

  /** A name as far as DIRSIZ characters. */
  function Cut(s: seq<nat>): (r: seq<nat>)
    ensures r <= s && |r| <= DIRSIZ && (forall k :: 0 <= k < |r| ==> r[k] != 0)
    ensures |r| == DIRSIZ || CharAt(s, |r|) == 0
  {
    var w := Word(s);
    if |w| <= DIRSIZ then w else w[..DIRSIZ]
  }

  lemma CharOfCut(p: seq<nat>, k: nat)
    requires k < DIRSIZ && forall m: nat :: m < k ==> CharAt(p, m) != 0
    ensures CharAt(Cut(p), k) == CharAt(p, k)
  {
    hide Cut;
  }

  lemma CutEnds(p: seq<nat>, k: nat)
    requires k <= DIRSIZ && (forall m: nat :: m < k ==> CharAt(p, m) != 0) && (k == DIRSIZ || CharAt(p, k) == 0)
    ensures |Cut(p)| == k
  {
    hide Cut;
    if k < DIRSIZ {
      CharOfCut(p, k);
    }
  }

  /** Names are the same when their characters agree as far as a NUL, or DIRSIZ of them. */
  lemma SameCut(p: seq<nat>, q: seq<nat>)
    requires forall m: nat :: m < |Cut(p)| ==> CharAt(p, m) == CharAt(q, m)
    requires |Cut(p)| == DIRSIZ || CharAt(q, |Cut(p)|) == 0
    ensures Cut(p) == Cut(q)
  {
    hide Cut, Word;
    var n := |Cut(p)|;
    forall m: nat | m < n ensures CharAt(q, m) == Cut(p)[m] != 0 { assert CharAt(p, m) == Cut(p)[m]; }
    CutEnds(q, n);
    forall m: nat | m < n ensures Cut(p)[m] == Cut(q)[m] { assert CharAt(q, m) == Cut(p)[m]; }
  }

  lemma OtherCut(p: seq<nat>, q: seq<nat>, k: nat)
    requires k < DIRSIZ && (forall m: nat :: m < k ==> CharAt(p, m) == CharAt(q, m) != 0)
    requires CharAt(p, k) != CharAt(q, k)
    ensures Cut(p) != Cut(q)
  {
    CharOfCut(p, k);
    CharOfCut(q, k);
  }

  /** strncmp() with DIRSIZ, as namecmp() calls it. */
  method Namecmp(p: seq<nat>, q: seq<nat>) returns (same: bool)
    ensures same <==> Cut(p) == Cut(q)
  {
    hide Cut;
    var k := 0;
    while k < DIRSIZ && CharAt(p, k) != 0 && CharAt(p, k) == CharAt(q, k)
      invariant k <= DIRSIZ && forall m: nat :: m < k ==> CharAt(p, m) == CharAt(q, m) != 0
    {
      k := k + 1;
    }
    same := k == DIRSIZ || CharAt(p, k) == CharAt(q, k);
    if same {
      CutEnds(p, k);
      SameCut(p, q);
    } else {
      OtherCut(p, q, k);
    }
  }

  /** struct dirent number e: the inode number, low byte first, and the name. */
  function InumAt(c: seq<nat>, e: nat): nat
  {
    CharAt(c, DIRENT * e) + 256 * CharAt(c, DIRENT * e + 1)
  }

  function Char(c: seq<nat>, e: nat, m: nat): nat
  {
    CharAt(c, DIRENT * e + 2 + m)
  }

  function NameAt(c: seq<nat>, e: nat): seq<nat>
  {
    seq(DIRSIZ, m requires 0 <= m => Char(c, e, m))
  }

  /** An entry in use with the name. */
  predicate Matches(c: seq<nat>, name: seq<nat>, e: nat)
  {
    InumAt(c, e) != 0 && Cut(NameAt(c, e)) == Cut(name)
  }

  /** What a lookup answers: the inode number of the first entry with the name, or 0. */
  ghost predicate Finds(c: seq<nat>, name: seq<nat>, inum: nat)
  {
    if inum == 0 then forall e: nat :: !Matches(c, name, e)
    else exists e: nat :: Matches(c, name, e) && inum == InumAt(c, e) && forall d: nat :: d < e ==> !Matches(c, name, d)
  }

  /** dirlookup(): a directory's size is a whole number of entries. */
  method Dirlookup(c: seq<nat>, name: seq<nat>) returns (inum: nat)
    requires |c| % DIRENT == 0
    ensures Finds(c, name, inum)
  {
    hide Cut;
    var e := 0;
    while DIRENT * e < |c|
      invariant DIRENT * e <= |c|
      invariant forall d: nat :: d < e ==> !Matches(c, name, d)
      decreases |c| - DIRENT * e
    {
      if InumAt(c, e) != 0 {
        var same := Namecmp(name, NameAt(c, e));
        if same {
          return InumAt(c, e);
        }
      }
      e := e + 1;
    }
    return 0;
  }

  // ---------------------------------------------------------------------
  // The bytes of the root directory

  /** The entry at a place in the directory. */
  ghost predicate EntryIs(c: seq<nat>, e: nat, inum: nat, name: seq<nat>)
  {
    && DIRENT * (e + 1) <= |c| && |name| <= DIRSIZ
    && c[16 * e] == inum % 256 && c[16 * e + 1] == inum / 256
    && forall m: nat :: m < 14 ==> c[16 * e + 2 + m] == CharAt(name, m)
  }

  lemma EntryBytes(inum: nat, name: seq<nat>, pre: seq<nat>, post: seq<nat>, e: nat)
    requires |name| <= DIRSIZ && |pre| == DIRENT * e
    ensures EntryIs(pre + DirEntry(inum, name) + post, e, inum, name)
  {
  }

  lemma EntryStays(c: seq<nat>, e: nat, inum: nat, name: seq<nat>, post: seq<nat>)
    requires EntryIs(c, e, inum, name)
    ensures EntryIs(c + post, e, inum, name)
  {
  }

  /** Where everything stands in the root directory: the two dots are entries 0 and 1 and name inode 1; file k is
      entry k + 2 and names inode k + 2. */
  lemma {:induction false} RootBytes(files: seq<HostFile>)
    requires NamesFit(files)
    ensures EntryIs(RootEntries(files), 0, 1, DOT) && EntryIs(RootEntries(files), 1, 1, DOTS)
    ensures forall k: nat :: k < |files| ==> EntryIs(RootEntries(files), k + 2, k + 2, files[k].name)
    decreases |files|
  {
    hide DirEntry, EntryIs;
    if |files| == 0 {
      var a, b := DirEntry(ROOTINO, DOT), DirEntry(ROOTINO, DOTS);
      EntryBytes(ROOTINO, DOT, [], b, 0);
      EntryBytes(ROOTINO, DOTS, a, [], 1);
      assert [] + a + b == a + b && a + b + [] == a + b;
    } else {
      var n := |files| - 1;
      var rest, last := RootEntries(files[..n]), DirEntry(n + 2, files[n].name);
      RootBytes(files[..n]);
      EntryStays(rest, 0, 1, DOT, last);
      EntryStays(rest, 1, 1, DOTS, last);
      forall k: nat | k < |files| ensures EntryIs(RootEntries(files), k + 2, k + 2, files[k].name) {
        if k < n {
          EntryStays(rest, k + 2, k + 2, files[k].name, last);
        } else {
          EntryBytes(n + 2, files[n].name, rest, [], n + 2);
          assert rest + last + [] == rest + last;
        }
      }
    }
  }

  lemma EntryRead(c: seq<nat>, e: nat, inum: nat, name: seq<nat>)
    requires EntryIs(c, e, inum, name)
    ensures InumAt(c, e) == inum && Cut(NameAt(c, e)) == Cut(name)
  {
    hide Cut;
    var field := NameAt(c, e);
    forall m: nat ensures m < DIRSIZ ==> CharAt(field, m) == CharAt(name, m) {
      if m < DIRSIZ {
        assert c[16 * e + 2 + m] == CharAt(name, m);
      }
    }
    SameCut(field, name);
  }

  /** The entries of a directory: the dots, the files and free entries. */
  ghost predicate Listing(c: seq<nat>, files: seq<HostFile>)
  {
    && InumAt(c, 0) == InumAt(c, 1) == 1 && Cut(NameAt(c, 0)) == DOT && Cut(NameAt(c, 1)) == DOTS
    && (forall k: nat :: k < |files| ==> Listed(c, k, files[k].name))
    && forall e: nat :: e >= |files| + 2 ==> InumAt(c, e) == 0
  }

  ghost predicate Listed(c: seq<nat>, k: nat, name: seq<nat>)
  {
    InumAt(c, k + 2) == k + 2 && Cut(NameAt(c, k + 2)) == Cut(name)
  }

  /** The first file with the name. */
  ghost predicate FirstFile(files: seq<HostFile>, name: seq<nat>, k: nat)
  {
    && k < |files| && Cut(files[k].name) == Cut(name)
    && forall m: nat :: m < k ==> Cut(files[m].name) != Cut(name)
  }

  /** Inode 1 for the two dots, inode k + 2 for the first file k of the name, and none for any other name. */
  ghost predicate RightInode(files: seq<HostFile>, name: seq<nat>, inum: nat)
  {
    if Cut(name) == DOT || Cut(name) == DOTS then inum == 1
    else if inum == 0 then forall k: nat :: k < |files| ==> Cut(files[k].name) != Cut(name)
    else inum >= 2 && FirstFile(files, name, inum - 2)
  }

  lemma FindsListed(c: seq<nat>, files: seq<HostFile>, name: seq<nat>, inum: nat)
    requires Listing(c, files) && Finds(c, name, inum)
    ensures RightInode(files, name, inum)
  {
    hide Cut, InumAt, NameAt;
    assert Matches(c, name, 0) <==> Cut(name) == DOT;
    assert Matches(c, name, 1) <==> Cut(name) == DOTS;
    forall k: nat | k < |files| ensures Matches(c, name, k + 2) <==> Cut(files[k].name) == Cut(name) {
      assert Listed(c, k, files[k].name);
    }
    if inum != 0 {
      var e: nat :| Matches(c, name, e) && inum == InumAt(c, e) && forall d: nat :: d < e ==> !Matches(c, name, d);
      if e >= 2 {
        assert e < |files| + 2;
        assert Listed(c, e - 2, files[e - 2].name);
      }
    }
  }

  /** A lookup in the root directory of the image finds the inode of the file. */
  lemma FindsFiles(st: State, files: seq<HostFile>, name: seq<nat>, inum: nat)
    requires NamesFit(files) && ImageHolds(st, files) && Finds(Content(st, ROOTINO), name, inum)
    ensures RightInode(files, name, inum)
  {
    hide Cut, Listing, RightInode;
    ImageEntries(files, Content(st, ROOTINO));
    FindsListed(Content(st, ROOTINO), files, name, inum);
  }

  lemma DotsCut()
    ensures Cut(DOT) == DOT && Cut(DOTS) == DOTS
  {
    CutEnds(DOT, 1);
    CutEnds(DOTS, 2);
  }

  lemma ImageEntries(files: seq<HostFile>, c: seq<nat>)
    requires NamesFit(files) && RootEntries(files) <= c && forall m :: |RootEntries(files)| <= m < |c| ==> c[m] == 0
    ensures Listing(c, files)
  {
    hide Cut, EntryIs, RootEntries, NameAt;
    var r := RootEntries(files);
    var pad := c[|r|..];
    assert c == r + pad;
    RootBytes(files);
    DotsCut();
    EntryStays(r, 0, 1, DOT, pad);
    EntryRead(c, 0, 1, DOT);
    EntryStays(r, 1, 1, DOTS, pad);
    EntryRead(c, 1, 1, DOTS);
    forall k: nat | k < |files| ensures Listed(c, k, files[k].name) {
      EntryStays(r, k + 2, k + 2, files[k].name, pad);
      EntryRead(c, k + 2, k + 2, files[k].name);
    }
    forall e: nat | e >= |files| + 2 ensures InumAt(c, e) == 0 { }
  }
}
