/**
 * Physical pages and two-level page tables as values (kernel/kalloc.c, kernel/vm.c).
 *
 * Pages are named by their page number. `tables` holds the entries of the pages used as page
 * tables and `owner` records the one use of every page the allocator manages: on the free list,
 * held by kernel code, the root of a table, the node behind one entry of a root, or the page
 * behind one user mapping.
 */
module PageTable {
  const PTES := 1024
  /** Pages below MAXVA, and the numbers of the two pages at the top of a process's table. */
  const PAGES := 0x8_0000
  const TRAPFRAME := 0x3EFD
  const TRAMPOLINE := 0x3EFE

  datatype Perm = Perm(r: bool, w: bool, x: bool, u: bool)
  const NOPERM := Perm(false, false, false, false)

  datatype Pte = Pte(v: bool, ppn: int, perm: Perm)
  const NONE := Pte(false, 0, NOPERM)

  function Bit(b: bool, weight: nat): nat {
    if b then weight else 0
  }

  /** A table entry as a 32-bit word: page number in the upper 20 bits, then U, X, W, R at bits 8 to 5 and V at
      bit 0. */
  function ToWord(e: Pte): int {
    e.ppn * 4096 + Bit(e.perm.u, 256) + Bit(e.perm.x, 128) + Bit(e.perm.w, 64) + Bit(e.perm.r, 32) + Bit(e.v, 1)
  }

  function FromWord(w: int): Pte {
    Pte(w % 2 == 1, w / 4096, Perm(w / 32 % 2 == 1, w / 64 % 2 == 1, w / 128 % 2 == 1, w / 256 % 2 == 1))
  }

  /** PA2PTE, the flags and PTE2PA agree: a word gives back the entry it was made from, and fits in 32 bits. */
  lemma WordRoundTrip(e: Pte)
    requires 0 <= e.ppn < 0x10_0000
    ensures FromWord(ToWord(e)) == e && 0 <= ToWord(e) < 0x1_0000_0000
    ensures var w := ToWord(e);
            && w / 4096 == e.ppn && (w % 2 == 1 <==> e.v)
            && (w / 32 % 2 == 1 <==> e.perm.r) && (w / 64 % 2 == 1 <==> e.perm.w)
            && (w / 128 % 2 == 1 <==> e.perm.x) && (w / 256 % 2 == 1 <==> e.perm.u)
  {
    var p, u, x, w, r, v := e.ppn, Bit(e.perm.u, 1), Bit(e.perm.x, 1), Bit(e.perm.w, 1), Bit(e.perm.r, 1), Bit(e.v, 1);
    Digits(ToWord(e), p, u, x, w, r, v);
  }

  lemma Divide(q: int, v: int)
    requires 0 <= v < 32
    ensures (32 * q + v) / 32 == q
  {
  }

  lemma Parity(q: int, b: int)
    requires b == 0 || b == 1
    ensures (2 * q + b) % 2 == b && (2 * q + b) / 2 == q
  {
  }

  lemma Nested(w: int)
    ensures w / 64 == w / 32 / 2 && w / 128 == w / 32 / 2 / 2 && w / 256 == w / 32 / 2 / 2 / 2
    ensures w / 4096 == w / 32 / 2 / 2 / 2 / 2 / 2 / 2 / 2
  {
  }

  lemma Digits(word: int, p: int, u: int, x: int, w: int, r: int, v: int)
    requires 0 <= u <= 1 && 0 <= x <= 1 && 0 <= w <= 1 && 0 <= r <= 1 && 0 <= v <= 1
    requires word == 4096 * p + 256 * u + 128 * x + 64 * w + 32 * r + v
    ensures word % 2 == v && word / 32 % 2 == r && word / 64 % 2 == w && word / 128 % 2 == x && word / 256 % 2 == u
    ensures word / 4096 == p
  {
    Nested(word);
    Divide(128 * p + 8 * u + 4 * x + 2 * w + r, v);
    Parity(64 * p + 4 * u + 2 * x + w, r);
    Parity(32 * p + 2 * u + x, w);
    Parity(16 * p + u, x);
    Parity(8 * p, u);
    Parity(4 * p, 0);
    Parity(2 * p, 0);
    Parity(p, 0);
    Parity(2048 * p + 128 * u + 64 * x + 32 * w + 16 * r, v);
  }

  type Tables = map<int, seq<Pte>>

  datatype Use = Outside | Free | Held | Root | Node(root: int, i: int) | Leaf(root: int, vpn: int)

  /** The indices that PX(1, va) and PX(0, va) take from a page number. */
  function Hi(vpn: int): int { vpn / PTES }
  function Lo(vpn: int): int { vpn % PTES }

  lemma Split(v: int, w: int)
    requires 0 <= v < PAGES && 0 <= w < PAGES
    ensures Hi(v) == Hi(w) && Lo(v) == Lo(w) ==> v == w
    ensures 0 <= Hi(v) < PAGES / PTES && 0 <= Lo(v) < PTES && v == 0x400 * Hi(v) + Lo(v)
  {
  }

  function Entry(t: Tables, p: int, i: int): Pte {
    if p in t && 0 <= i < |t[p]| then t[p][i] else NONE
  }

  /** The flat page map that a two-level table stands for. */
  function Lookup(t: Tables, root: int, vpn: int): Pte {
    var e := Entry(t, root, Hi(vpn));
    if e.v then Entry(t, e.ppn, Lo(vpn)) else NONE
  }

  ghost function UseOf(owner: map<int, Use>, p: int): Use {
    if p in owner then owner[p] else Outside
  }

  ghost predicate TableAt(t: Tables, owner: map<int, Use>, p: int) {
    UseOf(owner, p).Root? || UseOf(owner, p).Node? ==> p in t && |t[p]| == PTES
  }

  /** A valid entry of a root is the only way to the node behind it. */
  ghost predicate NodeAt(t: Tables, owner: map<int, Use>, r: int, i: int) {
    UseOf(owner, r) == Root && 0 <= i < PTES && Entry(t, r, i).v ==>
      && i < PAGES / PTES
      && UseOf(owner, Entry(t, r, i).ppn) == Node(r, i) && Entry(t, r, i).perm == NOPERM
  }

  ghost predicate NodeBack(t: Tables, owner: map<int, Use>, p: int) {
    UseOf(owner, p).Node? ==>
      && UseOf(owner, UseOf(owner, p).root) == Root && 0 <= UseOf(owner, p).i < PTES
      && Entry(t, UseOf(owner, p).root, UseOf(owner, p).i) == Pte(true, p, NOPERM)
  }

  /** A user mapping is readable, lies below the trapframe, and is the only way to the page behind it. */
  ghost predicate LeafAt(t: Tables, owner: map<int, Use>, r: int, v: int) {
    UseOf(owner, r) == Root && 0 <= v < PAGES && Lookup(t, r, v).v ==>
      && Lookup(t, r, v).perm.r
      && (Lookup(t, r, v).perm.u ==> v < TRAPFRAME)
      && (v < TRAPFRAME ==> UseOf(owner, Lookup(t, r, v).ppn) == Leaf(r, v))
  }

  ghost predicate LeafBack(t: Tables, owner: map<int, Use>, p: int) {
    UseOf(owner, p).Leaf? ==>
      && UseOf(owner, UseOf(owner, p).root) == Root && 0 <= UseOf(owner, p).vpn < TRAPFRAME
      && Lookup(t, UseOf(owner, p).root, UseOf(owner, p).vpn).v
      && Lookup(t, UseOf(owner, p).root, UseOf(owner, p).vpn).ppn == p
  }

  ghost predicate Owned(t: Tables, owner: map<int, Use>) {
    && (forall p :: TableAt(t, owner, p))
    && (forall r, i :: NodeAt(t, owner, r, i))
    && (forall p :: NodeBack(t, owner, p))
    && (forall r, v :: LeafAt(t, owner, r, v))
    && (forall p :: LeafBack(t, owner, p))
  }

  ghost predicate IsRoot(owner: map<int, Use>, r: int) {
    UseOf(owner, r) == Root
  }

  /** Page `v` of table `r` shows the same entry before and after. */
  ghost predicate SameAt(owner: map<int, Use>, s: Tables, t: Tables, r: int, v: int) {
    IsRoot(owner, r) && 0 <= v < PAGES ==> Lookup(t, r, v) == Lookup(s, r, v)
  }

  ghost predicate SameView(owner: map<int, Use>, s: Tables, t: Tables) {
    forall r, v :: SameAt(owner, s, t, r, v)
  }

  // ---- Pages handed out and taken back ----

  /** A page changes hands between uses that no table refers to. */
  lemma Handed(t: Tables, owner: map<int, Use>, p: int, u: Use)
    requires Owned(t, owner) && (u == Free || u == Held) && (UseOf(owner, p) == Free || UseOf(owner, p) == Held)
    ensures Owned(t, owner[p := u])
  {
    var o := owner[p := u];
    forall q
      ensures TableAt(t, o, q) && NodeBack(t, o, q) && LeafBack(t, o, q)
    {
      assert TableAt(t, owner, q) && NodeBack(t, owner, q) && LeafBack(t, owner, q);
    }
    forall r, i
      ensures NodeAt(t, o, r, i)
    {
      assert NodeAt(t, owner, r, i);
    }
    forall r, v
      ensures LeafAt(t, o, r, v)
    {
      assert LeafAt(t, owner, r, v);
    }
  }

  ghost predicate LeafUse(owner: map<int, Use>, o: map<int, Use>, p: int) {
    && (IsRoot(owner, p) <==> IsRoot(o, p))
    && (UseOf(owner, p).Leaf? || UseOf(o, p).Leaf? ==> UseOf(owner, p) == UseOf(o, p))
  }

  /** Mappings stay owned when the flat maps and the pages behind them do not change. */
  lemma LeavesStay(s: Tables, owner: map<int, Use>, t: Tables, o: map<int, Use>)
    requires Owned(s, owner) && SameView(owner, s, t) && forall p :: LeafUse(owner, o, p)
    ensures forall r, v :: LeafAt(t, o, r, v)
    ensures forall p :: LeafBack(t, o, p)
  {
    hide Lookup;
    forall r, v
      ensures LeafAt(t, o, r, v)
    {
      assert LeafAt(s, owner, r, v) && SameAt(owner, s, t, r, v);
      assert LeafUse(owner, o, r) && LeafUse(owner, o, Lookup(t, r, v).ppn);
    }
    forall p
      ensures LeafBack(t, o, p)
    {
      assert LeafBack(s, owner, p) && LeafUse(owner, o, p);
      if UseOf(o, p).Leaf? {
        assert SameAt(owner, s, t, UseOf(o, p).root, UseOf(o, p).vpn) && LeafUse(owner, o, UseOf(o, p).root);
      }
    }
  }

  // ---- A new node ----

  function Blank(): seq<Pte> {
    seq(PTES, _ => NONE)
  }

  /** walk() puts a cleared page behind an entry of the root. */
  function Hang(t: Tables, r: int, i: int, p: int): Tables {
    var s := t[p := Blank()];
    if r in s && 0 <= i < |s[r]| then s[r := s[r][i := Pte(true, p, NOPERM)]] else s
  }

  lemma HangEntry(t: Tables, r: int, i: int, p: int, q: int, j: int)
    requires r in t && |t[r]| == PTES && 0 <= i < PTES && p != r
    ensures Entry(Hang(t, r, i, p), q, j) ==
            if q == r && j == i then Pte(true, p, NOPERM) else if q == p then NONE else Entry(t, q, j)
  {
  }

  lemma HangLookup(t: Tables, owner: map<int, Use>, r: int, i: int, p: int, q: int, v: int)
    requires Owned(t, owner) && IsRoot(owner, r) && 0 <= i < PAGES / PTES && !Entry(t, r, i).v
    requires UseOf(owner, p) == Held
    ensures SameAt(owner, t, Hang(t, r, i, p), q, v)
  {
    hide Hang, Hi, Lo;
    if IsRoot(owner, q) && 0 <= v < PAGES {
      Split(v, v);
      assert TableAt(t, owner, r) && NodeAt(t, owner, q, Hi(v));
      HangEntry(t, r, i, p, q, Hi(v));
      HangEntry(t, r, i, p, p, Lo(v));
      HangEntry(t, r, i, p, Entry(t, q, Hi(v)).ppn, Lo(v));
    }
  }

  lemma HangOwned(t: Tables, owner: map<int, Use>, r: int, i: int, p: int)
    requires Owned(t, owner) && IsRoot(owner, r) && 0 <= i < PAGES / PTES && !Entry(t, r, i).v
    requires UseOf(owner, p) == Held
    ensures Owned(Hang(t, r, i, p), owner[p := Node(r, i)])
    ensures SameView(owner, t, Hang(t, r, i, p))
  {
    hide Hang, Hi, Lo, Lookup;
    var s, o := Hang(t, r, i, p), owner[p := Node(r, i)];
    assert TableAt(t, owner, r);
    forall q, v
      ensures SameAt(owner, t, s, q, v)
    {
      HangLookup(t, owner, r, i, p, q, v);
    }
    forall q
      ensures TableAt(s, o, q)
    {
      assert TableAt(t, owner, q);
      HangTables(t, r, i, p, q);
    }
    forall q, j
      ensures NodeAt(s, o, q, j)
    {
      assert NodeAt(t, owner, q, j);
      HangEntry(t, r, i, p, q, j);
    }
    forall q
      ensures NodeBack(s, o, q)
    {
      assert NodeBack(t, owner, q);
      if UseOf(o, q).Node? {
        HangEntry(t, r, i, p, UseOf(o, q).root, UseOf(o, q).i);
      }
    }
    forall q
      ensures LeafUse(owner, o, q)
    {
    }
    LeavesStay(t, owner, s, o);
  }

  lemma HangTables(t: Tables, r: int, i: int, p: int, q: int)
    requires r in t && |t[r]| == PTES && 0 <= i < PTES
    ensures q in t && |t[q]| == PTES ==> q in Hang(t, r, i, p) && |Hang(t, r, i, p)[q]| == PTES
    ensures p in Hang(t, r, i, p) && |Hang(t, r, i, p)[p]| == PTES
  {
  }

  // ---- Writing one mapping ----

  /** The entry that walk() points at is overwritten. */
  function Write(t: Tables, r: int, v: int, e: Pte): Tables {
    var n := Entry(t, r, Hi(v)).ppn;
    if n in t && 0 <= Lo(v) < |t[n]| then t[n := t[n][Lo(v) := e]] else t
  }

  lemma WriteEntry(t: Tables, r: int, v: int, e: Pte, q: int, j: int)
    requires var n := Entry(t, r, Hi(v)).ppn; n in t && |t[n]| == PTES && 0 <= Lo(v) < PTES
    ensures Entry(Write(t, r, v, e), q, j) == if q == Entry(t, r, Hi(v)).ppn && j == Lo(v) then e else Entry(t, q, j)
  {
  }

  /** The table has a node for page `v`. */
  ghost predicate Reaches(t: Tables, owner: map<int, Use>, r: int, v: int) {
    IsRoot(owner, r) && 0 <= v < PAGES && Entry(t, r, Hi(v)).v
  }

  lemma ReachesNode(t: Tables, owner: map<int, Use>, r: int, v: int)
    requires Owned(t, owner) && Reaches(t, owner, r, v)
    ensures var n := Entry(t, r, Hi(v)).ppn;
            UseOf(owner, n) == Node(r, Hi(v)) && n in t && |t[n]| == PTES && 0 <= Lo(v) < PTES
  {
    Split(v, v);
    assert NodeAt(t, owner, r, Hi(v)) && TableAt(t, owner, Entry(t, r, Hi(v)).ppn);
  }

  lemma WriteLookup(t: Tables, owner: map<int, Use>, r: int, v: int, e: Pte, q: int, w: int)
    requires Owned(t, owner) && Reaches(t, owner, r, v) && IsRoot(owner, q) && 0 <= w < PAGES
    ensures Lookup(Write(t, r, v, e), q, w) == if q == r && w == v then e else Lookup(t, q, w)
  {
    hide Write, Hi, Lo;
    ReachesNode(t, owner, r, v);
    Split(v, w);
    Split(w, w);
    WriteEntry(t, r, v, e, q, Hi(w));
    WriteEntry(t, r, v, e, Entry(t, q, Hi(w)).ppn, Lo(w));
    assert NodeAt(t, owner, q, Hi(w));
  }

  /** Rewriting a mapping changes neither the tables' own pages nor the nodes behind roots. */
  lemma NodesStay(t: Tables, owner: map<int, Use>, r: int, v: int, e: Pte, o: map<int, Use>)
    requires Owned(t, owner) && Reaches(t, owner, r, v)
    requires forall p :: NodeUse(owner, o, p)
    ensures forall p :: TableAt(Write(t, r, v, e), o, p)
    ensures forall q, i :: NodeAt(Write(t, r, v, e), o, q, i)
    ensures forall p :: NodeBack(Write(t, r, v, e), o, p)
  {
    hide Hi, Lo, Write;
    ReachesNode(t, owner, r, v);
    var s := Write(t, r, v, e);
    forall p
      ensures TableAt(s, o, p)
    {
      assert TableAt(t, owner, p) && NodeUse(owner, o, p);
      WriteTables(t, r, v, e, p);
    }
    forall q, i
      ensures NodeAt(s, o, q, i)
    {
      assert NodeAt(t, owner, q, i) && NodeUse(owner, o, q) && NodeUse(owner, o, Entry(t, q, i).ppn);
      WriteEntry(t, r, v, e, q, i);
    }
    forall p
      ensures NodeBack(s, o, p)
    {
      assert NodeBack(t, owner, p) && NodeUse(owner, o, p);
      if UseOf(o, p).Node? {
        WriteEntry(t, r, v, e, UseOf(o, p).root, UseOf(o, p).i);
        assert NodeUse(owner, o, UseOf(o, p).root);
      }
    }
  }

  ghost predicate NodeUse(owner: map<int, Use>, o: map<int, Use>, p: int) {
    UseOf(owner, p).Root? || UseOf(owner, p).Node? || UseOf(o, p).Root? || UseOf(o, p).Node? ==>
      UseOf(owner, p) == UseOf(o, p)
  }

  lemma WriteTables(t: Tables, r: int, v: int, e: Pte, q: int)
    ensures q in t && |t[q]| == PTES ==> q in Write(t, r, v, e) && |Write(t, r, v, e)[q]| == PTES
  {
  }

  /** The page behind the written mapping is the one whose use changes. */
  ghost function Mapped(owner: map<int, Use>, r: int, v: int, p: int): map<int, Use> {
    if v < TRAPFRAME then owner[p := Leaf(r, v)] else owner
  }

  ghost function Unmapped(owner: map<int, Use>, v: int, e: Pte): map<int, Use> {
    if v < TRAPFRAME && e.v then owner[e.ppn := Held] else owner
  }

  lemma MapOwned(t: Tables, owner: map<int, Use>, r: int, v: int, e: Pte)
    requires Owned(t, owner) && Reaches(t, owner, r, v) && !Lookup(t, r, v).v
    requires e.v && e.perm.r && (e.perm.u ==> v < TRAPFRAME) && (v < TRAPFRAME ==> UseOf(owner, e.ppn) == Held)
    ensures Owned(Write(t, r, v, e), Mapped(owner, r, v, e.ppn))
  {
    hide Lookup, Write, Hi;
    var s, o := Write(t, r, v, e), Mapped(owner, r, v, e.ppn);
    forall p ensures NodeUse(owner, o, p) { }
    NodesStay(t, owner, r, v, e, o);
    forall q, w
      ensures LeafAt(s, o, q, w)
    {
      assert LeafAt(t, owner, q, w);
      if IsRoot(owner, q) && 0 <= w < PAGES {
        WriteLookup(t, owner, r, v, e, q, w);
      }
    }
    forall p
      ensures LeafBack(s, o, p)
    {
      assert LeafBack(t, owner, p);
      if UseOf(o, p).Leaf? {
        WriteLookup(t, owner, r, v, e, UseOf(o, p).root, UseOf(o, p).vpn);
      }
    }
  }

  /** Changing the permissions of a mapping changes no page's use. */
  lemma PermOwned(t: Tables, owner: map<int, Use>, r: int, v: int, e: Pte)
    requires Owned(t, owner) && Reaches(t, owner, r, v) && Lookup(t, r, v).v
    requires e.v && e.ppn == Lookup(t, r, v).ppn && e.perm.r && (e.perm.u ==> v < TRAPFRAME)
    ensures Owned(Write(t, r, v, e), owner)
  {
    hide Lookup, Write, Hi;
    var s := Write(t, r, v, e);
    forall p ensures NodeUse(owner, owner, p) { }
    NodesStay(t, owner, r, v, e, owner);
    forall q, w
      ensures LeafAt(s, owner, q, w)
    {
      assert LeafAt(t, owner, q, w);
      if IsRoot(owner, q) && 0 <= w < PAGES {
        WriteLookup(t, owner, r, v, e, q, w);
      }
    }
    forall p
      ensures LeafBack(s, owner, p)
    {
      assert LeafBack(t, owner, p);
      if UseOf(owner, p).Leaf? {
        WriteLookup(t, owner, r, v, e, UseOf(owner, p).root, UseOf(owner, p).vpn);
      }
    }
  }

  lemma UnmapOwned(t: Tables, owner: map<int, Use>, r: int, v: int)
    requires Owned(t, owner) && Reaches(t, owner, r, v)
    ensures Owned(Write(t, r, v, NONE), Unmapped(owner, v, Lookup(t, r, v)))
  {
    hide Lookup, Write, Hi;
    var s, o := Write(t, r, v, NONE), Unmapped(owner, v, Lookup(t, r, v));
    assert LeafAt(t, owner, r, v);
    forall p ensures NodeUse(owner, o, p) { }
    NodesStay(t, owner, r, v, NONE, o);
    forall q, w
      ensures LeafAt(s, o, q, w)
    {
      assert LeafAt(t, owner, q, w);
      if IsRoot(owner, q) && 0 <= w < PAGES {
        WriteLookup(t, owner, r, v, NONE, q, w);
      }
    }
    forall p
      ensures LeafBack(s, o, p)
    {
      assert LeafBack(t, owner, p);
      if UseOf(o, p).Leaf? {
        WriteLookup(t, owner, r, v, NONE, UseOf(o, p).root, UseOf(o, p).vpn);
      }
    }
  }

  // ---- Giving up a node, making and giving up a root ----

  function Unhang(t: Tables, r: int, i: int): Tables {
    if r in t && 0 <= i < |t[r]| then t[r := t[r][i := NONE]] else t
  }

  ghost predicate Clear(t: Tables, p: int) {
    forall j :: 0 <= j < PTES ==> !Entry(t, p, j).v
  }

  lemma UnhangEntry(t: Tables, r: int, i: int, q: int, j: int)
    requires r in t && |t[r]| == PTES && 0 <= i < PTES
    ensures Entry(Unhang(t, r, i), q, j) == if q == r && j == i then NONE else Entry(t, q, j)
  {
  }

  lemma UnhangTables(t: Tables, r: int, i: int, q: int)
    ensures q in t && |t[q]| == PTES ==> q in Unhang(t, r, i) && |Unhang(t, r, i)[q]| == PTES
  {
  }

  /** A node without mappings can go, and nobody sees the difference. */
  lemma UnhangLookup(t: Tables, owner: map<int, Use>, r: int, i: int, q: int, v: int)
    requires Owned(t, owner) && IsRoot(owner, r) && 0 <= i < PTES && Entry(t, r, i).v && Clear(t, Entry(t, r, i).ppn)
    ensures IsRoot(owner, q) && 0 <= v < PAGES ==>
              Lookup(Unhang(t, r, i), q, v).v == Lookup(t, q, v).v
              && (Lookup(t, q, v).v || q != r ==> Lookup(Unhang(t, r, i), q, v) == Lookup(t, q, v))
  {
    hide Unhang, Hi, Lo;
    if IsRoot(owner, q) && 0 <= v < PAGES {
      Split(v, v);
      assert TableAt(t, owner, r) && NodeAt(t, owner, q, Hi(v)) && NodeAt(t, owner, r, i);
      UnhangEntry(t, r, i, q, Hi(v));
      UnhangEntry(t, r, i, Entry(t, q, Hi(v)).ppn, Lo(v));
    }
  }

  lemma UnhangOwned(t: Tables, owner: map<int, Use>, r: int, i: int)
    requires Owned(t, owner) && IsRoot(owner, r) && 0 <= i < PTES && Entry(t, r, i).v && Clear(t, Entry(t, r, i).ppn)
    ensures UseOf(owner, Entry(t, r, i).ppn) == Node(r, i)
    ensures Owned(Unhang(t, r, i), owner[Entry(t, r, i).ppn := Held])
  {
    hide Unhang, Hi, Lo, Lookup;
    var s, o, n := Unhang(t, r, i), owner[Entry(t, r, i).ppn := Held], Entry(t, r, i).ppn;
    assert TableAt(t, owner, r) && NodeAt(t, owner, r, i);
    forall q
      ensures TableAt(s, o, q) && NodeBack(s, o, q) && LeafBack(s, o, q)
    {
      assert TableAt(t, owner, q) && NodeBack(t, owner, q) && LeafBack(t, owner, q);
      UnhangTables(t, r, i, q);
      if UseOf(o, q).Node? {
        UnhangEntry(t, r, i, UseOf(o, q).root, UseOf(o, q).i);
      } else if UseOf(o, q).Leaf? {
        UnhangLookup(t, owner, r, i, UseOf(o, q).root, UseOf(o, q).vpn);
      }
    }
    forall q, j
      ensures NodeAt(s, o, q, j)
    {
      assert NodeAt(t, owner, q, j);
      UnhangEntry(t, r, i, q, j);
    }
    forall q, v
      ensures LeafAt(s, o, q, v)
    {
      assert LeafAt(t, owner, q, v);
      UnhangLookup(t, owner, r, i, q, v);
    }
  }

  lemma BlankEntry(t: Tables, p: int, q: int, j: int)
    ensures Entry(t[p := Blank()], q, j) == if q == p then NONE else Entry(t, q, j)
  {
  }

  lemma RootLookup(t: Tables, owner: map<int, Use>, p: int, q: int, v: int)
    requires Owned(t, owner) && UseOf(owner, p) == Held && 0 <= v < PAGES
    ensures IsRoot(owner, q) ==> Lookup(t[p := Blank()], q, v) == Lookup(t, q, v)
    ensures Lookup(t[p := Blank()], p, v) == NONE
  {
    hide Hi, Lo;
    Split(v, v);
    assert NodeAt(t, owner, q, Hi(v));
    BlankEntry(t, p, q, Hi(v));
    BlankEntry(t, p, p, Hi(v));
    BlankEntry(t, p, Entry(t, q, Hi(v)).ppn, Lo(v));
  }

  lemma RootOwned(t: Tables, owner: map<int, Use>, p: int)
    requires Owned(t, owner) && UseOf(owner, p) == Held
    ensures Owned(t[p := Blank()], owner[p := Root])
  {
    hide Hi, Lo, Lookup;
    var s, o := t[p := Blank()], owner[p := Root];
    forall q
      ensures TableAt(s, o, q) && NodeBack(s, o, q) && LeafBack(s, o, q)
    {
      assert TableAt(t, owner, q) && NodeBack(t, owner, q) && LeafBack(t, owner, q);
      if UseOf(o, q).Node? {
        BlankEntry(t, p, UseOf(o, q).root, UseOf(o, q).i);
      } else if UseOf(o, q).Leaf? {
        RootLookup(t, owner, p, UseOf(o, q).root, UseOf(o, q).vpn);
      }
    }
    forall q, j
      ensures NodeAt(s, o, q, j)
    {
      assert NodeAt(t, owner, q, j);
      BlankEntry(t, p, q, j);
    }
    forall q, v
      ensures LeafAt(s, o, q, v)
    {
      assert LeafAt(t, owner, q, v);
      if 0 <= v < PAGES {
        RootLookup(t, owner, p, q, v);
      }
    }
  }

  lemma ClearLookup(t: Tables, p: int, v: int)
    requires Clear(t, p)
    ensures 0 <= v < PAGES ==> Lookup(t, p, v) == NONE
  {
    if 0 <= v < PAGES {
      Split(v, v);
    }
  }

  lemma UnrootOwned(t: Tables, owner: map<int, Use>, p: int)
    requires Owned(t, owner) && IsRoot(owner, p) && Clear(t, p)
    ensures Owned(t, owner[p := Held])
  {
    var o := owner[p := Held];
    forall q
      ensures TableAt(t, o, q) && NodeBack(t, o, q) && LeafBack(t, o, q)
    {
      assert TableAt(t, owner, q) && NodeBack(t, owner, q) && LeafBack(t, owner, q);
      if UseOf(owner, q).Leaf? {
        ClearLookup(t, p, UseOf(owner, q).vpn);
      }
    }
    forall q, j
      ensures NodeAt(t, o, q, j)
    {
      assert NodeAt(t, owner, q, j);
    }
    forall q, v
      ensures LeafAt(t, o, q, v)
    {
      assert LeafAt(t, owner, q, v);
    }
  }

  /** A node behind a root that shows no mapping is empty. */
  lemma NodeClear(t: Tables, owner: map<int, Use>, r: int, i: int)
    requires Owned(t, owner) && IsRoot(owner, r) && 0 <= i < PTES && Entry(t, r, i).v
    requires forall v :: 0 <= v < PAGES ==> !Lookup(t, r, v).v
    ensures Clear(t, Entry(t, r, i).ppn)
  {
    assert NodeAt(t, owner, r, i);
    forall j | 0 <= j < PTES
      ensures !Entry(t, Entry(t, r, i).ppn, j).v
    {
      var v := i * PTES + j;
      assert Hi(v) == i && Lo(v) == j;
      assert !Lookup(t, r, v).v;
    }
  }
}
