/** How many physical pages it takes to map pages of a table: the pages themselves and the nodes missing. */
module PageCost {
  import opened Base
  import opened PageTable
  import opened VmState

  /** The second-level tables that table `r` has. */
  ghost function Nodes(t: Tables, r: int): set<int> {
    set i | 0 <= i < PTES && Entry(t, r, i).v
  }

  /** The second-level tables that a set of pages needs. */
  function NodesFor(pages: set<int>): set<int> {
    set v | v in pages :: Hi(v)
  }

  function Cost(nodes: set<int>, pages: set<int>): nat {
    |pages| + |NodesFor(pages) - nodes|
  }

  /** The cost of one page. */
  function CostOne(nodes: set<int>, v: int): nat {
    if Hi(v) in nodes then 1 else 2
  }

  lemma CostNone(nodes: set<int>)
    ensures Cost(nodes, {}) == 0 && NodesFor({}) == {} && nodes + NodesFor({}) == nodes
  {
    assert NodesFor({}) - nodes == {};
  }

  /** Mapping one page more, after the others. */
  lemma CostMore(nodes: set<int>, pages: set<int>, v: int)
    requires v !in pages
    ensures Cost(nodes, pages + {v}) == Cost(nodes, pages) + CostOne(nodes + NodesFor(pages), v)
    ensures nodes + NodesFor(pages + {v}) == nodes + NodesFor(pages) + {Hi(v)}
  {
    hide Hi;
    var more, before := NodesFor(pages + {v}), NodesFor(pages);
    assert more == before + {Hi(v)} by {
      forall i ensures i in more <==> i in before + {Hi(v)} {
        if i == Hi(v) {
          assert v in pages + {v};
        }
        if i in before {
          var u :| u in pages && Hi(u) == i;
          assert u in pages + {v};
        }
      }
    }
    if Hi(v) in nodes + before {
      assert more - nodes == before - nodes;
    } else {
      assert more - nodes == (before - nodes) + {Hi(v)};
    }
  }

  lemma CostGrows(nodes: set<int>, pages: set<int>, more: set<int>)
    requires pages <= more
    ensures Cost(nodes, pages) <= Cost(nodes, more)
  {
    SubsetBound(pages, more);
    SubsetBound(NodesFor(pages) - nodes, NodesFor(more) - nodes);
  }

  /** Mapping pages in two turns costs what mapping them all costs. */
  lemma CostTwice(nodes: set<int>, a: set<int>, b: set<int>)
    requires a !! b
    ensures Cost(nodes, a + b) == Cost(nodes, a) + Cost(nodes + NodesFor(a), b)
    ensures nodes + NodesFor(a + b) == nodes + NodesFor(a) + NodesFor(b)
  {
    hide Hi;
    assert NodesFor(a + b) == NodesFor(a) + NodesFor(b) by {
      forall i ensures i in NodesFor(a + b) <==> i in NodesFor(a) + NodesFor(b) {
        if i in NodesFor(a) {
          var u :| u in a && Hi(u) == i;
          assert u in a + b;
        }
        if i in NodesFor(b) {
          var u :| u in b && Hi(u) == i;
          assert u in a + b;
        }
      }
    }
    var x, y := NodesFor(a) - nodes, NodesFor(b) - (nodes + NodesFor(a));
    assert NodesFor(a + b) - nodes == x + y && x !! y;
  }

  lemma RangeSplit(a: int, b: int, c: int)
    requires a <= b <= c
    ensures Range(a, b) + Range(b, c) == Range(a, c) && Range(a, b) !! Range(b, c)
  {
  }

  /** Mapping `pages` has brought the free pages from `free` to `free'` and the nodes to `nodes'`. */
  ghost predicate Spent(free: nat, nodes: set<int>, free': nat, nodes': set<int>, pages: set<int>) {
    free' == free - Cost(nodes, pages) && nodes' == nodes + NodesFor(pages)
  }

  lemma SpentNone(free: nat, nodes: set<int>)
    ensures Spent(free, nodes, free, nodes, {})
  {
    CostNone(nodes);
  }

  /** The next page: it can be had exactly if there was enough for all of them. */
  lemma SpentMore(free: nat, nodes: set<int>, now: nat, nodes': set<int>, pages: set<int>, v: int)
    requires Spent(free, nodes, now, nodes', pages) && v !in pages
    ensures now < CostOne(nodes', v) <==> free < Cost(nodes, pages + {v})
    ensures now >= CostOne(nodes', v) ==>
              Spent(free, nodes, now - CostOne(nodes', v), nodes' + {Hi(v)}, pages + {v})
  {
    hide Cost, NodesFor, Hi;
    CostMore(nodes, pages, v);
  }

  lemma SpentTwice(free: nat, nodes: set<int>, free1: nat, nodes1: set<int>, free2: nat, nodes2: set<int>,
                   a: set<int>, b: set<int>)
    requires Spent(free, nodes, free1, nodes1, a) && a !! b
    ensures free1 < Cost(nodes1, b) <==> free < Cost(nodes, a + b)
    ensures Spent(free1, nodes1, free2, nodes2, b) ==> Spent(free, nodes, free2, nodes2, a + b)
  {
    hide Cost, NodesFor;
    CostTwice(nodes, a, b);
  }
}
