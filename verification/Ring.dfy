/** Circular lists through pointers: the nodes in list order, and the links that go round them. */
module Ring {
  /** The index after `i` in a ring of `n` nodes. */
  function After(i: int, n: int): int {
    if i + 1 < n then i + 1 else 0
  }

  ghost predicate NoDup(ring: seq<int>) {
    forall i, j :: 0 <= i < j < |ring| ==> ring[i] != ring[j]
  }

  ghost predicate LinkAt(ring: seq<int>, next: map<int, int>, i: int) {
    0 <= i < |ring| ==> ring[i] in next && next[ring[i]] == ring[After(i, |ring|)]
  }

  /** Following the pointers goes round the list. */
  ghost predicate Chained(ring: seq<int>, next: map<int, int>) {
    forall i :: LinkAt(ring, next, i)
  }

  ghost predicate BackAt(ring: seq<int>, prev: map<int, int>, i: int) {
    0 <= i < |ring| ==> ring[After(i, |ring|)] in prev && prev[ring[After(i, |ring|)]] == ring[i]
  }

  /** Following the pointers goes round the list the other way. */
  ghost predicate BackChained(ring: seq<int>, prev: map<int, int>) {
    forall i :: BackAt(ring, prev, i)
  }

  lemma ChainedAt(ring: seq<int>, next: map<int, int>, i: int)
    requires Chained(ring, next) && 0 <= i < |ring|
    ensures ring[i] in next && next[ring[i]] == ring[After(i, |ring|)]
  {
    assert LinkAt(ring, next, i);
  }

  lemma BackChainedAt(ring: seq<int>, prev: map<int, int>, i: int)
    requires BackChained(ring, prev) && 0 <= i < |ring|
    ensures ring[After(i, |ring|)] in prev && prev[ring[After(i, |ring|)]] == ring[i]
  {
    assert BackAt(ring, prev, i);
  }

  ghost function Put(ring: seq<int>, k: int, b: int): seq<int>
    requires 0 <= k < |ring|
  {
    ring[..k + 1] + [b] + ring[k + 1..]
  }

  ghost function Drop(ring: seq<int>, i: int): seq<int>
    requires 0 <= i < |ring|
  {
    ring[..i] + ring[i + 1..]
  }

  lemma PutAt(ring: seq<int>, k: int, b: int)
    requires 0 <= k < |ring|
    ensures |Put(ring, k, b)| == |ring| + 1
    ensures forall i :: 0 <= i <= k ==> Put(ring, k, b)[i] == ring[i]
    ensures Put(ring, k, b)[k + 1] == b
    ensures forall i :: k + 1 < i <= |ring| ==> Put(ring, k, b)[i] == ring[i - 1]
    ensures forall x :: x in Put(ring, k, b) <==> x in ring || x == b
  {
    assert ring == ring[..k + 1] + ring[k + 1..];
  }

  lemma PutNoDup(ring: seq<int>, k: int, b: int)
    requires NoDup(ring) && 0 <= k < |ring| && b !in ring
    ensures NoDup(Put(ring, k, b))
  {
    hide Put;
    PutAt(ring, k, b);
  }

  lemma PutLinkAt(ring: seq<int>, k: int, b: int, next: map<int, int>, i: int)
    requires NoDup(ring) && 0 <= k < |ring| && b !in ring && ring[k] in next
    requires LinkAt(ring, next, if i <= k then i else i - 1)
    requires LinkAt(ring, next, k)
    ensures LinkAt(Put(ring, k, b), next[b := next[ring[k]]][ring[k] := b], i)
  {
    hide Put;
    PutAt(ring, k, b);
  }

  /** Linking `b` in behind the `k`th node. */
  lemma PutChained(ring: seq<int>, k: int, b: int, next: map<int, int>)
    requires NoDup(ring) && 0 <= k < |ring| && b !in ring && Chained(ring, next)
    ensures ring[k] in next
    ensures Chained(Put(ring, k, b), next[b := next[ring[k]]][ring[k] := b])
  {
    hide Put, NoDup;
    assert LinkAt(ring, next, k);
    var after := next[b := next[ring[k]]][ring[k] := b];
    forall i
      ensures LinkAt(Put(ring, k, b), after, i)
    {
      PutLinkAt(ring, k, b, next, i);
    }
  }

  lemma PutBackAt(ring: seq<int>, k: int, b: int, prev: map<int, int>, i: int)
    requires NoDup(ring) && 0 <= k < |ring| && b !in ring
    requires BackAt(ring, prev, if i <= k then i else i - 1)
    ensures BackAt(Put(ring, k, b), prev[b := ring[k]][ring[After(k, |ring|)] := b], i)
  {
    hide Put;
    PutAt(ring, k, b);
  }

  lemma PutBackChained(ring: seq<int>, k: int, b: int, prev: map<int, int>)
    requires NoDup(ring) && 0 <= k < |ring| && b !in ring && BackChained(ring, prev)
    ensures BackChained(Put(ring, k, b), prev[b := ring[k]][ring[After(k, |ring|)] := b])
  {
    hide Put, NoDup;
    var before := prev[b := ring[k]][ring[After(k, |ring|)] := b];
    forall i
      ensures BackAt(Put(ring, k, b), before, i)
    {
      assert BackAt(ring, prev, if i <= k then i else i - 1);
      PutBackAt(ring, k, b, prev, i);
    }
  }

  lemma DropAt(ring: seq<int>, k: int)
    requires 0 <= k < |ring|
    ensures |Drop(ring, k)| == |ring| - 1
    ensures forall i :: 0 <= i < k ==> Drop(ring, k)[i] == ring[i]
    ensures forall i :: k <= i < |ring| - 1 ==> Drop(ring, k)[i] == ring[i + 1]
    ensures NoDup(ring) ==> NoDup(Drop(ring, k)) && forall x :: x in Drop(ring, k) <==> x in ring && x != ring[k]
  {
    assert ring == ring[..k] + [ring[k]] + ring[k + 1..];
  }

  lemma DropLinkAt(ring: seq<int>, k: int, next: map<int, int>, i: int)
    requires NoDup(ring) && 0 <= k < |ring| - 1 && ring[k + 1] in next
    requires LinkAt(ring, next, if i <= k then i else i + 1)
    requires LinkAt(ring, next, k + 1)
    ensures LinkAt(Drop(ring, k + 1), next[ring[k] := next[ring[k + 1]]], i)
  {
    hide Drop;
    DropAt(ring, k + 1);
  }

  /** Linking the node behind the `k`th out. */
  lemma DropChained(ring: seq<int>, k: int, next: map<int, int>)
    requires NoDup(ring) && 0 <= k < |ring| - 1 && Chained(ring, next)
    ensures ring[k + 1] in next
    ensures Chained(Drop(ring, k + 1), next[ring[k] := next[ring[k + 1]]])
  {
    hide Drop, NoDup;
    assert LinkAt(ring, next, k + 1);
    var rest, after := Drop(ring, k + 1), next[ring[k] := next[ring[k + 1]]];
    forall i
      ensures LinkAt(rest, after, i)
    {
      DropLinkAt(ring, k, next, i);
    }
  }

  lemma DropBackAt(ring: seq<int>, k: int, prev: map<int, int>, i: int)
    requires NoDup(ring) && 0 <= k < |ring| - 1
    requires BackAt(ring, prev, if i <= k then i else i + 1)
    ensures BackAt(Drop(ring, k + 1), prev[ring[After(k + 1, |ring|)] := ring[k]], i)
  {
    hide Drop;
    DropAt(ring, k + 1);
  }

  lemma DropBackChained(ring: seq<int>, k: int, prev: map<int, int>)
    requires NoDup(ring) && 0 <= k < |ring| - 1 && BackChained(ring, prev)
    ensures BackChained(Drop(ring, k + 1), prev[ring[After(k + 1, |ring|)] := ring[k]])
  {
    hide Drop, NoDup;
    var rest, before := Drop(ring, k + 1), prev[ring[After(k + 1, |ring|)] := ring[k]];
    forall i
      ensures BackAt(rest, before, i)
    {
      assert BackAt(ring, prev, if i <= k then i else i + 1);
      DropBackAt(ring, k, prev, i);
    }
  }
}
