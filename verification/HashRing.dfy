/**
 The consistent hash ring that spreads users over gateway nodes: a sorted
 slice of virtual-node hashes with binary search, against the specification
 "the first point clockwise from the key".
 */
module HashRing {
  import opened Ordering

  const DEFAULT_REPLICAS: nat := 150

  /** The hash of the `i`-th virtual copy of a node. */
  type VirtualHash = (string, nat) -> nat

  function Points(vh: VirtualHash, replicas: nat, nodes: set<string>): set<nat> {
    set n, i | n in nodes && 0 <= i < replicas :: vh(n, i)
  }

  /** Distinct virtual nodes of these nodes hash differently. */
  ghost predicate NoCollisions(vh: VirtualHash, replicas: nat, nodes: set<string>) {
    forall m, n, i, j :: m in nodes && n in nodes && 0 <= i < replicas && 0 <= j < replicas ==>
      vh(m, i) == vh(n, j) ==> m == n && i == j
  }

  /** Going clockwise from `h`, point `p` is met no later than point `q`. */
  predicate NoLater(h: nat, p: nat, q: nat) {
    if h <= q then h <= p <= q else h <= p || p <= q
  }

  /** `p` is the first point clockwise from `h`. */
  ghost predicate IsSuccessor(points: set<nat>, h: nat, p: nat) {
    p in points && forall q :: q in points ==> NoLater(h, p, q)
  }

  /** Node `n` owns hash `h`: the first point clockwise from `h` is one of its virtual nodes. */
  ghost predicate Owns(vh: VirtualHash, replicas: nat, nodes: set<string>, h: nat, n: string) {
    n in nodes && exists i :: 0 <= i < replicas && IsSuccessor(Points(vh, replicas, nodes), h, vh(n, i))
  }

  // ------------------------------------------------------------------ the specification

  lemma OwnerIsUnique(vh: VirtualHash, replicas: nat, nodes: set<string>, h: nat, m: string, n: string)
    requires NoCollisions(vh, replicas, nodes)
    requires Owns(vh, replicas, nodes, h, m) && Owns(vh, replicas, nodes, h, n)
    ensures m == n
  {
    var i :| 0 <= i < replicas && IsSuccessor(Points(vh, replicas, nodes), h, vh(m, i));
    var j :| 0 <= j < replicas && IsSuccessor(Points(vh, replicas, nodes), h, vh(n, j));
  }

  /** Removing a node moves only the keys it owned. */
  lemma RemovalKeepsOtherOwners(vh: VirtualHash, replicas: nat, nodes: set<string>, h: nat, gone: string, n: string)
    requires Owns(vh, replicas, nodes, h, n) && n != gone
    ensures Owns(vh, replicas, nodes - {gone}, h, n)
  {
    var i :| 0 <= i < replicas && IsSuccessor(Points(vh, replicas, nodes), h, vh(n, i));
    var before, after := Points(vh, replicas, nodes), Points(vh, replicas, nodes - {gone});
    assert after <= before;
    assert vh(n, i) in after;
  }

  /** Adding a node takes keys for itself only: every other key keeps its owner. */
  lemma AdditionTakesOnlyForItself(vh: VirtualHash, replicas: nat, nodes: set<string>, h: nat, added: string, n: string)
    requires added !in nodes
    requires Owns(vh, replicas, nodes + {added}, h, n) && n != added
    ensures Owns(vh, replicas, nodes, h, n)
  {
    RemovalKeepsOtherOwners(vh, replicas, nodes + {added}, h, added, n);
    assert nodes + {added} - {added} == nodes;
  }

  // ------------------------------------------------------------------ the ring

  lemma AppendedIsDistinct(vh: VirtualHash, replicas: nat, before: set<string>, node: string,
                           ring: seq<nat>, longer: seq<nat>)
    requires NoCollisions(vh, replicas, before + {node}) && node !in before
    requires Ascending(ring) && Elements(ring) == Points(vh, replicas, before)
    requires |longer| == |ring| + replicas && ring <= longer
    requires forall k :: 0 <= k < replicas ==> longer[|ring| + k] == vh(node, k)
    ensures forall i, j :: 0 <= i < j < |longer| ==> longer[i] != longer[j]
    ensures Elements(longer) == Points(vh, replicas, before + {node})
            == Points(vh, replicas, before) + (set k | 0 <= k < replicas :: vh(node, k))
  {
    forall i | 0 <= i < |ring| ensures exists n, k :: n in before && 0 <= k < replicas && longer[i] == vh(n, k) {
      assert longer[i] == ring[i] && ring[i] in Elements(ring);
    }
    forall i, j | 0 <= i < j < |longer| ensures longer[i] != longer[j] {
      if j < |ring| {
        assert longer[i] == ring[i] && longer[j] == ring[j];
      } else {
        assert longer[j] == vh(node, j - |ring|);
        if i >= |ring| {
          assert longer[i] == vh(node, i - |ring|);
        }
      }
    }
    forall x | x in Points(vh, replicas, before + {node}) ensures x in longer {
      var n, k :| n in before + {node} && 0 <= k < replicas && x == vh(n, k);
      if n == node {
        assert longer[|ring| + k] == x;
      } else {
        assert x in Elements(ring);
        var i :| 0 <= i < |ring| && ring[i] == x;
        assert longer[i] == x;
      }
    }
    forall x | x in longer ensures x in Points(vh, replicas, before + {node}) {
      var i :| 0 <= i < |longer| && longer[i] == x;
      if i >= |ring| {
        assert longer[|ring| + (i - |ring|)] == vh(node, i - |ring|);
      }
    }
  }

  lemma FirstAtOrAfter(ring: seq<nat>, h: nat, lo: nat)
    requires Ascending(ring) && lo <= |ring| && ring != []
    requires forall k :: 0 <= k < lo ==> ring[k] < h
    requires forall k :: lo <= k < |ring| ==> h <= ring[k]
    ensures IsSuccessor(Elements(ring), h, ring[if lo == |ring| then 0 else lo])
  {
    var idx := if lo == |ring| then 0 else lo;
    assert ring[idx] in Elements(ring);
    forall q | q in Elements(ring) ensures NoLater(h, ring[idx], q) {
      var k :| 0 <= k < |ring| && ring[k] == q;
    }
  }

  /** Filtering out the points mapped to a node leaves the points of the other nodes. */
  lemma RemainingPoints(vh: VirtualHash, replicas: nat, nodes: set<string>, gone: string,
                        origin: map<nat, string>, ring: seq<nat>, newRing: seq<nat>)
    requires NoCollisions(vh, replicas, nodes)
    requires Elements(ring) == Points(vh, replicas, nodes) == origin.Keys
    requires forall n, i :: n in nodes && 0 <= i < replicas && vh(n, i) in origin ==> origin[vh(n, i)] == n
    requires forall x :: x in newRing <==> x in ring && origin[x] != gone
    ensures Elements(newRing) == Points(vh, replicas, nodes - {gone})
            == (set x | x in origin && origin[x] != gone)
  {
    forall x | x in Points(vh, replicas, nodes) ensures x in Points(vh, replicas, nodes - {gone}) <==> origin[x] != gone {
      var n, i :| n in nodes && 0 <= i < replicas && x == vh(n, i);
      assert origin[vh(n, i)] == n;
    }
    forall x | x in Points(vh, replicas, nodes - {gone}) ensures x in Points(vh, replicas, nodes) {
    }
    assert forall x :: x in ring <==> x in Elements(ring);
  }

  /** The first `count` virtual nodes of a node. */
  function NodePoints(vh: VirtualHash, count: nat, node: string): set<nat> {
    set k | 0 <= k < count :: vh(node, k)
  }

  lemma NextPoint(vh: VirtualHash, count: nat, node: string)
    ensures NodePoints(vh, count + 1, node) == NodePoints(vh, count, node) + {vh(node, count)}
  {
  }

  class ConsistentHash {
    const vh: VirtualHash
    const replicas: nat
    var ring: seq<nat>
    var nodes: map<nat, string>
    var nodeSet: set<string>

    /** The slice holds exactly the points of the node set, sorted, each mapped to its node. */
    ghost predicate Valid()
      reads this
    {
      && replicas > 0
      && Ascending(ring) && Elements(ring) == Points(vh, replicas, nodeSet) == nodes.Keys
      && (forall n, i :: n in nodeSet && 0 <= i < replicas && vh(n, i) in nodes ==> nodes[vh(n, i)] == n)
    }

    constructor (vh: VirtualHash, replicas: int)
      ensures Valid() && nodeSet == {} && this.vh == vh
      ensures this.replicas == (if replicas <= 0 then 150 else replicas)
    {
      this.vh := vh;
      this.replicas := if replicas <= 0 then DEFAULT_REPLICAS else replicas;
      ring, nodes, nodeSet := [], map[], {};
    }

    /** The loop of Add: appends the node's points and enters them in the map. */
    static method With(vh: VirtualHash, replicas: nat, ghost others: set<string>, ring: seq<nat>,
                       nodes: map<nat, string>, node: string)
      returns (longer: seq<nat>, newNodes: map<nat, string>)
      requires node !in others && NoCollisions(vh, replicas, others + {node})
      requires forall n, k :: n in others && 0 <= k < replicas && vh(n, k) in nodes ==> nodes[vh(n, k)] == n
      ensures ring <= longer && |longer| == |ring| + replicas
      ensures forall k :: 0 <= k < replicas ==> longer[|ring| + k] == vh(node, k)
      ensures newNodes.Keys == nodes.Keys + NodePoints(vh, replicas, node)
      ensures forall n, k :: n in others + {node} && 0 <= k < replicas && vh(n, k) in newNodes ==>
                newNodes[vh(n, k)] == n
    {
      longer, newNodes := ring, nodes;
      for i := 0 to replicas
        invariant |longer| == |ring| + i && ring <= longer
        invariant forall k :: 0 <= k < i ==> longer[|ring| + k] == vh(node, k)
        invariant newNodes.Keys == nodes.Keys + NodePoints(vh, i, node)
        invariant forall n, k :: n in others && 0 <= k < replicas && vh(n, k) in newNodes ==> newNodes[vh(n, k)] == n
        invariant forall k :: 0 <= k < i ==> newNodes[vh(node, k)] == node
      {
        var h := vh(node, i);
        NextPoint(vh, i, node);
        longer := longer + [h];
        newNodes := newNodes[h := node];
      }
    }

    method Add(node: string)
      requires Valid() && NoCollisions(vh, replicas, nodeSet + {node})
      modifies this
      ensures Valid() && nodeSet == old(nodeSet) + {node}
    {
      if node in nodeSet {
        assert nodeSet + {node} == nodeSet;
        return;
      }
      var longer, newNodes := With(vh, replicas, nodeSet, ring, nodes, node);
      AppendedIsDistinct(vh, replicas, nodeSet, node, ring, longer);
      var sorted := SortBy(longer, (x: nat) => x);
      SortedDistinct(longer, sorted);
      nodeSet := nodeSet + {node};
      ring, nodes := sorted, newNodes;
    }

    static ghost predicate Keeps(kept: seq<nat>, points: seq<nat>, nodes: map<nat, string>, node: string) {
      forall x :: x in kept <==> x in points && x in nodes && nodes[x] != node
    }

    /** The points of the node among these. */
    static ghost function Dropped(points: seq<nat>, nodes: map<nat, string>, node: string): set<nat> {
      set x | x in points && x in nodes && nodes[x] == node
    }

    /** One point further, the scan keeps it behind all kept so far or drops it. */
    static lemma ScanStep(ring: seq<nat>, k: nat, kept: seq<nat>, nodes: map<nat, string>, node: string)
      requires Ascending(ring) && Elements(ring) == nodes.Keys && k < |ring|
      requires Ascending(kept) && Keeps(kept, ring[..k], nodes, node)
      ensures ring[k] in nodes && ring[k] !in Dropped(ring[..k], nodes, node)
      ensures
        var h, dropped := ring[k], Dropped(ring[..k], nodes, node);
        if nodes[h] != node then
          Ascending(kept + [h]) && Keeps(kept + [h], ring[..k + 1], nodes, node)
          && Dropped(ring[..k + 1], nodes, node) == dropped
        else
          Keeps(kept, ring[..k + 1], nodes, node) && Dropped(ring[..k + 1], nodes, node) == dropped + {h}
    {
      var h := ring[k];
      assert ring[..k + 1] == ring[..k] + [h];
      assert h in Elements(ring);
      assert forall i :: 0 <= i < k ==> ring[i] < h;
      forall i | 0 <= i < |kept| ensures kept[i] < h {
        assert kept[i] in kept;
        assert kept[i] in ring[..k];
      }
    }

    /** The scan of Remove: keeps the points of other nodes in order and forgets the node's own. */
    static method Without(ring: seq<nat>, nodes: map<nat, string>, node: string)
      returns (newRing: seq<nat>, newNodes: map<nat, string>)
      requires Ascending(ring) && Elements(ring) == nodes.Keys
      ensures Ascending(newRing) && forall x :: x in newRing <==> x in ring && nodes[x] != node
      ensures newNodes.Keys == (set x | x in nodes && nodes[x] != node)
      ensures forall x :: x in newNodes ==> newNodes[x] == nodes[x]
    {
      newRing, newNodes := [], nodes;
      for k := 0 to |ring|
        invariant Ascending(newRing) && Keeps(newRing, ring[..k], nodes, node)
        invariant newNodes == nodes - Dropped(ring[..k], nodes, node)
      {
        ScanStep(ring, k, newRing, nodes, node);
        var h := ring[k];
        if newNodes[h] != node {
          newRing := newRing + [h];
        } else {
          newNodes := newNodes - {h};
        }
      }
      assert ring[..|ring|] == ring;
      assert forall x :: x in ring <==> x in Elements(ring);
    }

    method Remove(node: string)
      requires Valid() && NoCollisions(vh, replicas, nodeSet)
      modifies this
      ensures Valid() && nodeSet == old(nodeSet) - {node}
    {
      if node !in nodeSet {
        assert nodeSet - {node} == nodeSet;
        return;
      }
      nodeSet := nodeSet - {node};
      var newRing, newNodes := Without(ring, nodes, node);
      RemainingPoints(vh, replicas, old(nodeSet), node, nodes, ring, newRing);
      ring, nodes := newRing, newNodes;
    }

    /** The owner of the key's hash; the empty string on an empty ring. */
    method Get(h: nat) returns (node: string)
      requires Valid()
      ensures nodeSet == {} ==> node == ""
      ensures nodeSet != {} ==> Owns(vh, replicas, nodeSet, h, node)
    {
      assert forall n :: n in nodeSet ==> vh(n, 0) in Elements(ring);
      if |ring| == 0 {
        return "";
      }
      var lo, hi := 0, |ring|;
      while lo < hi
        invariant 0 <= lo <= hi <= |ring|
        invariant forall k :: 0 <= k < lo ==> ring[k] < h
        invariant forall k :: hi <= k < |ring| ==> h <= ring[k]
      {
        var mid := (lo + hi) / 2;
        if ring[mid] >= h {
          hi := mid;
        } else {
          lo := mid + 1;
        }
      }
      var idx := if lo == |ring| then 0 else lo;
      FirstAtOrAfter(ring, h, lo);
      assert ring[idx] in Elements(ring);
      var n, i :| n in nodeSet && 0 <= i < replicas && vh(n, i) == ring[idx];
      node := nodes[ring[idx]];
    }
  }

  lemma SliceIsDetermined(vh: VirtualHash, replicas: nat, nodeSet: set<string>,
                          r: seq<nat>, m: map<nat, string>, r': seq<nat>, m': map<nat, string>)
    requires Ascending(r) && Elements(r) == Points(vh, replicas, nodeSet) == m.Keys
    requires Ascending(r') && Elements(r') == Points(vh, replicas, nodeSet) == m'.Keys
    requires forall n, i :: n in nodeSet && 0 <= i < replicas && vh(n, i) in m ==> m[vh(n, i)] == n
    requires forall n, i :: n in nodeSet && 0 <= i < replicas && vh(n, i) in m' ==> m'[vh(n, i)] == n
    ensures r == r' && m == m'
  {
    AscendingIsUnique(r, r');
    forall x | x in m ensures m[x] == m'[x] {
      var n, i :| n in nodeSet && 0 <= i < replicas && x == vh(n, i);
      assert m[vh(n, i)] == n && m'[vh(n, i)] == n;
    }
  }

  /** Slice and map are determined by the set of nodes, however it was built up. */
  lemma RingIsDetermined(c: ConsistentHash, d: ConsistentHash)
    requires c.Valid() && d.Valid() && c.nodeSet == d.nodeSet && c.vh == d.vh && c.replicas == d.replicas
    ensures c.ring == d.ring && c.nodes == d.nodes
  {
    SliceIsDetermined(c.vh, c.replicas, c.nodeSet, c.ring, c.nodes, d.ring, d.nodes);
  }

  /** Adding a node and removing it again restores slice and map exactly. */
  method AddThenRemove(c: ConsistentHash, node: string)
    requires c.Valid() && node !in c.nodeSet && NoCollisions(c.vh, c.replicas, c.nodeSet + {node})
    modifies c
    ensures c.Valid() && c.nodeSet == old(c.nodeSet) && c.ring == old(c.ring) && c.nodes == old(c.nodes)
  {
    c.Add(node);
    c.Remove(node);
    assert c.nodeSet == old(c.nodeSet);
    SliceIsDetermined(c.vh, c.replicas, c.nodeSet, c.ring, c.nodes, old(c.ring), old(c.nodes));
  }

  function NodeIds(ids: seq<string>): set<string> {
    set n | n in ids
  }

  lemma {:induction false} SuccessorExists(points: set<nat>, h: nat) returns (p: nat)
    requires points != {}
    ensures IsSuccessor(points, h, p)
  {
    var x :| x in points;
    var rest := points - {x};
    assert forall y :: y in points <==> y in rest || y == x;
    if rest == {} {
      p := x;
    } else {
      var q := SuccessorExists(rest, h);
      p := if NoLater(h, q, x) then q else x;
    }
  }

  lemma OnlyNodeOwns(vh: VirtualHash, replicas: nat, n: string, h: nat)
    requires replicas > 0
    ensures Owns(vh, replicas, {n}, h, n)
  {
    var points := Points(vh, replicas, {n});
    assert vh(n, 0) in points;
    var p := SuccessorExists(points, h);
    var i :| 0 <= i < replicas && vh(n, i) == p;
  }

  /**
   SelectByConsistentHash over a temporary ring; positions stand for the node
   records. With distinct ids the choice is the owner of the key's hash among
   the set of ids, so the order of the list does not matter.
   */
  method SelectByConsistentHash(vh: VirtualHash, ids: seq<string>, h: nat) returns (chosen: int)
    requires NoCollisions(vh, DEFAULT_REPLICAS, NodeIds(ids))
    ensures ids == [] ==> chosen == -1
    ensures ids != [] ==> 0 <= chosen < |ids|
    ensures ids != [] ==> Owns(vh, 150, NodeIds(ids), h, ids[chosen])
  {
    if |ids| == 0 {
      return -1;
    }
    if |ids| == 1 {
      OnlyNodeOwns(vh, DEFAULT_REPLICAS, ids[0], h);
      assert NodeIds(ids) == {ids[0]};
      return 0;
    }
    var c := new ConsistentHash(vh, DEFAULT_REPLICAS);
    for i := 0 to |ids|
      invariant c.Valid() && c.vh == vh && c.replicas == DEFAULT_REPLICAS && fresh(c)
      invariant c.nodeSet == NodeIds(ids[..i])
    {
      assert NodeIds(ids[..i + 1]) == NodeIds(ids[..i]) + {ids[i]};
      c.Add(ids[i]);
    }
    assert ids[..|ids|] == ids;
    assert ids[0] in c.nodeSet;
    var selected := c.Get(h);
    for i := 0 to |ids|
      invariant selected !in ids[..i]
    {
      if ids[i] == selected {
        return i;
      }
      assert ids[..i + 1] == ids[..i] + [ids[i]];
    }
    assert false;
    chosen := 0;
  }
}
