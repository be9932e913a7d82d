/** Kahn's topological sort as the history checker runs it: fabric/src/admission/tests.rs, `fifo_witness_exists`. */
module Kahn {
  import opened Common

  /** Successor lists; a node may be listed more than once. */
  type Graph = seq<seq<nat>>

  predicate Closed(edges: Graph) {
    forall a, x :: 0 <= a < |edges| && x in edges[a] ==> x < |edges|
  }

  /** How many edges lead to j from nodes below k that are not done. */
  ghost function Remaining(edges: Graph, done: set<nat>, j: nat, k: nat): nat
    requires k <= |edges|
  {
    if k == 0 then 0
    else Remaining(edges, done, j, k - 1) + if k - 1 in done then 0 else multiset(edges[k - 1])[j]
  }

  ghost function InDegree(edges: Graph, done: set<nat>, j: nat): nat {
    Remaining(edges, done, j, |edges|)
  }

  /** All nodes in an order that puts every node behind its predecessors. */
  ghost predicate Topological(edges: Graph, order: seq<nat>) {
    && |order| == |edges|
    && (forall k :: 0 <= k < |order| ==> order[k] < |edges|)
    && (forall j, k :: 0 <= j < k < |order| ==> order[j] != order[k])
    && Behind(edges, order)
  }

  ghost predicate Behind(edges: Graph, order: seq<nat>) {
    forall a, k :: 0 <= a < |edges| && 0 <= k < |order| && order[k] in edges[a] ==> a in order[..k]
  }

  lemma {:induction false} DoneStep(edges: Graph, done: set<nat>, i: nat, j: nat, k: nat)
    requires k <= |edges| && i !in done
    ensures Remaining(edges, done, j, k) == Remaining(edges, done + {i}, j, k) + if i < k then multiset(edges[i])[j] else 0
  {
    if k > 0 {
      DoneStep(edges, done, i, j, k - 1);
    }
  }

  lemma {:induction false} NoneRemaining(edges: Graph, done: set<nat>, j: nat, k: nat)
    requires k <= |edges|
    ensures Remaining(edges, done, j, k) == 0 <==> forall a :: 0 <= a < k && a !in done ==> j !in edges[a]
  {
    if k > 0 {
      NoneRemaining(edges, done, j, k - 1);
    }
  }

  lemma {:induction false} EdgeAdded(edges: Graph, a: nat, b: nat, j: nat, k: nat)
    requires a < |edges| && k <= |edges|
    ensures Remaining(edges[a := edges[a] + [b]], {}, j, k) == Remaining(edges, {}, j, k) + if a < k && j == b then 1 else 0
  {
    if k > 0 {
      EdgeAdded(edges, a, b, j, k - 1);
    }
  }

  lemma {:induction false} NoEdges(edges: Graph, j: nat, k: nat)
    requires k <= |edges| && forall a :: 0 <= a < |edges| ==> edges[a] == []
    ensures Remaining(edges, {}, j, k) == 0
  {
    if k > 0 {
      NoEdges(edges, j, k - 1);
    }
  }

  /** If every node that is not done waits for another such node, no order can ever reach one. */
  lemma {:induction false} Stuck(edges: Graph, done: set<nat>, order: seq<nat>, k: nat)
    requires Topological(edges, order) && k <= |order|
    requires forall j :: 0 <= j < |edges| && j !in done ==> InDegree(edges, done, j) > 0
    ensures forall i :: 0 <= i < k ==> order[i] in done
  {
    if k > 0 {
      Stuck(edges, done, order, k - 1);
      var j := order[k - 1];
      forall a | 0 <= a < |edges| && j in edges[a]
        ensures a in done
      {
        assert a in order[..k - 1];
      }
      NoneRemaining(edges, done, j, |edges|);
    }
  }

  /** Nodes all different and below m are at most m; if they are m they are all. */
  lemma {:induction false} DistinctBelow(order: seq<nat>, m: nat)
    requires forall k :: 0 <= k < |order| ==> order[k] < m
    requires forall j, k :: 0 <= j < k < |order| ==> order[j] != order[k]
    ensures |order| <= m
    ensures |order| == m ==> forall x :: 0 <= x < m ==> x in order
  {
    var members := set k | 0 <= k < |order| :: order[k];
    SetOfDistinct(order);
    SubsetSize(members, Below(m));
    if |order| == m {
      forall x | 0 <= x < m
        ensures x in order
      {
        assert x in Below(m);
      }
    }
  }

  lemma {:induction false} SetOfDistinct(order: seq<nat>)
    requires forall j, k :: 0 <= j < k < |order| ==> order[j] != order[k]
    ensures |set k | 0 <= k < |order| :: order[k]| == |order|
  {
    if order != [] {
      var init, last := order[..|order| - 1], order[|order| - 1];
      SetOfDistinct(init);
      var s := set k | 0 <= k < |init| :: init[k];
      assert (set k | 0 <= k < |order| :: order[k]) == s + {last} by {
        forall x | x in s + {last}
          ensures x in set k | 0 <= k < |order| :: order[k]
        {
          if x == last {
            assert order[|order| - 1] == x;
          } else {
            var k :| 0 <= k < |init| && init[k] == x;
            assert order[k] == x;
          }
        }
      }
      assert last !in s;
    }
  }

  /** The state of the loop between two visits, or while the successors of the last visited node are being released. */
  ghost predicate Progress(edges: Graph, indegree: seq<nat>, order: seq<nat>, ready: seq<nat>, pending: seq<nat>) {
    && |indegree| == |edges|
    && (forall k :: 0 <= k < |order| ==> order[k] < |edges|)
    && (forall k :: 0 <= k < |ready| ==> ready[k] < |edges|)
    && (forall j, k :: 0 <= j < k < |order + ready| ==> (order + ready)[j] != (order + ready)[k])
    && Behind(edges, order)
    && (forall j :: 0 <= j < |edges| ==>
          && indegree[j] == InDegree(edges, Visited(order), j) + multiset(pending)[j]
          && (indegree[j] == 0 <==> j in order + ready))
  }

  ghost function Visited(order: seq<nat>): set<nat> {
    set k | 0 <= k < |order| :: order[k]
  }

  lemma VisitedSnoc(order: seq<nat>, i: nat)
    ensures Visited(order + [i]) == Visited(order) + {i}
  {
    forall x | x in Visited(order) + {i}
      ensures x in Visited(order + [i])
    {
      if x in Visited(order) {
        var k :| 0 <= k < |order| && order[k] == x;
        assert (order + [i])[k] == x;
      } else {
        assert (order + [i])[|order|] == i;
      }
    }
  }

  /** Popping the front of the queue: its edges become pending. */
  lemma Popped(edges: Graph, indegree: seq<nat>, order: seq<nat>, ready: seq<nat>)
    requires Progress(edges, indegree, order, ready, []) && ready != []
    ensures Progress(edges, indegree, order + [ready[0]], ready[1..], edges[ready[0]])
  {
    var i := ready[0];
    assert order + [i] + ready[1..] == order + ready;
    assert (order + ready)[|order|] == i;
    forall k | 0 <= k < |order|
      ensures order[k] != i
    {
      assert (order + ready)[k] == order[k];
    }
    VisitedSnoc(order, i);
    forall j | 0 <= j < |edges|
      ensures indegree[j] == InDegree(edges, Visited(order + [i]), j) + multiset(edges[i])[j]
    {
      DoneStep(edges, Visited(order), i, j, |edges|);
    }
    assert i in order + ready && InDegree(edges, Visited(order), i) == 0;
    NoneRemaining(edges, Visited(order), i, |edges|);
    forall a, k | 0 <= a < |edges| && 0 <= k < |order + [i]| && (order + [i])[k] in edges[a]
      ensures a in (order + [i])[..k]
    {
      if k < |order| {
        assert (order + [i])[..k] == order[..k] && order[k] in edges[a];
      } else {
        assert (order + [i])[..k] == order;
        assert a in Visited(order);
      }
    }
  }

  /** Releasing one pending edge. */
  lemma Released(edges: Graph, indegree: seq<nat>, order: seq<nat>, ready: seq<nat>, pending: seq<nat>)
    requires Progress(edges, indegree, order, ready, pending) && pending != [] && pending[0] < |edges|
    ensures indegree[pending[0]] > 0
    ensures var j := pending[0];
      var indegree' := indegree[j := indegree[j] - 1];
      Progress(edges, indegree', order, if indegree'[j] == 0 then ready + [j] else ready, pending[1..])
  {
    hide Behind, Remaining;
    var j := pending[0];
    assert pending == [j] + pending[1..];
    assert multiset(pending) == multiset{j} + multiset(pending[1..]);
    if indegree[j] == 1 {
      assert order + (ready + [j]) == order + ready + [j];
      assert j !in order + ready;
    }
  }

  lemma Finished(edges: Graph, indegree: seq<nat>, order: seq<nat>)
    requires Progress(edges, indegree, order, [], [])
    ensures |order| <= |edges|
    ensures |order| == |edges| ==> Topological(edges, order)
    ensures |order| < |edges| ==> forall other :: !Topological(edges, other)
  {
    assert order + [] == order;
    DistinctBelow(order, |edges|);
    if |order| < |edges| {
      forall other
        ensures !Topological(edges, other)
      {
        if Topological(edges, other) {
          forall j | 0 <= j < |edges| && j !in Visited(order)
            ensures InDegree(edges, Visited(order), j) > 0
          {
            assert j !in order;
          }
          Stuck(edges, Visited(order), other, |other|);
          SetOfDistinct(other);
          SetOfDistinct(order);
          SubsetSize(Visited(other), Visited(order));
        }
      }
    }
  }

  /** Drain the queue of nodes without unvisited predecessors; the graph has a topological order exactly if all get visited. */
  method Sort(edges: Graph, indegree: array<nat>) returns (all: bool, ghost order: seq<nat>)
    requires Closed(edges) && indegree.Length == |edges|
    requires forall j :: 0 <= j < |edges| ==> indegree[j] == InDegree(edges, {}, j)
    modifies indegree
    ensures all ==> Topological(edges, order)
    ensures !all ==> forall other :: !Topological(edges, other)
  {
    hide InDegree, Behind;
    var ready: seq<nat> := [];
    for i := 0 to |edges|
      invariant forall k :: 0 <= k < |ready| ==> ready[k] < i && indegree[ready[k]] == 0
      invariant forall j, k :: 0 <= j < k < |ready| ==> ready[j] < ready[k]
      invariant forall j :: 0 <= j < i && indegree[j] == 0 ==> j in ready
    {
      if indegree[i] == 0 {
        ready := ready + [i];
      }
    }
    order := [];
    var visited := 0;
    Started(edges, indegree[..], ready);
    while ready != []
      invariant visited == |order| <= |edges| && Progress(edges, indegree[..], order, ready, [])
      decreases |edges| - visited
    {
      var i := ready[0];
      Popped(edges, indegree[..], order, ready);
      InBounds(edges, indegree[..], order + [i], ready[1..], edges[i]);
      order := order + [i];
      ready := ready[1..];
      visited := visited + 1;
      assert edges[i][0..] == edges[i];
      for t := 0 to |edges[i]|
        invariant visited == |order| <= |edges| && Progress(edges, indegree[..], order, ready, edges[i][t..])
      {
        var j := edges[i][t];
        ghost var before := indegree[..];
        assert j in edges[i];
        Released(edges, before, order, ready, edges[i][t..]);
        assert edges[i][t..][1..] == edges[i][t + 1..];
        indegree[j] := indegree[j] - 1;
        assert indegree[..] == before[j := before[j] - 1];
        if indegree[j] == 0 {
          ready := ready + [j];
        }
      }
      assert edges[i][|edges[i]|..] == [];
    }
    Finished(edges, indegree[..], order);
    all := visited == |edges|;
  }

  lemma InBounds(edges: Graph, indegree: seq<nat>, order: seq<nat>, ready: seq<nat>, pending: seq<nat>)
    requires Progress(edges, indegree, order, ready, pending)
    ensures |order| <= |edges|
  {
    forall j, k | 0 <= j < k < |order|
      ensures order[j] != order[k]
    {
      assert (order + ready)[j] == order[j] && (order + ready)[k] == order[k];
    }
    DistinctBelow(order, |edges|);
  }

  lemma Started(edges: Graph, indegree: seq<nat>, ready: seq<nat>)
    requires |indegree| == |edges| && forall j :: 0 <= j < |edges| ==> indegree[j] == InDegree(edges, {}, j)
    requires forall k :: 0 <= k < |ready| ==> ready[k] < |edges| && indegree[ready[k]] == 0
    requires forall j, k :: 0 <= j < k < |ready| ==> ready[j] < ready[k]
    requires forall j :: 0 <= j < |edges| && indegree[j] == 0 ==> j in ready
    ensures Progress(edges, indegree, [], ready, [])
  {
    assert [] + ready == ready && Visited([]) == {};
  }
}
