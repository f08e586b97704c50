/** Kahn's algorithm as the placer and the slot assigner use it (Partitioner/partitioner/src/placer.rs). */
module Topo {
  import opened Prelude
  import opened Sequences
  import opened Graphs
  import opened SymbolicDag

  /** Index of the last node with this id, as collecting into a map leaves it. */
  function IndexOf(nodes: seq<Node>, id: Id): (r: Option<nat>)
    ensures r.Some? ==> r.value < |nodes| && nodes[r.value].id == id
    ensures r.None? ==> forall i :: 0 <= i < |nodes| ==> nodes[i].id != id
  {
    if nodes == [] then None
    else if nodes[|nodes| - 1].id == id then Some(|nodes| - 1)
    else IndexOf(nodes[..|nodes| - 1], id)
  }

  /** j is a dep of i, by index. */
  predicate DependsOn(nodes: seq<Node>, i: nat, j: nat) {
    i < |nodes| && Resolves(nodes, nodes[i].deps, j)
  }

  /** One of these ids names node j. */
  predicate Resolves(nodes: seq<Node>, ids: seq<Id>, j: nat) {
    exists d :: d in ids && IndexOf(nodes, d) == Some(j)
  }

  lemma {:induction false} ResolvesStep(nodes: seq<Node>, ids: seq<Id>, k: nat, j: nat)
    requires k < |ids|
    ensures Resolves(nodes, ids[..k + 1], j) <==> Resolves(nodes, ids[..k], j) || IndexOf(nodes, ids[k]) == Some(j)
  {
    assert ids[..k + 1] == ids[..k] + [ids[k]];
  }

  /** Occurrences of i in the successor lists of vertices outside `done`. */
  ghost function Pending(succ: seq<seq<nat>>, done: set<nat>, i: nat): nat {
    if succ == [] then 0
    else
      var d := |succ| - 1;
      Pending(succ[..d], done, i) + (if d in done then 0 else multiset(succ[d])[i])
  }

  lemma {:induction false} PendingPush(succ: seq<seq<nat>>, done: set<nat>, d: nat, x: nat, i: nat)
    requires d < |succ| && d !in done
    ensures Pending(succ[d := succ[d] + [x]], done, i) == Pending(succ, done, i) + (if x == i then 1 else 0)
  {
    var n := |succ| - 1;
    if d == n {
      assert succ[d := succ[d] + [x]][..n] == succ[..n];
    } else {
      assert succ[d := succ[d] + [x]][..n] == succ[..n][d := succ[d] + [x]];
      PendingPush(succ[..n], done, d, x, i);
    }
  }

  lemma {:induction false} PendingFrame(succ: seq<seq<nat>>, done: set<nat>, d: nat, i: nat)
    requires d >= |succ|
    ensures Pending(succ, done + {d}, i) == Pending(succ, done, i)
  {
    if succ != [] { PendingFrame(succ[..|succ| - 1], done, d, i); }
  }

  lemma {:induction false} PendingFinish(succ: seq<seq<nat>>, done: set<nat>, d: nat, i: nat)
    requires d < |succ| && d !in done
    ensures Pending(succ, done, i) == Pending(succ, done + {d}, i) + multiset(succ[d])[i]
  {
    var n := |succ| - 1;
    if d == n {
      PendingFrame(succ[..n], done, d, i);
    } else {
      PendingFinish(succ[..n], done, d, i);
    }
  }

  lemma {:induction false} PendingWitness(succ: seq<seq<nat>>, done: set<nat>, i: nat)
    ensures Pending(succ, done, i) > 0 <==> exists d: nat :: d < |succ| && d !in done && i in succ[d]
  {
    if succ != [] {
      var n := |succ| - 1;
      PendingWitness(succ[..n], done, i);
      assert i in succ[n] <==> multiset(succ[n])[i] > 0;
      forall d | 0 <= d < n ensures succ[..n][d] == succ[d] {}
    }
  }

  lemma {:induction false} PendingEmpty(succ: seq<seq<nat>>, i: nat)
    requires forall d :: 0 <= d < |succ| ==> succ[d] == []
    ensures Pending(succ, {}, i) == 0
  {
    if succ != [] { PendingEmpty(succ[..|succ| - 1], i); }
  }

  /** The successor lists say exactly who depends on whom. */
  ghost predicate SuccessorsOf(nodes: seq<Node>, succ: seq<seq<nat>>) {
    |succ| == |nodes| && forall i: nat, d: nat :: d < |succ| ==> (i in succ[d] <==> DependsOn(nodes, i, d))
  }

  ghost predicate DegreesOf(succ: seq<seq<nat>>, done: set<nat>, degree: seq<nat>) {
    |degree| == |succ| && forall i :: 0 <= i < |degree| ==> degree[i] == Pending(succ, done, i)
  }

  method BuildSuccessors(nodes: seq<Node>) returns (succ: seq<seq<nat>>, degree: seq<nat>)
    ensures SuccessorsOf(nodes, succ) && DegreesOf(succ, {}, degree)
  {
    succ, degree := seq(|nodes|, _ => []), seq(|nodes|, _ => 0);
    forall i | 0 <= i < |nodes| ensures Pending(succ, {}, i) == 0 { PendingEmpty(succ, i); }
    for i := 0 to |nodes|
      invariant |succ| == |nodes| && DegreesOf(succ, {}, degree)
      invariant forall x: nat, d: nat :: d < |succ| ==> (x in succ[d] <==> x < i && DependsOn(nodes, x, d))
    {
      var deps := nodes[i].deps;
      for k := 0 to |deps|
        invariant |succ| == |nodes| && DegreesOf(succ, {}, degree)
        invariant forall x: nat, d: nat :: d < |succ| ==>
                                             (x in succ[d] <==> (x < i && DependsOn(nodes, x, d))
                                                                || (x == i && Resolves(nodes, deps[..k], d)))
      {
        forall j: nat { ResolvesStep(nodes, deps, k, j); }
        var d := IndexOf(nodes, deps[k]);
        if d.Some? {
          forall j | 0 <= j < |succ|
            ensures Pending(succ[d.value := succ[d.value] + [i]], {}, j)
                 == Pending(succ, {}, j) + (if i == j then 1 else 0)
          {
            PendingPush(succ, {}, d.value, i, j);
          }
          degree := degree[i := degree[i] + 1];
          succ := succ[d.value := succ[d.value] + [i]];
        }
      }
      assert deps[..|deps|] == deps;
    }
  }

  // ---------------------------------------------------------------------------
  // The main loop
  // ---------------------------------------------------------------------------

  ghost predicate Distinct(s: seq<nat>, n: nat) {
    (forall i :: 0 <= i < |s| ==> s[i] < n) && forall i, j :: 0 <= i < j < |s| ==> s[i] != s[j]
  }

  /** Every listed vertex comes after all its deps. */
  ghost predicate DepsFirst(nodes: seq<Node>, order: seq<nat>) {
    forall p: nat, d: nat :: p < |order| && DependsOn(nodes, order[p], d) ==> d in order[..p]
  }

  /** Queued and finished vertices are exactly those with no pending dep. */
  ghost predicate Frontier(order: seq<nat>, queue: seq<nat>, degree: seq<nat>) {
    && Distinct(order + queue, |degree|)
    && forall i :: 0 <= i < |degree| ==> (i in order + queue <==> degree[i] == 0)
  }

  /** Pops one vertex and releases the successors whose last pending dep it was. */
  method Release(succ: seq<seq<nat>>, idx: nat, order: seq<nat>, queue0: seq<nat>, degree0: seq<nat>)
    returns (queue: seq<nat>, degree: seq<nat>)
    requires DegreesOf(succ, Elems(order), degree0) && idx < |succ| && idx !in order
    requires Frontier(order, [idx] + queue0, degree0)
    requires forall d, x :: 0 <= d < |succ| && x in succ[d] ==> x < |succ|
    ensures DegreesOf(succ, Elems(order + [idx]), degree)
    ensures Frontier(order + [idx], queue, degree)
  {
    queue, degree := queue0, degree0;
    var done := Elems(order + [idx]);
    assert done == Elems(order) + {idx};
    var ss := succ[idx];
    assert order + [idx] + queue == order + ([idx] + queue0);
    forall i | 0 <= i < |succ| ensures degree[i] == Pending(succ, done, i) + multiset(ss)[i] {
      PendingFinish(succ, Elems(order), idx, i);
    }
    assert ss[0..] == ss;
    for k := 0 to |ss|
      invariant |degree| == |succ|
      invariant forall i :: 0 <= i < |degree| ==> degree[i] == Pending(succ, done, i) + multiset(ss[k..])[i]
      invariant Frontier(order + [idx], queue, degree)
    {
      var x := ss[k];
      assert ss[k] in succ[idx];
      assert ss[k..] == [x] + ss[k + 1..];
      ghost var old_ := order + [idx] + queue;
      degree := degree[x := degree[x] - 1];
      if degree[x] == 0 {
        queue := queue + [x];
        assert order + [idx] + queue == old_ + [x];
      }
    }
    assert ss[|ss|..] == [];
  }

  lemma {:induction false} NextDepsFirst(
    nodes: seq<Node>, succ: seq<seq<nat>>, order: seq<nat>, idx: nat, degree: seq<nat>)
    requires SuccessorsOf(nodes, succ) && DegreesOf(succ, Elems(order), degree) && DepsFirst(nodes, order)
    requires idx < |degree| && degree[idx] == 0
    ensures DepsFirst(nodes, order + [idx])
  {
    PendingWitness(succ, Elems(order), idx);
    var o := order + [idx];
    forall p: nat, d: nat | p < |o| && DependsOn(nodes, o[p], d) ensures d in o[..p] {
      if p < |order| {
        assert o[..p] == order[..p];
      } else {
        assert o[..p] == order;
        assert idx in succ[d];
      }
    }
  }

  /** A node that never became ready waits for another one. */
  lemma {:induction false} StuckWaits(
    nodes: seq<Node>, succ: seq<seq<nat>>, order: seq<nat>, degree: seq<nat>, i: nat) returns (d: nat)
    requires SuccessorsOf(nodes, succ) && DegreesOf(succ, Elems(order), degree)
    requires Frontier(order, [], degree) && i < |nodes| && i !in order
    ensures d < |nodes| && d !in order && (nodes[d].id, nodes[i].id) in Edges(nodes)
  {
    assert order + [] == order;
    PendingWitness(succ, Elems(order), i);
    d :| d < |succ| && d !in Elems(order) && i in succ[d];
    assert nodes[i] in nodes;
  }

  /** A stuck run means a cycle. */
  lemma {:induction false} StuckMeansCycle(nodes: seq<Node>, succ: seq<seq<nat>>, order: seq<nat>, degree: seq<nat>)
    requires SuccessorsOf(nodes, succ) && DegreesOf(succ, Elems(order), degree)
    requires Frontier(order, [], degree) && Acyclic(Edges(nodes)) && DistinctIds(nodes)
    ensures forall i: nat :: i < |nodes| ==> i in order
  {
    var names := set i: nat | i < |nodes| && i !in order :: nodes[i].id;
    forall x | x in names ensures HasPredecessorIn(Edges(nodes), names, x) {
      var i: nat :| i < |nodes| && i !in order && nodes[i].id == x;
      var d := StuckWaits(nodes, succ, order, degree, i);
      assert nodes[d].id in names;
    }
    NoneLeft(nodes, order, names);
  }

  lemma {:induction false} NoneLeft(nodes: seq<Node>, order: seq<nat>, names: set<Id>)
    requires Acyclic(Edges(nodes)) && names == set i: nat | i < |nodes| && i !in order :: nodes[i].id
    requires forall x :: x in names ==> HasPredecessorIn(Edges(nodes), names, x)
    ensures forall i: nat :: i < |nodes| ==> i in order
  {
    assert forall i: nat :: i < |nodes| && i !in order ==> nodes[i].id in names;
    if names != {} { var v := SourceExists(Edges(nodes), names); }
  }

  /** A permutation of all indices, cyclic input included; on acyclic input every dep comes first. */
  method TopoOrder(nodes: seq<Node>) returns (order: seq<nat>)
    ensures IsPermutation(order, |nodes|)
    ensures Acyclic(Edges(nodes)) && DistinctIds(nodes) ==> DepsFirst(nodes, order)
  {
    var n := |nodes|;
    var succ, degree := BuildSuccessors(nodes);
    var queue: seq<nat> := [];
    for i := 0 to n
      invariant Distinct(queue, n)
      invariant forall x: nat :: x in queue <==> x < i && degree[x] == 0
    {
      if degree[i] == 0 {
        queue := queue + [i];
      }
    }
    order := [];
    assert Elems(order) == {};
    assert order + queue == queue;
    while queue != []
      invariant DegreesOf(succ, Elems(order), degree) && |degree| == n
      invariant Frontier(order, queue, degree)
      invariant DepsFirst(nodes, order)
      decreases n - |order|
    {
      var idx := queue[0];
      assert queue == [idx] + queue[1..];
      assert (order + queue)[|order|] == idx;
      assert forall p :: 0 <= p < |order| ==> (order + queue)[p] == order[p];
      NextDepsFirst(nodes, succ, order, idx, degree);
      queue, degree := Release(succ, idx, order, queue[1..], degree);
      order := order + [idx];
      OrderBound(order, queue, n);
    }
    assert order + queue == order;
    if Acyclic(Edges(nodes)) && DistinctIds(nodes) {
      StuckMeansCycle(nodes, succ, order, degree);
    }
    ghost var sorted := order;
    for i := 0 to n
      invariant Distinct(order, n)
      invariant forall x: nat :: x < i ==> x in order
      invariant forall x :: x in sorted ==> x in order
      invariant (forall x: nat :: x < n ==> x in sorted) ==> order == sorted
    {
      if i !in order {
        order := order + [i];
      }
    }
    CompleteIsPermutation(order, n);
  }

  lemma {:induction false} OrderBound(order: seq<nat>, queue: seq<nat>, n: nat)
    requires Distinct(order + queue, n)
    ensures |order| <= n
  {
    var s := order + queue;
    SetOfDistinct(s);
    SetOfRange(Elems(s), n);
  }

  lemma {:induction false} CompleteIsPermutation(order: seq<nat>, n: nat)
    requires Distinct(order, n) && forall x: nat :: x < n ==> x in order
    ensures IsPermutation(order, n)
  {
    SetOfDistinct(order);
    SetOfRange(Elems(order), n);
    RangeElems(n);
    assert Elems(order) == Elems(Range(n));
    SetOfDistinct(Range(n));
  }

  lemma {:induction false} RangeElems(n: nat)
    ensures forall x: nat :: x in Elems(Range(n)) <==> x < n
  {
    forall x: nat | x < n ensures x in Elems(Range(n)) {
      assert Range(n)[x] == x;
    }
  }
}
