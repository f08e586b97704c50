/**
  Cutting edges preserves dataflow.  Each node is an uninterpreted function of the
  values it inputs by slot; sends and recvs copy one slot to another.  Whatever order
  the cluster runs in, every node sees the inputs it would see on one machine.
 */
module Dataflow {
  import opened Prelude
  import opened Sequences
  import opened SymbolicDag
  import opened Topo
  import opened Slots

  type Fn<!V> = (Id, seq<Option<V>>) -> V

  // ---------------------------------------------------------------------------
  // One machine
  // ---------------------------------------------------------------------------

  /** The nodes whose values n inputs: resolved `upstream_nodes`, or the one dep of an Output. */
  function ReadsOf(n: Node): seq<Id> {
    match n.kind
    case Aggregate(Some(refs), _, _) => refs
    case Bridge(Some(refs), _, _) => refs
    case Other(_, Some(refs), _) => refs
    case Output(_, _) => if |n.deps| == 1 then n.deps else []
    case _ => []
  }

  function Peek<K, V>(m: map<K, V>, k: K): Option<V> {
    if k in m then Some(m[k]) else None
  }

  function PeekAll<K, V>(m: map<K, V>, ks: seq<K>): (r: seq<Option<V>>)
    ensures |r| == |ks|
  {
    seq(|ks|, i requires 0 <= i < |ks| => Peek(m, ks[i]))
  }

  /** The value of n when its inputs are looked up in `values`. */
  ghost function Apply<V>(f: Fn<V>, n: Node, values: map<Id, V>): V {
    f(n.id, PeekAll(values, ReadsOf(n)))
  }

  /** Runs the first k nodes of an order one after another on a single machine, values kept by name. */
  ghost function OneMachine<V>(f: Fn<V>, nodes: seq<Node>, order: seq<nat>, k: nat): map<Id, V>
    requires k <= |order| && forall i :: 0 <= i < |order| ==> order[i] < |nodes|
  {
    if k == 0 then map[]
    else
      var before, n := OneMachine(f, nodes, order, k - 1), nodes[order[k - 1]];
      before[n.id := Apply(f, n, before)]
  }

  /** Every node's value is its function of its inputs' values. */
  ghost predicate IsMeaning<V>(f: Fn<V>, nodes: seq<Node>, ref: map<Id, V>) {
    forall n :: n in nodes ==> n.id in ref && ref[n.id] == Apply(f, n, ref)
  }

  /** Reads name deps of the node. */
  ghost predicate ReadsAreDeps(nodes: seq<Node>) {
    forall n, r :: n in nodes && r in ReadsOf(n) ==> KnownDep(nodes, n, r)
  }

  ghost predicate KnownDep(nodes: seq<Node>, n: Node, r: Id) {
    r in n.deps && r in Ids(nodes)
  }

  lemma {:induction false} OneMachineKeys<V>(f: Fn<V>, nodes: seq<Node>, order: seq<nat>, k: nat)
    requires k <= |order| && forall i :: 0 <= i < |order| ==> order[i] < |nodes|
    ensures forall x :: x in OneMachine(f, nodes, order, k) <==> exists i :: 0 <= i < k && nodes[order[i]].id == x
  {
    if k > 0 { OneMachineKeys(f, nodes, order, k - 1); }
  }

  /** Later nodes do not change the value of an earlier one. */
  lemma {:induction false} OneMachineStable<V>(f: Fn<V>, nodes: seq<Node>, order: seq<nat>, p: nat, k: nat, i: nat)
    requires DistinctIds(nodes) && IsPermutation(order, |nodes|) && i < p <= k <= |order|
    ensures Peek(OneMachine(f, nodes, order, k), nodes[order[i]].id)
         == Peek(OneMachine(f, nodes, order, p), nodes[order[i]].id)
    decreases k
  {
    if p < k {
      OneMachineStable(f, nodes, order, p, k - 1, i);
      DistinctAt(nodes, order[i], order[k - 1]);
    }
  }

  lemma {:induction false} IndexOfNode(nodes: seq<Node>, j: nat)
    requires DistinctIds(nodes) && j < |nodes|
    ensures IndexOf(nodes, nodes[j].id) == Some(j)
  {
    DistinctAt(nodes, IndexOf(nodes, nodes[j].id).value, j);
  }

  /** By the time a node runs, everything it reads has its final value. */
  lemma {:induction false} ReadSettled<V>(f: Fn<V>, nodes: seq<Node>, order: seq<nat>, p: nat, x: Id)
    requires DistinctIds(nodes) && IsPermutation(order, |nodes|) && DepsFirst(nodes, order)
    requires p < |order| && x in nodes[order[p]].deps && x in Ids(nodes)
    ensures Peek(OneMachine(f, nodes, order, |order|), x) == Peek(OneMachine(f, nodes, order, p), x)
  {
    var d :| d in nodes && d.id == x;
    var j :| 0 <= j < |nodes| && nodes[j] == d;
    IndexOfNode(nodes, j);
    assert DependsOn(nodes, order[p], j);
    var q :| 0 <= q < p && order[..p][q] == j;
    OneMachineStable(f, nodes, order, p, |order|, q);
  }

  lemma {:induction false} ReadIsDep(nodes: seq<Node>, n: Node, r: Id)
    requires ReadsAreDeps(nodes) && n in nodes && r in ReadsOf(n)
    ensures r in n.deps && r in Ids(nodes)
  {
  }

  lemma {:induction false} InputsSettled<V>(f: Fn<V>, nodes: seq<Node>, order: seq<nat>, p: nat)
    requires DistinctIds(nodes) && IsPermutation(order, |nodes|) && DepsFirst(nodes, order) && ReadsAreDeps(nodes)
    requires p < |order|
    ensures Apply(f, nodes[order[p]], OneMachine(f, nodes, order, |order|))
         == Apply(f, nodes[order[p]], OneMachine(f, nodes, order, p))
  {
    var n := nodes[order[p]];
    var inputs := ReadsOf(n);
    var ref, before := OneMachine(f, nodes, order, |order|), OneMachine(f, nodes, order, p);
    forall i | 0 <= i < |inputs| ensures Peek(ref, inputs[i]) == Peek(before, inputs[i]) {
      assert n in nodes && inputs[i] in inputs;
      ReadIsDep(nodes, n, inputs[i]);
      ReadSettled(f, nodes, order, p, inputs[i]);
    }
    assert PeekAll(ref, inputs) == PeekAll(before, inputs);
  }

  /** Running in dependency order on one machine gives every node its meaning. */
  lemma {:induction false} OneMachineMeaning<V>(f: Fn<V>, nodes: seq<Node>, order: seq<nat>)
    requires DistinctIds(nodes) && IsPermutation(order, |nodes|) && DepsFirst(nodes, order) && ReadsAreDeps(nodes)
    ensures IsMeaning(f, nodes, OneMachine(f, nodes, order, |order|))
  {
    var ref := OneMachine(f, nodes, order, |order|);
    forall n | n in nodes
      ensures n.id in ref && ref[n.id] == Apply(f, n, ref)
    {
      var j :| 0 <= j < |nodes| && nodes[j] == n;
      PermutationCovers(order, |nodes|, j);
      var p :| 0 <= p < |order| && order[p] == j;
      InputsSettled(f, nodes, order, p);
      OneMachineStable(f, nodes, order, p + 1, |order|, p);
      assert Peek(ref, n.id).Some?;
    }
  }
}
