/**
  Graphs on which the passes before edge cutting change nothing: every node has its host, its argument and its slot.
  The partitioner's result on such a graph is that of cutting and ordering.
 */
module PlainGraph {
  import opened Prelude
  import opened Sequences
  import opened SymbolicDag
  import opened Topo
  import opened Expansion
  import opened StreamSplit
  import opened Placer
  import opened Slots
  import opened Reclaim
  import opened Partition

  predicate PlainNode(n: Node, total: nat) {
    && n.host.Some? && n.host.value < total && !n.all && n.fanout.None? && n.outputSlot.Some?
    && n.kind.Func? && n.kind.arg.Some? && n.kind.outBase.None?
  }

  ghost predicate Plain(nodes: seq<Node>, total: nat) {
    forall n :: n in nodes ==> PlainNode(n, total)
  }

  lemma {:induction false} NoExpansions(nodes: seq<Node>, total: nat)
    requires Plain(nodes, total)
    ensures Expansions(nodes) == map[] && FlatMap(nodes, WorkerCopies) == nodes
  {
    if nodes != [] {
      var init, last := nodes[..|nodes| - 1], nodes[|nodes| - 1];
      assert nodes == init + [last] && last in nodes;
      assert forall n :: n in init ==> n in nodes;
      NoExpansions(init, total);
    }
  }

  lemma {:induction false} SameDeps(deps: seq<Id>)
    ensures FlatMap(deps, (d: Id) => ExpandDep(map[], d)) == deps
  {
    if deps != [] {
      SameDeps(deps[..|deps| - 1]);
      assert deps == deps[..|deps| - 1] + [deps[|deps| - 1]];
    }
  }

  lemma {:induction false} PlainExpands(nodes: seq<Node>, total: nat, hints: Hints)
    requires Plain(nodes, total) && NonNegativeHints(hints) && total >= 1
    ensures Fanned(nodes, total, hints) == nodes && Expanded(nodes, total, hints, map[]) == nodes
  {
    assert Templates(nodes) == {};
    NoExpansions(nodes, total);
    var out := FanOut(nodes);
    forall i | 0 <= i < |nodes| ensures out[i] == nodes[i] { SameDeps(nodes[i].deps); }
  }

  lemma {:induction false} PlainPlan(nodes: seq<Node>, total: nat)
    requires Plain(nodes, total)
    ensures IsPlan(nodes, total, map[]) && !SplitRefuses(nodes, total, map[])
  {
    forall n | n in nodes ensures CutsOf(n, total) == Ok(None) && !n.kind.Output? { assert PlainNode(n, total); }
  }

  lemma {:induction false} PlainAssigned(nodes: seq<Node>, order: seq<nat>, plan: FanoutPlan, total: nat, k: nat)
    requires Plain(nodes, total) && InRange(nodes, order) && k <= |order|
    ensures var r := AssignUpTo(nodes, order, plan, k); r.Some? && r.value.nodes == nodes
  {
    if k > 0 {
      PlainAssigned(nodes, order, plan, total, k - 1);
      assert PlainNode(nodes[order[k - 1]], total);
    }
  }

  lemma {:induction false} PlainFrees(nodes: seq<Node>, total: nat)
    requires Plain(nodes, total)
    ensures WithFrees(nodes) == nodes
  {
    var f := (n: Node) => FreesFor(nodes, n);
    if FlatMap(nodes, f) != [] {
      var c := FlatMap(nodes, f)[0];
      InFlatMap(nodes, f, c);
    }
  }

  /** The layout in which nothing changed. */
  function Unchanged(nodes: seq<Node>, order: seq<nat>): Layout {
    Layout(nodes, nodes, map[], order, nodes, order, nodes)
  }

  ghost predicate PlainSetting(nodes: seq<Node>, s: Setting) {
    ValidSetting(s) && Plain(nodes, s.total) && !s.converge && s.shared == {}
  }

  lemma {:induction false} PlainHosted(nodes: seq<Node>, s: Setting, order: seq<nat>)
    requires PlainSetting(nodes, s) && IsPermutation(order, |nodes|) && DepsFirst(nodes, order)
    ensures Hosted(nodes, s, Unchanged(nodes, order))
  {
    forall n | n in nodes ensures n.host.Some? { assert PlainNode(n, s.total); }
    assert AutoNodes(nodes) == {};
    NothingPlaced(nodes, s.total);
    forall h | 0 <= h < s.total ensures PlacedOn(nodes, nodes, h) == {} {}
  }

  lemma {:induction false} PlainSlotted(nodes: seq<Node>, s: Setting, order: seq<nat>)
    requires PlainSetting(nodes, s) && IsPermutation(order, |nodes|) && DistinctIds(nodes)
    ensures Slotted(Unchanged(nodes, order))
  {
    HostsBelow(nodes);
    PlainAssigned(nodes, order, PlanOf(nodes, order, MachineBound(nodes)), s.total, |order|);
  }

  lemma {:induction false} PlainSettingOf(nodes: seq<Node>, total: nat, hints: Hints)
    requires Plain(nodes, total) && NonNegativeHints(hints) && total >= 1
    ensures SettingOf(nodes, total, hints, None, false) == Setting(total, hints, None, false, {}, {})
  {
    assert Templates(nodes) == {};
    assert WorkerSet(nodes) == {} && SharedPaths(nodes) == {};
  }

  /** On a plain graph the lists are those of the graph itself, cut and ordered. */
  lemma {:induction false} PlainRealises(nodes: seq<Node>, s: Setting, order: seq<nat>, t: Trace, lists: seq<seq<Node>>)
    requires PlainSetting(nodes, s) && IsPermutation(order, |nodes|) && DepsFirst(nodes, order) && DistinctIds(nodes)
    requires t.plan == map[] && t.layout == Unchanged(nodes, order) && EmittedAs(nodes, s.total, t, lists)
    ensures All(t) == nodes && Realises(nodes, s, t, lists)
  {
    PlainFrees(nodes, s.total);
    PlainExpands(nodes, s.total, s.hints);
    PlainPlan(nodes, s.total);
    PlainHosted(nodes, s, order);
    PlainSlotted(nodes, s, order);
  }
}
