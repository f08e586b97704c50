/**
  From a symbolic graph to a run of the machine lists it is partitioned into: in every order that respects the
  deps written on the lists and the transfers between them, each node reads what it would read on one machine.
 */
module EndToEnd {
  import opened Prelude
  import opened Sequences
  import opened Graphs
  import opened SymbolicDag
  import opened Topo
  import opened Placer
  import opened InputSlices
  import opened Slots
  import opened SlotProofs
  import opened Reclaim
  import opened Cut
  import opened CutProofs
  import opened Dataflow
  import opened ClusterRun
  import opened SlotClash
  import opened Partition
  import opened ListRuns
  import opened FreeOrder
  import opened FreedSlots

  // ---------------------------------------------------------------------------
  // The premises, on the graph before placement and slot assignment where they can be said there
  // ---------------------------------------------------------------------------

  /** Explicit `upstream_nodes` name deps. */
  ghost predicate RefsAreDeps(nodes: seq<Node>) {
    forall n, r :: n in nodes && r in ReadsOf(n) ==> r in n.deps
  }

  /** No two nodes of a machine share the slot of a node that is read or sent. */
  ghost predicate SlotsApart(nodes: seq<Node>) {
    forall a, b :: a in nodes && b in nodes && a.id != b.id && SharesSlot(a, b) ==> !Needed(nodes, a.id)
  }

  /** References are deps, an Output's dep is annotated with the slot it records, producers do not share slots,
      and none sits on the slot of a transfer. */
  ghost predicate Clean(nodes: seq<Node>, s: Setting, t: Trace)
    requires ValidSetting(s)
  {
    var l := t.layout;
    && RefsAreDeps(Expanded(nodes, s.total, s.hints, t.plan))
    && AnnotationsAgree(l.sliced, PlanOf(l.sliced, l.order, MachineBound(l.sliced)))
    && SlotsApart(All(t)) && forall n :: n in All(t) ==> !HitsTransfer(All(t), n)
  }

  lemma {:induction false} FilledReads(a: seq<Node>, b: seq<Node>, i: nat)
    requires OnlyHostsFilled(a, b) && i < |a|
    ensures ReadsOf(b[i]) == ReadsOf(a[i]) && b[i].deps == a[i].deps
  {
  }

  lemma {:induction false} SliceReads(nodes: seq<Node>, s: Setting, out: seq<Node>, i: nat)
    requires SlicedBy(nodes, s.total, s.workers, s.shared, out) && i < |nodes|
    ensures ReadsOf(out[i]) == ReadsOf(nodes[i]) && out[i].deps == nodes[i].deps
  {
    assert out[i] == nodes[i] || (nodes[i].kind.Input? && out[i].kind.Input?);
  }

  lemma {:induction false} SlicedReads(nodes: seq<Node>, s: Setting, l: Layout, i: nat)
    requires ValidSetting(s) && Hosted(nodes, s, l) && i < |nodes|
    ensures i < |l.sliced| && ReadsOf(l.sliced[i]) == ReadsOf(nodes[i]) && l.sliced[i].deps == nodes[i].deps
  {
    if s.converge { PinnedIsFilled(nodes, l.pinned, COORDINATOR); }
    FilledReads(nodes, l.pinned, i);
    FilledReads(l.pinned, l.hosted, i);
    SliceReads(l.hosted, s, l.sliced, i);
  }

  lemma {:induction false} AssignedReads(n: Node, outputs: map<Id, nat>, next: nat, plan: FanoutPlan, a: Assigned)
    requires AssignOne(n, outputs, next, plan) == Some(a)
    ensures a.node.deps == n.deps && forall r :: r in ReadsOf(a.node) ==> r in ReadsOf(n) || r in n.deps
  {
  }

  /** Placement, slicing and slot assignment keep explicit references; those that assignment derives are the deps. */
  lemma {:induction false} RefsKept(nodes: seq<Node>, s: Setting, l: Layout)
    requires ValidSetting(s) && Hosted(nodes, s, l) && Slotted(l) && RefsAreDeps(nodes)
    ensures RefsAreDeps(l.placed)
  {
    HostedShape(nodes, s, l);
    AssignmentKeeps(l.sliced, l.order, MachineBound(l.sliced), l.placed);
    forall n, r | n in l.placed && r in ReadsOf(n) ensures r in n.deps {
      var i :| 0 <= i < |l.placed| && l.placed[i] == n;
      SlicedReads(nodes, s, l, i);
      PlacedReads(l, i, r);
      assert nodes[i] in nodes;
    }
  }

  lemma {:induction false} PlacedReads(l: Layout, i: nat, r: Id)
    requires Slotted(l) && i < |l.sliced|
    ensures i < |l.placed| && l.placed[i].deps == l.sliced[i].deps
    ensures r in ReadsOf(l.placed[i]) ==> r in ReadsOf(l.sliced[i]) || r in l.sliced[i].deps
  {
    var machines := MachineBound(l.sliced);
    var p, a := StepOf(l.sliced, l.order, machines, l.placed, i);
    var plan := PlanOf(l.sliced, l.order, machines);
    var was := AssignUpTo(l.sliced, l.order, plan, p).value;
    AssignedReads(l.sliced[i], was.outputs, was.next, plan, a);
  }

  lemma {:induction false} FreeFacts(placed: seq<Node>, c: Node)
    requires c in WithFrees(placed) && c !in placed
    ensures c.id.FreeOf? && c.kind.FreeSlots?
  {
    var src := FreeOrigin(placed, c);
    var f := (n: Node) => FreesFor(placed, n);
    InFlatMap(placed, f, c);
    var o :| o in placed && c in f(o);
    FreesAfterReaders(placed, o);
  }

  lemma {:induction false} ReadIsKnown(placed: seq<Node>, all: seq<Node>, total: nat, n: Node, r: Id)
    requires all == WithFrees(placed) && Placed(all, total) && RefsAreDeps(placed) && n in all && r in ReadsOf(n)
    ensures KnownDep(all, n, r)
  {
    if n !in placed { FreeFacts(placed, n); }
  }

  lemma {:induction false} ReadsAreDepsOfAll(placed: seq<Node>, all: seq<Node>, total: nat)
    requires all == WithFrees(placed) && Placed(all, total) && RefsAreDeps(placed)
    ensures ReadsAreDeps(all)
  {
    forall n, r | n in all && r in ReadsOf(n) ensures KnownDep(all, n, r) {
      ReadIsKnown(placed, all, total, n, r);
    }
  }

  lemma {:induction false} AllCarrySlots(placed: seq<Node>, all: seq<Node>)
    requires all == WithFrees(placed) && OutputsCarrySlots(placed) && MintedBefore(placed, 4)
    ensures OutputsCarrySlots(all)
  {
    forall n, d | n in all && d in all && n.kind.Output? && n.deps == [d.id] && n.host == d.host
      ensures n.kind.outSlot.Some? && n.kind.outSlot == SlotOf(d)
    {
      if n !in placed { FreeFacts(placed, n); }
      assert d.id in n.deps;
      if d !in placed { FreeFacts(placed, d); }
    }
  }

  lemma {:induction false} WellFormedAll(nodes: seq<Node>, s: Setting, t: Trace, lists: seq<seq<Node>>)
    requires ValidSetting(s) && Realises(nodes, s, t, lists) && Partition.WellFormed(nodes, 1)
    ensures Partition.WellFormed(t.layout.placed, 4) && Partition.WellFormed(All(t), 5)
    ensures Acyclic(Edges(nodes)) ==> Acyclic(Edges(All(t)))
  {
    var expanded, l := Expanded(nodes, s.total, s.hints, t.plan), t.layout;
    var links := LinksOf(nodes, s.total, s.hints, t.plan);
    ExpandedKept(nodes, s.total, s.hints, t.plan);
    HostedShape(expanded, s, l);
    AssignmentKeeps(l.sliced, l.order, MachineBound(l.sliced), l.placed);
    SameShapeGraph(expanded, l.placed);
    FreesKeepOrder(l.placed, links);
    FreesKeepDistinct(l.placed);
    if Acyclic(Edges(nodes)) { SubgraphAcyclic(Edges(All(t)), Edges(All(t)) + links); }
  }

  lemma {:induction false} SlotsAreSafe(all: seq<Node>, total: nat, t: Trace, lists: seq<seq<Node>>)
    requires EmittedAs(all, total, t, lists) && SlotsApart(all) && forall n :: n in all ==> !HitsTransfer(all, n)
    ensures SlotsSafe(all, t.cuts)
  {
    forall n | n in all ensures !Clashes(t.cuts, n) { ClashIff(all, t.keys, t.cuts, t.first, n); }
  }

  /** A clean run of the partitioner meets every premise of the dataflow theorem. */
  lemma {:induction false} CleanIsSound(nodes: seq<Node>, s: Setting, t: Trace, lists: seq<seq<Node>>)
    requires ValidSetting(s) && Realises(nodes, s, t, lists) && Partition.WellFormed(nodes, 1) && Clean(nodes, s, t)
    ensures Sound(All(t), s.total, t.keys, t.cuts, t.first)
  {
    var l := t.layout;
    WellFormedAll(nodes, s, t, lists);
    RefsKept(Expanded(nodes, s.total, s.hints, t.plan), s, l);
    ReadsAreDepsOfAll(l.placed, All(t), s.total);
    OutputsCarryIff(l.sliced, l.order, MachineBound(l.sliced), l.placed);
    AllCarrySlots(l.placed, All(t));
    SlotsAreSafe(All(t), s.total, t, lists);
  }

  // ---------------------------------------------------------------------------
  // The theorem
  // ---------------------------------------------------------------------------

  /** Partitioning preserves dataflow: if every free comes in turn, then in every run of the emitted lists, from any
      memory, every node of the graph reads exactly what it reads when the nodes run one after another on a single
      machine, deps first. */
  lemma {:induction false} PartitionedDataflow<V(!new)>(
    f: Fn<V>, nodes: seq<Node>, s: Setting, t: Trace, lists: seq<seq<Node>>, order: seq<nat>, init: Mem<V>,
    run: seq<Vertex>)
    requires ValidSetting(s) && Partition.WellFormed(nodes, 1) && Realises(nodes, s, t, lists) && Clean(nodes, s, t)
    requires IsPermutation(order, |All(t)|) && DepsFirst(All(t), order) && IsListRun(lists, run)
    requires FreesInTurn(All(t), t.keys, t.cuts, Waits(lists))
    ensures RightRun(f, All(t), t.cuts, OneMachine(f, All(t), order, |order|), run, init)
  {
    CleanIsSound(nodes, s, t, lists);
    RightWhenInTurn(f, All(t), s.total, t, lists, order, init, run);
  }

  /** And not less will do: of lists that can be run to the end, some order misreads a value unless every free comes
      in turn. */
  lemma {:induction false} PartitionedDataflowIff<V(!new)>(
    f: Fn<V>, nodes: seq<Node>, s: Setting, t: Trace, lists: seq<seq<Node>>, order: seq<nat>)
    requires ValidSetting(s) && Partition.WellFormed(nodes, 1) && Realises(nodes, s, t, lists) && Clean(nodes, s, t)
    requires IsPermutation(order, |All(t)|) && DepsFirst(All(t), order) && Acyclic(Waits(lists))
    ensures AlwaysRight(f, All(t), t.cuts, OneMachine(f, All(t), order, |order|), lists)
       <==> FreesInTurn(All(t), t.keys, t.cuts, Waits(lists))
  {
    CleanIsSound(nodes, s, t, lists);
    AlwaysRightIff(f, All(t), s.total, t, lists, order);
  }

  /** The emitted lists can be run to the end if and only if no listed node waits for itself; they can whenever the
      graph is acyclic and no machine both receives from and sends to another. */
  lemma {:induction false} PartitionedRuns(nodes: seq<Node>, s: Setting, t: Trace, lists: seq<seq<Node>>)
    requires ValidSetting(s) && Partition.WellFormed(nodes, 1) && Realises(nodes, s, t, lists)
    ensures (exists run :: RunsAll(lists, run)) <==> Acyclic(Waits(lists))
    ensures Acyclic(Edges(nodes)) && OneWay(All(t)) ==> Acyclic(Waits(lists))
  {
    WellFormedAll(nodes, s, t, lists);
    RunsThroughIff(All(t), s.total, t, lists);
    if Acyclic(Edges(nodes)) && OneWay(All(t)) { OneWayRuns(All(t), s.total, t, lists); }
  }

  /** In the usual case, where only planned slots are freed and no node that is read or sent owns one, every free
      comes in turn. */
  lemma {:induction false} UsualIsInTurn(nodes: seq<Node>, s: Setting, t: Trace, lists: seq<seq<Node>>)
    requires ValidSetting(s) && Partition.WellFormed(nodes, 1) && Realises(nodes, s, t, lists)
    requires FreesPlanned(t.layout.sliced) && |t.layout.placed| == |t.layout.sliced|
    requires var l := t.layout;
             var plan := PlanOf(l.sliced, l.order, MachineBound(l.sliced));
             && plan.nextSlot <= U32_MAX + 1
             && forall i :: 0 <= i < |l.sliced| && Needed(All(t), l.placed[i].id) ==>
                              OwnsNoPlanned(l.sliced, plan, l.placed, i)
    ensures FreesInTurn(All(t), t.keys, t.cuts, Waits(lists))
  {
    var l := t.layout;
    WellFormedAll(nodes, s, t, lists);
    UsualFrees(l.sliced, l.order, MachineBound(l.sliced), l.placed);
    KeptIsInTurn(All(t), s.total, t.keys, t.cuts, t.first, Waits(lists));
  }
}
