/**
  Slot assignment: fan-out ranges, then one output slot per node in topological
  order (Partitioner/partitioner/src/slot_assigner.rs).
 */
module Slots {
  import opened Prelude
  import opened Sequences
  import opened Graphs
  import opened SymbolicDag
  import opened Topo

  const INPUT_IO_SLOT: nat := 0
  const OUTPUT_IO_SLOT: nat := 1

  // ---------------------------------------------------------------------------
  // Phase 1: fan-out ranges
  // ---------------------------------------------------------------------------

  datatype Entry = Entry(machine: nat, base: nat, idx: nat)

  predicate IsFanout(n: Node) {
    n.kind.Func? && n.kind.outBase.Some? && n.host.Some?
  }

  function EntryAt(nodes: seq<Node>, i: nat): seq<Entry> {
    if i < |nodes| && IsFanout(nodes[i]) then [Entry(nodes[i].host.value, nodes[i].kind.outBase.value, i)] else []
  }

  /** The fan-out sources in topological order. */
  function FanoutEntries(nodes: seq<Node>, order: seq<nat>): seq<Entry> {
    FlatMap(order, (i: nat) => EntryAt(nodes, i))
  }

  /** Ids of the direct consumers of a node, in array order. */
  function Consumers(nodes: seq<Node>, id: Id): seq<Id> {
    if nodes == [] then []
    else
      var last := nodes[|nodes| - 1];
      Consumers(nodes[..|nodes| - 1], id) + (if id in last.deps then [last.id] else [])
  }

  lemma {:induction false} ConsumersOf(nodes: seq<Node>, id: Id)
    ensures forall x :: x in Consumers(nodes, id) <==> exists n :: n in nodes && n.id == x && id in n.deps
    ensures DistinctIds(nodes) ==>
              forall i, j :: 0 <= i < j < |Consumers(nodes, id)| ==> Consumers(nodes, id)[i] != Consumers(nodes, id)[j]
  {
    if nodes != [] {
      var init, last := nodes[..|nodes| - 1], nodes[|nodes| - 1];
      ConsumersOf(init, id);
      assert nodes == init + [last];
      if DistinctIds(nodes) {
        var key := (n: Node) => n.id;
        forall n | n in init ensures n.id != last.id {
          var i :| 0 <= i < |init| && init[i] == n;
          assert key(nodes[i]) != key(nodes[|nodes| - 1]);
        }
        forall i, j | 0 <= i < j < |init| ensures key(init[i]) != key(init[j]) {
          assert key(nodes[i]) != key(nodes[j]);
        }
        var c := Consumers(init, id);
        assert DistinctIds(init) && last.id !in c;
        assert forall i :: 0 <= i < |c| ==> c[i] in c;
      }
    }
  }

  function Width(nodes: seq<Node>, e: Entry): nat {
    |Consumers(nodes, SourceId(nodes, e))|
  }

  /** First slot free on machine m after the first k entries. */
  function NextFree(nodes: seq<Node>, es: seq<Entry>, k: nat, m: nat): nat
    requires k <= |es|
    decreases k, 0
  {
    if k == 0 then 0
    else if es[k - 1].machine == m then EffectiveBase(nodes, es, k - 1) + Width(nodes, es[k - 1])
    else NextFree(nodes, es, k - 1, m)
  }

  /** The requested base, moved up past the ranges already taken on the machine. */
  function EffectiveBase(nodes: seq<Node>, es: seq<Entry>, k: nat): nat
    requires k < |es|
    decreases k, 1
  {
    Max(es[k].base, NextFree(nodes, es, k, es[k].machine))
  }

  lemma {:induction false} RangeEnds(nodes: seq<Node>, es: seq<Entry>, i: nat, k: nat)
    requires i < k <= |es|
    ensures EffectiveBase(nodes, es, i) + Width(nodes, es[i]) <= NextFree(nodes, es, k, es[i].machine)
    decreases k
  {
    if i < k - 1 { RangeEnds(nodes, es, i, k - 1); }
  }

  /** Two fan-out ranges on one machine never overlap; the later one starts past the earlier one. */
  lemma {:induction false} RangesDisjoint(nodes: seq<Node>, es: seq<Entry>, i: nat, j: nat)
    requires i < j < |es| && es[i].machine == es[j].machine
    ensures EffectiveBase(nodes, es, i) + Width(nodes, es[i]) <= EffectiveBase(nodes, es, j)
  {
    RangeEnds(nodes, es, i, j);
  }

  /** What phase 1 hands to phase 2. */
  datatype FanoutPlan = FanoutPlan(bases: map<Id, nat>, inputs: map<(Id, Id), nat>, nextSlot: nat)

  function SourceId(nodes: seq<Node>, e: Entry): Id {
    if e.idx < |nodes| then nodes[e.idx].id else Named("")
  }

  ghost predicate GoodEntries(nodes: seq<Node>, es: seq<Entry>) {
    && (forall k :: 0 <= k < |es| ==> es[k].idx < |nodes|)
    && forall i, j :: 0 <= i < j < |es| ==> es[i].idx != es[j].idx
  }

  lemma {:induction false} EntriesAreGood(nodes: seq<Node>, order: seq<nat>)
    requires forall i, j :: 0 <= i < j < |order| ==> order[i] != order[j]
    ensures GoodEntries(nodes, FanoutEntries(nodes, order))
    ensures forall e :: e in FanoutEntries(nodes, order) ==> e.idx in order && [e] == EntryAt(nodes, e.idx)
  {
    var f := (i: nat) => EntryAt(nodes, i);
    forall e | e in FanoutEntries(nodes, order) ensures e.idx in order && [e] == EntryAt(nodes, e.idx) {
      InFlatMap(order, f, e);
    }
    var key, out := (i: nat) => i, (e: Entry) => e.idx;
    FlatMapDistinct(order, f, key, out, key);
    var es := FanoutEntries(nodes, order);
    forall i, j | 0 <= i < j < |es| ensures es[i].idx != es[j].idx {
      assert out(es[i]) != out(es[j]);
    }
    forall k | 0 <= k < |es| ensures es[k].idx < |nodes| {
      assert es[k] in es;
    }
  }

  lemma {:induction false} DistinctAt(nodes: seq<Node>, i: nat, j: nat)
    requires DistinctIds(nodes) && i < |nodes| && j < |nodes|
    ensures nodes[i].id == nodes[j].id ==> i == j
  {
    var key := (n: Node) => n.id;
    if i < j { assert key(nodes[i]) != key(nodes[j]); }
    if j < i { assert key(nodes[j]) != key(nodes[i]); }
  }

  function GivenInputs(src: Id, base: nat, cs: seq<Id>, c: nat, inputs: map<(Id, Id), nat>): map<(Id, Id), nat>
    requires c <= |cs|
  {
    if c == 0 then inputs else GivenInputs(src, base, cs, c - 1, inputs)[(src, cs[c - 1]) := base + c - 1]
  }

  /** The plan once the first c consumers cs of src hold consecutive slots from base. */
  function Given(src: Id, base: nat, cs: seq<Id>, c: nat, before: FanoutPlan): FanoutPlan
    requires c <= |cs|
  {
    FanoutPlan(before.bases[src := base], GivenInputs(src, base, cs, c, before.inputs),
               if c == 0 then before.nextSlot else Max(before.nextSlot, base + c))
  }

  /** The plan after the first k entries, counting those of machine m. */
  function MachinePlan(nodes: seq<Node>, es: seq<Entry>, m: nat, k: nat, before: FanoutPlan): FanoutPlan
    requires k <= |es|
  {
    if k == 0 then before
    else
      var was := MachinePlan(nodes, es, m, k - 1, before);
      var src := SourceId(nodes, es[k - 1]);
      var cs := Consumers(nodes, src);
      if es[k - 1].machine == m then Given(src, EffectiveBase(nodes, es, k - 1), cs, |cs|, was) else was
  }

  /** The plan after the machines below m. */
  function PlanUpTo(nodes: seq<Node>, es: seq<Entry>, m: nat): FanoutPlan {
    if m == 0 then FanoutPlan(map[], map[], 2) else MachinePlan(nodes, es, m - 1, |es|, PlanUpTo(nodes, es, m - 1))
  }

  /** The plan of a graph, its fan-out sources taken along the order. */
  function PlanOf(nodes: seq<Node>, order: seq<nat>, machines: nat): FanoutPlan {
    PlanUpTo(nodes, FanoutEntries(nodes, order), machines)
  }

  /** Gives consecutive slots from `base` to the consumers of one source. */
  method GiveSlots(src: Id, base: nat, cs: seq<Id>, before: FanoutPlan) returns (plan: FanoutPlan)
    ensures plan == Given(src, base, cs, |cs|, before)
  {
    var inputs: map<(Id, Id), nat> := before.inputs;
    var next := before.nextSlot;
    for c := 0 to |cs|
      invariant inputs == GivenInputs(src, base, cs, c, before.inputs)
      invariant next == Given(src, base, cs, c, before).nextSlot
    {
      inputs := inputs[(src, cs[c]) := base + c];
      next := Max(next, base + c + 1);
    }
    plan := FanoutPlan(before.bases[src := base], inputs, next);
  }

  /** The entries of one machine, in topological order. */
  method PlanMachine(nodes: seq<Node>, es: seq<Entry>, m: nat, before: FanoutPlan) returns (plan: FanoutPlan)
    ensures plan == MachinePlan(nodes, es, m, |es|, before)
  {
    plan := before;
    var nextFree := 0;
    for k := 0 to |es|
      invariant nextFree == NextFree(nodes, es, k, m) && plan == MachinePlan(nodes, es, m, k, before)
    {
      if es[k].machine == m {
        var src := SourceId(nodes, es[k]);
        var base := Max(es[k].base, nextFree);
        plan := GiveSlots(src, base, Consumers(nodes, src), plan);
        nextFree := base + Width(nodes, es[k]);
      }
    }
  }

  /** Plans every fan-out source, machine by machine. */
  method PlanFanouts(nodes: seq<Node>, order: seq<nat>, machines: nat) returns (plan: FanoutPlan)
    ensures plan == PlanOf(nodes, order, machines)
  {
    var es := FanoutEntries(nodes, order);
    plan := FanoutPlan(map[], map[], 2);
    for m := 0 to machines
      invariant plan == PlanUpTo(nodes, es, m)
    {
      plan := PlanMachine(nodes, es, m, plan);
    }
  }

  // ---------------------------------------------------------------------------
  // Phase 2: one output slot per node
  // ---------------------------------------------------------------------------

  /** Output slot of the last dep. */
  function DepOutputSlot(deps: seq<Id>, outputs: map<Id, nat>): Option<nat> {
    if deps != [] && deps[|deps| - 1] in outputs then Some(outputs[deps[|deps| - 1]]) else None
  }

  /** The slot a fan-out assigned to this consumer, else the dep's output slot. */
  function InputSlotFor(id: Id, deps: seq<Id>, inputs: map<(Id, Id), nat>, outputs: map<Id, nat>): Option<nat> {
    var fanned := FannedSlot(id, deps, inputs);
    if fanned.Some? then fanned else DepOutputSlot(deps, outputs)
  }

  function FannedSlot(id: Id, deps: seq<Id>, inputs: map<(Id, Id), nat>): Option<nat> {
    if deps == [] then None
    else if (deps[0], id) in inputs then Some(inputs[(deps[0], id)])
    else FannedSlot(id, deps[1..], inputs)
  }

  /** A node after slot assignment, the slot it records for its dependents, and the next free slot. */
  datatype Assigned = Assigned(node: Node, output: Option<nat>, next: nat)

  function AssignFunc(n: Node, outputs: map<Id, nat>, next: nat, plan: FanoutPlan): Option<Assigned>
    requires n.kind.Func?
  {
    if n.kind.arg.Some? then
      var s := OrElse(n.kind.arg2, OUTPUT_IO_SLOT);
      Some(Assigned(n.(outputSlot := Some(OrElse(n.outputSlot, s))), Some(s), Max(next, s + 1)))
    else if n.kind.outBase.Some? then
      var base := if n.id in plan.bases then plan.bases[n.id] else n.kind.outBase.value;
      Some(Assigned(n.(kind := n.kind.(arg := Some(base))), Some(base), next))
    else if n.kind.outputOffset.Some? then
      var i := InputSlotFor(n.id, n.deps, plan.inputs, outputs);
      if i.None? then None
      else
        var s := i.value + n.kind.outputOffset.value;
        Some(Assigned(n.(kind := n.kind.(arg := i), outputSlot := Some(s)), Some(s), Max(next, s + 1)))
    else
      var d := DepOutputSlot(n.deps, outputs);
      if d.None? then None
      else Some(Assigned(n.(kind := n.kind.(arg := d), outputSlot := Some(OUTPUT_IO_SLOT)), Some(OUTPUT_IO_SLOT), next))
  }

  function AssignAggregate(n: Node, next: nat): Assigned
    requires n.kind.Aggregate?
  {
    if n.kind.upstream.Some? && n.kind.downstream.Some? then
      var s := n.kind.downstream.value;
      Assigned(n.(outputSlot := Some(OrElse(n.outputSlot, s))), Some(s), Max(next, s + 1))
    else
      var up := if n.kind.upstreamNodes.None? && n.kind.upstream.None? then Some(n.deps) else n.kind.upstreamNodes;
      var s := OrElse(n.kind.downstream, next);
      Assigned(n.(kind := n.kind.(upstreamNodes := up, downstream := Some(s)), outputSlot := Some(s)), Some(s),
               Max(next, s + 1))
  }

  function AssignOne(n: Node, outputs: map<Id, nat>, next: nat, plan: FanoutPlan): Option<Assigned> {
    match n.kind
    case Input(_, slot, _, _, _) =>
      var s := OrElse(slot, INPUT_IO_SLOT);
      Some(Assigned(n.(kind := n.kind.(slot := Some(s))), Some(s), next))
    case Func(_, _, _, _, _, _) => AssignFunc(n, outputs, next, plan)
    case Aggregate(_, _, _) => Some(AssignAggregate(n, next))
    case Output(_, _) =>
      var d := DepOutputSlot(n.deps, outputs);
      if d.None? then None else Some(Assigned(n.(kind := n.kind.(outSlot := d)), None, next))
    case StreamPipeline(_, stages, _, _, _, _) =>
      if stages != [] && stages[|stages| - 1].arg1.Some? then
        var s := stages[|stages| - 1].arg1.value;
        Some(Assigned(n.(outputSlot := Some(OrElse(n.outputSlot, s))), Some(s), Max(next, s + 1)))
      else Some(Assigned(n, None, next))
    case _ => Some(Assigned(n, None, next))
  }

  /** The state of phase 2: the nodes so far, the slot each node recorded, and the next free slot. */
  datatype Progress = Progress(nodes: seq<Node>, outputs: map<Id, nat>, next: nat)

  function Record(outputs: map<Id, nat>, id: Id, slot: Option<nat>): map<Id, nat> {
    if slot.Some? then outputs[id := slot.value] else outputs
  }

  predicate InRange(nodes: seq<Node>, order: seq<nat>) {
    forall i :: 0 <= i < |order| ==> order[i] < |nodes|
  }

  /** Assigns the first k nodes of the order; None once a node lacks the slot it needs. */
  function AssignUpTo(nodes: seq<Node>, order: seq<nat>, plan: FanoutPlan, k: nat): (r: Option<Progress>)
    requires k <= |order| && InRange(nodes, order)
    ensures r.Some? ==> |r.value.nodes| == |nodes|
  {
    if k == 0 then Some(Progress(nodes, map[], plan.nextSlot))
    else
      var n, was := nodes[order[k - 1]], AssignUpTo(nodes, order, plan, k - 1);
      if was.None? then None
      else
        match AssignOne(n, was.value.outputs, was.value.next, plan)
        case None => None
        case Some(a) =>
          Some(Progress(was.value.nodes[order[k - 1] := a.node], Record(was.value.outputs, n.id, a.output), a.next))
  }

  lemma {:induction false} NoneStays(nodes: seq<Node>, order: seq<nat>, plan: FanoutPlan, j: nat, k: nat)
    requires j <= k <= |order| && InRange(nodes, order) && AssignUpTo(nodes, order, plan, j).None?
    ensures AssignUpTo(nodes, order, plan, k).None?
  {
    if j < k { NoneStays(nodes, order, plan, j, k - 1); }
  }

  /** The whole assignment along an order. */
  function Assignment(nodes: seq<Node>, order: seq<nat>, machines: nat): Option<Progress>
    requires InRange(nodes, order)
  {
    AssignUpTo(nodes, order, PlanOf(nodes, order, machines), |order|)
  }

  /** Runs both phases along a topological order of the nodes. */
  method AssignSlots(nodes: seq<Node>, machines: nat) returns (r: Option<seq<Node>>, order: seq<nat>)
    ensures IsPermutation(order, |nodes|)
    ensures Acyclic(Edges(nodes)) && DistinctIds(nodes) ==> DepsFirst(nodes, order)
    ensures r.Some? <==> Assignment(nodes, order, machines).Some?
    ensures r.Some? ==> r.value == Assignment(nodes, order, machines).value.nodes
  {
    order := TopoOrder(nodes);
    var plan := PlanFanouts(nodes, order, machines);
    var out, next, outputs := nodes, plan.nextSlot, map[];
    for k := 0 to |order|
      invariant AssignUpTo(nodes, order, plan, k) == Some(Progress(out, outputs, next))
    {
      var n := nodes[order[k]];
      var a := AssignOne(n, outputs, next, plan);
      if a.None? {
        NoneStays(nodes, order, plan, k + 1, |order|);
        return None, order;
      }
      outputs := Record(outputs, n.id, a.value.output);
      out := out[order[k] := a.value.node];
      next := a.value.next;
    }
    r := Some(out);
  }
}
