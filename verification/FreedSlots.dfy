/** Which slots are freed, said on the graph that slot assignment sees, and when nothing needed is among them. */
module FreedSlots {
  import opened Prelude
  import opened Sequences
  import opened SymbolicDag
  import opened Slots
  import opened SlotProofs
  import opened Reclaim
  import opened Cut
  import opened ClusterRun
  import opened FreeOrder

  /** The argument a fan-out consumer ends up with. */
  function GivenArg(n: Node, plan: FanoutPlan): Option<nat>
    requires n.kind.Func?
  {
    if n.kind.arg.Some? then n.kind.arg
    else if n.kind.outBase.Some? then Some(if n.id in plan.bases then plan.bases[n.id] else n.kind.outBase.value)
    else FannedSlot(n.id, n.deps, plan.inputs)
  }

  lemma {:induction false} HasFanoutDep(nodes: seq<Node>, p: Node, deps: seq<Id>)
    requires DistinctIds(nodes) && p in nodes && IsFanout(p) && p.id in deps
    ensures FirstFanoutDep(nodes, deps).Some?
  {
    if deps[0] == p.id {
      LookupUnique(nodes, p);
    } else {
      HasFanoutDep(nodes, p, deps[1..]);
    }
  }

  /** n reads a slot of the fan-out source p on p's machine. */
  ghost predicate LocalConsumer(nodes: seq<Node>, n: Node, p: Node) {
    Consumes(nodes, n, p) && n.kind.Func? && n.kind.outputOffset.Some? && n.host == p.host
  }

  /** Slot x is read on machine m by a consumer of a fan-out source there. */
  ghost predicate FreesAt(nodes: seq<Node>, plan: FanoutPlan, m: nat, x: nat) {
    exists n, p :: LocalConsumer(nodes, n, p) && p.host == Some(m) && GivenArg(n, plan) == Some(x)
  }

  /** The i-th and j-th returned nodes are a source and its local consumer exactly when the given nodes are. */
  lemma {:induction false} ConsumerKept(
    nodes: seq<Node>, order: seq<nat>, machines: nat, out: seq<Node>, j: nat, i: nat)
    requires IsAssignment(nodes, order, machines, out) && i < |nodes| && j < |nodes| && |out| == |nodes|
    ensures IsFanout(out[i]) && ReadsSlotOf(out[j], out[i]) <==> LocalConsumer(nodes, nodes[j], nodes[i])
    ensures LocalConsumer(nodes, nodes[j], nodes[i]) ==>
              out[j].kind.arg.Some? && GivenArg(nodes[j], PlanOf(nodes, order, machines)) == Some(ArgOf(out[j]))
  {
    AssignmentKeeps(nodes, order, machines, out);
    var plan := PlanOf(nodes, order, machines);
    var p, a := StepOf(nodes, order, machines, out, i);
    var q, b := StepOf(nodes, order, machines, out, j);
    assert IsFanout(out[i]) == IsFanout(nodes[i]) by {
      var s := AssignUpTo(nodes, order, plan, p).value;
      SameFanout(nodes[i], s.outputs, s.next, plan, a);
    }
    var s := AssignUpTo(nodes, order, plan, q).value;
    SameFanout(nodes[j], s.outputs, s.next, plan, b);
    if LocalConsumer(nodes, nodes[j], nodes[i]) {
      HasFanoutDep(nodes, nodes[i], nodes[j].deps);
      FannedSlotIs(nodes, order, machines, nodes[j], nodes[j].deps);
      ConsumerArg(nodes[j], s.outputs, s.next, plan, b);
    }
  }

  lemma {:induction false} SameFanout(n: Node, outputs: map<Id, nat>, next: nat, plan: FanoutPlan, a: Assigned)
    requires AssignOne(n, outputs, next, plan) == Some(a)
    ensures a.node.host == n.host && a.node.deps == n.deps && a.node.id == n.id && a.node.kind.Func? == n.kind.Func?
    ensures n.kind.Func? ==> a.node.kind.outBase == n.kind.outBase && a.node.kind.outputOffset == n.kind.outputOffset
    ensures n.kind.FreeSlots? == a.node.kind.FreeSlots? && (n.kind.FreeSlots? ==> a.node == n)
  {
  }

  lemma {:induction false} ConsumerArg(n: Node, outputs: map<Id, nat>, next: nat, plan: FanoutPlan, a: Assigned)
    requires AssignOne(n, outputs, next, plan) == Some(a) && n.kind.Func? && n.kind.outputOffset.Some?
    requires FannedSlot(n.id, n.deps, plan.inputs).Some?
    ensures a.node.kind.Func? && a.node.kind.arg.Some? && GivenArg(n, plan) == a.node.kind.arg
  {
  }

  ghost predicate FreedOn(all: seq<Node>, m: nat, x: nat) {
    exists b :: b in all && b.host == Some(m) && x in Freed(b)
  }

  lemma {:induction false} ReaderSlot(out: seq<Node>, src: Node, b: Node, x: nat) returns (n: Node)
    requires IsFanout(src) && b in FreesFor(out, src) && x in Freed(b)
    ensures IsReader(out, src, n) && ArgOf(n) == x && b.host == src.host
  {
    FreesAfterReaders(out, src);
    n :| IsReader(out, src, n) && ArgOf(n) == x;
  }

  lemma {:induction false} FreedByConsumer(
    nodes: seq<Node>, order: seq<nat>, machines: nat, out: seq<Node>, b: Node, m: nat, x: nat)
    requires IsAssignment(nodes, order, machines, out) && b in WithFrees(out) && b.host == Some(m) && x in Freed(b)
    ensures FreesAt(nodes, PlanOf(nodes, order, machines), m, x) || FreedOn(nodes, m, x)
  {
    AssignmentKeeps(nodes, order, machines, out);
    if b in out {
      var i :| 0 <= i < |out| && out[i] == b;
      OwnFree(nodes, order, machines, out, i);
    } else {
      var f := (n: Node) => FreesFor(out, n);
      InFlatMap(out, f, b);
      var src :| src in out && b in f(src);
      var n := ReaderSlot(out, src, b, x);
      var i :| 0 <= i < |out| && out[i] == src;
      var j :| 0 <= j < |out| && out[j] == n;
      ConsumerKept(nodes, order, machines, out, j, i);
    }
  }

  /** Assignment makes and unmakes no free node. */
  lemma {:induction false} OwnFree(nodes: seq<Node>, order: seq<nat>, machines: nat, out: seq<Node>, i: nat)
    requires IsAssignment(nodes, order, machines, out) && i < |nodes|
    ensures i < |out| && nodes[i] in nodes && out[i] in out
    ensures out[i].kind.FreeSlots? == nodes[i].kind.FreeSlots? && (nodes[i].kind.FreeSlots? ==> out[i] == nodes[i])
  {
    var plan := PlanOf(nodes, order, machines);
    AssignmentKeeps(nodes, order, machines, out);
    var p, a := StepOf(nodes, order, machines, out, i);
    var s := AssignUpTo(nodes, order, plan, p).value;
    SameFanout(nodes[i], s.outputs, s.next, plan, a);
  }

  lemma {:induction false} ConsumerIsFreed(
    nodes: seq<Node>, order: seq<nat>, machines: nat, out: seq<Node>, n: Node, p: Node, x: nat)
    requires IsAssignment(nodes, order, machines, out) && LocalConsumer(nodes, n, p)
    requires GivenArg(n, PlanOf(nodes, order, machines)) == Some(x) && p.host.Some?
    ensures FreedOn(WithFrees(out), p.host.value, x)
  {
    AssignmentKeeps(nodes, order, machines, out);
    var i :| 0 <= i < |nodes| && nodes[i] == p;
    var j :| 0 <= j < |nodes| && nodes[j] == n;
    ConsumerKept(nodes, order, machines, out, j, i);
    assert IsReader(out, out[i], out[j]) && out[i] in out;
    FreesAfterReaders(out, out[i]);
    var f := (n: Node) => FreesFor(out, n);
    var b := f(out[i])[0];
    assert b in f(out[i]);
    InFlatMap(out, f, b);
    assert x in b.kind.stream;
    assert b in WithFrees(out) && b.host == Some(p.host.value) && x in Freed(b);
  }

  /** A slot is freed on a machine if and only if a fan-out consumer there reads it from a source there, or the graph
      has a free node of its own for it. */
  lemma {:induction false} FreedIff(nodes: seq<Node>, order: seq<nat>, machines: nat, out: seq<Node>, m: nat, x: nat)
    requires IsAssignment(nodes, order, machines, out)
    ensures FreedOn(WithFrees(out), m, x)
       <==> FreesAt(nodes, PlanOf(nodes, order, machines), m, x) || FreedOn(nodes, m, x)
  {
    if FreedOn(WithFrees(out), m, x) {
      var b :| b in WithFrees(out) && b.host == Some(m) && x in Freed(b);
      FreedByConsumer(nodes, order, machines, out, b, m, x);
    }
    if FreesAt(nodes, PlanOf(nodes, order, machines), m, x) {
      var n, p :| LocalConsumer(nodes, n, p) && p.host == Some(m)
                  && GivenArg(n, PlanOf(nodes, order, machines)) == Some(x);
      ConsumerIsFreed(nodes, order, machines, out, n, p, x);
    }
    if FreedOn(nodes, m, x) {
      var b :| b in nodes && b.host == Some(m) && x in Freed(b);
      var i :| 0 <= i < |nodes| && nodes[i] == b;
      OwnFree(nodes, order, machines, out, i);
      assert b in WithFrees(out);
    }
  }

  // ---------------------------------------------------------------------------
  // The usual case
  // ---------------------------------------------------------------------------

  /** Every freed slot is one that was planned for a fan-out consumer: no free nodes in the graph itself, and no
      local consumer with an argument or a base of its own. */
  ghost predicate FreesPlanned(nodes: seq<Node>) {
    && (forall n :: n in nodes ==> !n.kind.FreeSlots?)
    && forall n, p :: LocalConsumer(nodes, n, p) ==> OffsetFunc(n)
  }

  ghost predicate PlannedSlot(plan: FanoutPlan, x: nat) {
    exists k :: k in plan.inputs && plan.inputs[k] == x
  }

  lemma {:induction false} FreedIsPlanned(
    nodes: seq<Node>, order: seq<nat>, machines: nat, out: seq<Node>, m: nat, x: nat)
    requires IsAssignment(nodes, order, machines, out) && FreesPlanned(nodes) && FreedOn(WithFrees(out), m, x)
    ensures PlannedSlot(PlanOf(nodes, order, machines), x) && x < PlanOf(nodes, order, machines).nextSlot
  {
    var plan := PlanOf(nodes, order, machines);
    FreedIff(nodes, order, machines, out, m, x);
    var n, p :| LocalConsumer(nodes, n, p) && p.host == Some(m) && GivenArg(n, plan) == Some(x);
    FannedSlotIs(nodes, order, machines, n, n.deps);
    var k := (FirstFanoutDep(nodes, n.deps).value.id, n.id);
    assert k in plan.inputs && plan.inputs[k] == x;
    PlannedBelow(nodes, order, machines, k);
  }

  /** The i-th node owns no planned slot: it is an Aggregate left to the assigner, or its slot is another. */
  ghost predicate OwnsNoPlanned(nodes: seq<Node>, plan: FanoutPlan, out: seq<Node>, i: nat)
    requires i < |nodes| && i < |out|
  {
    AutoAggregate(nodes[i]) || (SlotOf(out[i]).Some? ==> !PlannedSlot(plan, SlotOf(out[i]).value))
  }

  lemma {:induction false} OwnsNoFreed(nodes: seq<Node>, order: seq<nat>, machines: nat, out: seq<Node>, i: nat, m: nat)
    requires IsAssignment(nodes, order, machines, out) && FreesPlanned(nodes) && i < |nodes| && i < |out|
    requires OwnsNoPlanned(nodes, PlanOf(nodes, order, machines), out, i) && SlotOf(out[i]).Some?
    ensures !FreedOn(WithFrees(out), m, SlotOf(out[i]).value)
  {
    if FreedOn(WithFrees(out), m, SlotOf(out[i]).value) {
      FreedIsPlanned(nodes, order, machines, out, m, SlotOf(out[i]).value);
      if AutoAggregate(nodes[i]) { AutoSlotAbove(nodes, order, machines, out, i); }
    }
  }

  /** In the usual case nothing that is read or sent is freed. */
  lemma {:induction false} UsualFrees(nodes: seq<Node>, order: seq<nat>, machines: nat, out: seq<Node>)
    requires IsAssignment(nodes, order, machines, out) && FreesPlanned(nodes) && |out| == |nodes|
    requires forall i :: 0 <= i < |nodes| && Needed(WithFrees(out), out[i].id) ==>
                           OwnsNoPlanned(nodes, PlanOf(nodes, order, machines), out, i)
    ensures NeededKept(WithFrees(out))
    ensures PlanOf(nodes, order, machines).nextSlot <= U32_MAX + 1 ==> FreesFit(WithFrees(out))
  {
    var all := WithFrees(out);
    AssignmentKeeps(nodes, order, machines, out);
    forall d, b | d in all && b in all && FreesSlotOf(b, d) ensures !Needed(all, d.id) {
      FreeHost(nodes, order, machines, out, b);
      assert FreedOn(all, b.host.value, SlotOf(d).value);
      if d !in out {
        FreeHasNoSlot(out, d);
      } else if Needed(all, d.id) {
        var i :| 0 <= i < |out| && out[i] == d;
        OwnsNoFreed(nodes, order, machines, out, i, b.host.value);
      }
    }
    if PlanOf(nodes, order, machines).nextSlot <= U32_MAX + 1 {
      forall b, x | b in all && x in Freed(b) ensures x <= U32_MAX {
        FreeHost(nodes, order, machines, out, b);
        assert FreedOn(all, b.host.value, x);
        FreedIsPlanned(nodes, order, machines, out, b.host.value, x);
      }
    }
  }

  lemma {:induction false} FreeHasNoSlot(out: seq<Node>, d: Node)
    requires d in WithFrees(out) && d !in out
    ensures SlotOf(d).None? && d.host.Some?
  {
    var f := (n: Node) => FreesFor(out, n);
    InFlatMap(out, f, d);
    var o :| o in out && d in f(o);
  }

  /** In a graph without free nodes of its own, every free node was injected and has a machine. */
  lemma {:induction false} FreeHost(nodes: seq<Node>, order: seq<nat>, machines: nat, out: seq<Node>, b: Node)
    requires IsAssignment(nodes, order, machines, out) && FreesPlanned(nodes) && b in WithFrees(out) && Freed(b) != {}
    ensures b.host.Some?
  {
    AssignmentKeeps(nodes, order, machines, out);
    if b in out {
      var i :| 0 <= i < |out| && out[i] == b;
      OwnFree(nodes, order, machines, out, i);
    } else {
      FreeHasNoSlot(out, b);
    }
  }
}
