/** What slot assignment guarantees about the nodes it returns. */
module SlotProofs {
  import opened Prelude
  import opened Sequences
  import opened SymbolicDag
  import opened Topo
  import opened Slots

  // ---------------------------------------------------------------------------
  // Phase 1: the fan-out plan
  // ---------------------------------------------------------------------------

  /** The consumers cs of src hold consecutive slots from base, all below nextSlot. */
  ghost predicate HoldsRange(plan: FanoutPlan, src: Id, base: nat, cs: seq<Id>) {
    && src in plan.bases && plan.bases[src] == base
    && forall c :: 0 <= c < |cs| ==>
                     (src, cs[c]) in plan.inputs && plan.inputs[(src, cs[c])] == base + c && base + c < plan.nextSlot
  }

  /** Entry k is recorded with its effective base. */
  ghost predicate Recorded(nodes: seq<Node>, es: seq<Entry>, k: nat, plan: FanoutPlan)
    requires k < |es|
  {
    var src := SourceId(nodes, es[k]);
    HoldsRange(plan, src, EffectiveBase(nodes, es, k), Consumers(nodes, src))
  }

  /** `plan` extends `before` except at source `src`. */
  ghost predicate ExtendsExcept(before: FanoutPlan, plan: FanoutPlan, src: Id) {
    && plan.nextSlot >= before.nextSlot
    && (forall x :: x != src ==> (x in plan.bases <==> x in before.bases))
    && (forall x :: x in before.bases && x != src ==> plan.bases[x] == before.bases[x])
    && (forall p: (Id, Id) :: p.0 != src ==> (p in plan.inputs <==> p in before.inputs))
    && forall p :: p in before.inputs && p.0 != src ==> plan.inputs[p] == before.inputs[p]
  }

  lemma {:induction false} GivenInputsAt(src: Id, base: nat, cs: seq<Id>, c: nat, inputs: map<(Id, Id), nat>)
    requires c <= |cs| && forall i, j :: 0 <= i < j < |cs| ==> cs[i] != cs[j]
    ensures var g := GivenInputs(src, base, cs, c, inputs);
            && (forall k :: 0 <= k < c ==> (src, cs[k]) in g && g[(src, cs[k])] == base + k)
            && (forall p: (Id, Id) :: p.0 != src ==> (p in g <==> p in inputs))
            && (forall p :: p in inputs && p.0 != src ==> g[p] == inputs[p])
            && (forall p :: p in g ==> p in inputs || (p.0 == src && p.1 in cs))
  {
    if c > 0 { GivenInputsAt(src, base, cs, c - 1, inputs); }
  }

  lemma {:induction false} GivenHolds(src: Id, base: nat, cs: seq<Id>, before: FanoutPlan, plan: FanoutPlan)
    requires plan == Given(src, base, cs, |cs|, before) && forall i, j :: 0 <= i < j < |cs| ==> cs[i] != cs[j]
    ensures HoldsRange(plan, src, base, cs) && ExtendsExcept(before, plan, src)
    ensures forall p :: p in plan.inputs ==> p in before.inputs || (p.0 == src && p.1 in cs)
  {
    GivenInputsAt(src, base, cs, |cs|, before.inputs);
  }

  lemma {:induction false} RangeKept(
    before: FanoutPlan, plan: FanoutPlan, src: Id, other: Id, base: nat, cs: seq<Id>)
    requires ExtendsExcept(before, plan, src) && other != src && HoldsRange(before, other, base, cs)
    ensures HoldsRange(plan, other, base, cs)
  {
    assert other in before.bases;
    forall c | 0 <= c < |cs|
      ensures (other, cs[c]) in plan.inputs && plan.inputs[(other, cs[c])] == base + c && base + c < plan.nextSlot
    {
      var p := (other, cs[c]);
      assert p in before.inputs && p.0 != src;
    }
  }

  /** What is recorded in `before` stays recorded in `plan`, entry k excepted. */
  lemma {:induction false} OtherKept(
    nodes: seq<Node>, es: seq<Entry>, k: nat, j: nat, before: FanoutPlan, plan: FanoutPlan)
    requires DistinctIds(nodes) && GoodEntries(nodes, es) && k < |es| && j < |es| && j != k
    requires ExtendsExcept(before, plan, SourceId(nodes, es[k])) && Recorded(nodes, es, j, before)
    ensures Recorded(nodes, es, j, plan)
  {
    DistinctAt(nodes, es[j].idx, es[k].idx);
    var src, other := SourceId(nodes, es[k]), SourceId(nodes, es[j]);
    RangeKept(before, plan, src, other, EffectiveBase(nodes, es, j), Consumers(nodes, other));
  }

  lemma {:induction false} MachinePlanRecords(
    nodes: seq<Node>, es: seq<Entry>, m: nat, k: nat, before: FanoutPlan, j: nat)
    requires DistinctIds(nodes) && GoodEntries(nodes, es) && k <= |es| && j < |es|
    requires if es[j].machine == m then j < k else Recorded(nodes, es, j, before)
    ensures Recorded(nodes, es, j, MachinePlan(nodes, es, m, k, before))
  {
    if k > 0 {
      var was, plan := MachinePlan(nodes, es, m, k - 1, before), MachinePlan(nodes, es, m, k, before);
      var src := SourceId(nodes, es[k - 1]);
      if es[j].machine != m || j < k - 1 { MachinePlanRecords(nodes, es, m, k - 1, before, j); }
      if es[k - 1].machine == m {
        ConsumersOf(nodes, src);
        GivenHolds(src, EffectiveBase(nodes, es, k - 1), Consumers(nodes, src), was, plan);
        if j != k - 1 { OtherKept(nodes, es, k - 1, j, was, plan); }
      }
    }
  }

  lemma {:induction false} PlanRecords(nodes: seq<Node>, es: seq<Entry>, m: nat, j: nat)
    requires DistinctIds(nodes) && GoodEntries(nodes, es) && j < |es| && es[j].machine < m
    ensures Recorded(nodes, es, j, PlanUpTo(nodes, es, m))
  {
    if es[j].machine < m - 1 { PlanRecords(nodes, es, m - 1, j); }
    MachinePlanRecords(nodes, es, m - 1, |es|, PlanUpTo(nodes, es, m - 1), j);
  }

  /** x names the source of some entry. */
  ghost predicate IsSourceOf(nodes: seq<Node>, es: seq<Entry>, x: Id) {
    exists k :: 0 <= k < |es| && SourceId(nodes, es[k]) == x
  }

  ghost predicate OnlySources(nodes: seq<Node>, es: seq<Entry>, plan: FanoutPlan) {
    && (forall x :: x in plan.bases ==> IsSourceOf(nodes, es, x))
    && forall p :: p in plan.inputs ==> IsSourceOf(nodes, es, p.0) && p.1 in Consumers(nodes, p.0)
  }

  lemma {:induction false} MachinePlanOnly(nodes: seq<Node>, es: seq<Entry>, m: nat, k: nat, before: FanoutPlan)
    requires DistinctIds(nodes) && k <= |es| && OnlySources(nodes, es, before)
    ensures OnlySources(nodes, es, MachinePlan(nodes, es, m, k, before))
  {
    if k > 0 {
      MachinePlanOnly(nodes, es, m, k - 1, before);
      var src := SourceId(nodes, es[k - 1]);
      assert IsSourceOf(nodes, es, src);
      if es[k - 1].machine == m {
        ConsumersOf(nodes, src);
        GivenHolds(src, EffectiveBase(nodes, es, k - 1), Consumers(nodes, src),
                   MachinePlan(nodes, es, m, k - 1, before), MachinePlan(nodes, es, m, k, before));
      }
    }
  }

  lemma {:induction false} PlanOnly(nodes: seq<Node>, es: seq<Entry>, m: nat)
    requires DistinctIds(nodes)
    ensures OnlySources(nodes, es, PlanUpTo(nodes, es, m))
  {
    if m > 0 {
      PlanOnly(nodes, es, m - 1);
      MachinePlanOnly(nodes, es, m - 1, |es|, PlanUpTo(nodes, es, m - 1));
    }
  }

  /** Distinct names, all of the nodes in the order, hosts below the machine count. */
  ghost predicate Assignable(nodes: seq<Node>, order: seq<nat>, machines: nat) {
    && DistinctIds(nodes) && IsPermutation(order, |nodes|)
    && forall n :: n in nodes && n.host.Some? ==> n.host.value < machines
  }

  /** Every fan-out source has its entry. */
  lemma {:induction false} EntryOf(nodes: seq<Node>, order: seq<nat>, p: Node) returns (k: nat)
    requires DistinctIds(nodes) && IsPermutation(order, |nodes|) && p in nodes && IsFanout(p)
    ensures var es := FanoutEntries(nodes, order);
            k < |es| && SourceId(nodes, es[k]) == p.id && es[k].machine == p.host.value && GoodEntries(nodes, es)
  {
    var f := (i: nat) => EntryAt(nodes, i);
    var i :| 0 <= i < |nodes| && nodes[i] == p;
    PermutationCovers(order, |nodes|, i);
    var e := Entry(p.host.value, p.kind.outBase.value, i);
    assert e in f(i);
    InFlatMap(order, f, e);
    EntriesAreGood(nodes, order);
    k :| 0 <= k < |FanoutEntries(nodes, order)| && FanoutEntries(nodes, order)[k] == e;
  }

  /** Every entry is a fan-out source. */
  lemma {:induction false} SourceOf(nodes: seq<Node>, order: seq<nat>, x: Id) returns (p: Node)
    requires IsPermutation(order, |nodes|) && IsSourceOf(nodes, FanoutEntries(nodes, order), x)
    ensures p in nodes && IsFanout(p) && p.id == x
  {
    var es := FanoutEntries(nodes, order);
    var k :| 0 <= k < |es| && SourceId(nodes, es[k]) == x;
    EntriesAreGood(nodes, order);
    assert es[k] in es && [es[k]] == EntryAt(nodes, es[k].idx);
    p := nodes[es[k].idx];
  }

  /** n consumes the fan-out source p. */
  ghost predicate Consumes(nodes: seq<Node>, n: Node, p: Node) {
    n in nodes && p in nodes && IsFanout(p) && p.id in n.deps
  }

  /** The slot a consumer reads is its source's base plus its place among the consumers. */
  lemma {:induction false} ConsumerSlot(
    nodes: seq<Node>, order: seq<nat>, machines: nat, n: Node, p: Node) returns (k: nat, c: nat)
    requires Assignable(nodes, order, machines) && Consumes(nodes, n, p)
    ensures var es, plan := FanoutEntries(nodes, order), PlanOf(nodes, order, machines);
            && k < |es| && SourceId(nodes, es[k]) == p.id && es[k].machine == p.host.value && c < Width(nodes, es[k])
            && Consumers(nodes, p.id)[c] == n.id
            && (p.id, n.id) in plan.inputs
            && plan.inputs[(p.id, n.id)] == EffectiveBase(nodes, es, k) + c < plan.nextSlot
  {
    var es := FanoutEntries(nodes, order);
    k := EntryOf(nodes, order, p);
    PlanRecords(nodes, es, machines, k);
    ConsumersOf(nodes, p.id);
    assert n.id in Consumers(nodes, p.id);
    c :| 0 <= c < |Consumers(nodes, p.id)| && Consumers(nodes, p.id)[c] == n.id;
  }

  /** Consumers of fan-out sources on one machine never share a slot, whatever their sources. */
  lemma {:induction false} ConsumerSlotsApart(
    nodes: seq<Node>, order: seq<nat>, machines: nat, n: Node, p: Node, n': Node, p': Node)
    requires Assignable(nodes, order, machines) && Consumes(nodes, n, p) && Consumes(nodes, n', p')
    requires p.host == p'.host && (n.id, p.id) != (n'.id, p'.id)
    ensures var plan := PlanOf(nodes, order, machines);
            && (p.id, n.id) in plan.inputs && (p'.id, n'.id) in plan.inputs
            && plan.inputs[(p.id, n.id)] != plan.inputs[(p'.id, n'.id)]
  {
    var es := FanoutEntries(nodes, order);
    var k, c := ConsumerSlot(nodes, order, machines, n, p);
    var k', c' := ConsumerSlot(nodes, order, machines, n', p');
    if k < k' {
      RangesDisjoint(nodes, es, k, k');
    } else if k' < k {
      RangesDisjoint(nodes, es, k', k);
    }
  }

  /** The first dep that names a fan-out source. */
  function FirstFanoutDep(nodes: seq<Node>, deps: seq<Id>): (r: Option<Node>)
    ensures r.Some? ==> r.value in nodes && IsFanout(r.value) && r.value.id in deps
  {
    if deps == [] then None
    else
      var p := Lookup(nodes, deps[0]);
      if p.Some? && IsFanout(p.value) then p else FirstFanoutDep(nodes, deps[1..])
  }

  lemma {:induction false} InputsIff(nodes: seq<Node>, order: seq<nat>, machines: nat, n: Node, d: Id)
    requires Assignable(nodes, order, machines) && n in nodes && d in n.deps
    ensures (d, n.id) in PlanOf(nodes, order, machines).inputs
       <==> Lookup(nodes, d).Some? && IsFanout(Lookup(nodes, d).value)
  {
    var es, plan := FanoutEntries(nodes, order), PlanOf(nodes, order, machines);
    var l := Lookup(nodes, d);
    if l.Some? && IsFanout(l.value) {
      var _, _ := ConsumerSlot(nodes, order, machines, n, l.value);
    }
    if (d, n.id) in plan.inputs {
      PlanOnly(nodes, es, machines);
      var p := SourceOf(nodes, order, d);
      LookupUnique(nodes, p);
    }
  }

  /** A consumer reads the slot of the first fan-out source among its deps. */
  lemma {:induction false} FannedSlotIs(nodes: seq<Node>, order: seq<nat>, machines: nat, n: Node, deps: seq<Id>)
    requires Assignable(nodes, order, machines) && n in nodes && forall d :: d in deps ==> d in n.deps
    ensures var plan, p := PlanOf(nodes, order, machines), FirstFanoutDep(nodes, deps);
            && (p.Some? ==> (p.value.id, n.id) in plan.inputs)
            && FannedSlot(n.id, deps, plan.inputs) == if p.Some? then Some(plan.inputs[(p.value.id, n.id)]) else None
  {
    if deps != [] {
      InputsIff(nodes, order, machines, n, deps[0]);
      FannedSlotIs(nodes, order, machines, n, deps[1..]);
    }
  }

  // ---------------------------------------------------------------------------
  // Phase 2: what each node is assigned
  // ---------------------------------------------------------------------------

  /** Nodes that record an output slot for their dependents. */
  predicate Records(n: Node) {
    match n.kind
    case Input(_, _, _, _, _) => true
    case Func(_, _, _, _, _, _) => true
    case Aggregate(_, _, _) => true
    case StreamPipeline(_, stages, _, _, _, _) => stages != [] && stages[|stages| - 1].arg1.Some?
    case _ => false
  }

  /** Nodes that write a stream slot of their own (an Input reads into an I/O slot, and a fan-out source
      writes its consumers' slots). */
  predicate WritesStream(n: Node) {
    !n.kind.Input? && !(n.kind.Func? && n.kind.arg.None? && n.kind.outBase.Some?)
  }

  /** An Aggregate that leaves its downstream slot to the assigner. */
  predicate AutoAggregate(n: Node) {
    n.kind.Aggregate? && n.kind.downstream.None?
  }

  /** A Func that writes a fixed distance above its input slot. */
  predicate OffsetFunc(n: Node) {
    n.kind.Func? && n.kind.arg.None? && n.kind.outBase.None? && n.kind.outputOffset.Some?
  }

  /** Nodes that cannot be assigned without the slot of their last dep. */
  predicate NeedsDepSlot(n: Node) {
    n.kind.Output? || (n.kind.Func? && n.kind.arg.None? && n.kind.outBase.None?)
  }

  lemma {:induction false} AssignOneKeeps(n: Node, outputs: map<Id, nat>, next: nat, plan: FanoutPlan, a: Assigned)
    requires AssignOne(n, outputs, next, plan) == Some(a) && next >= 2
    ensures a.node.id == n.id && a.node.deps == n.deps && a.node.host == n.host && a.next >= next
    ensures a.output.Some? <==> Records(n)
    ensures WritesStream(n) && a.output.Some? ==> a.output.value < a.next
    ensures AutoAggregate(n) ==> && a.output == Some(next) && a.node.kind.Aggregate?
                                 && a.node.kind.downstream == Some(next) && a.node.outputSlot == Some(next)
  {
  }

  /** A node is refused exactly when it needs its last dep's slot, no fan-out feeds it, and none is recorded. */
  lemma {:induction false} RefusedIff(n: Node, outputs: map<Id, nat>, next: nat, plan: FanoutPlan)
    ensures AssignOne(n, outputs, next, plan).None? <==>
            && NeedsDepSlot(n) && DepOutputSlot(n.deps, outputs).None?
            && !(OffsetFunc(n) && FannedSlot(n.id, n.deps, plan.inputs).Some?)
  {
  }

  ghost predicate SameHosts(a: seq<Node>, b: seq<Node>) {
    |a| == |b| && forall i :: 0 <= i < |a| ==> a[i].host == b[i].host
  }

  /** Assignment keeps names, deps and hosts, touches only the nodes it has reached, and never lowers the next slot. */
  lemma {:induction false} AssignKeeps(nodes: seq<Node>, order: seq<nat>, plan: FanoutPlan, k: nat)
    requires k <= |order| && IsPermutation(order, |nodes|) && plan.nextSlot >= 2
    requires AssignUpTo(nodes, order, plan, k).Some?
    ensures var s := AssignUpTo(nodes, order, plan, k).value;
            && SameShape(nodes, s.nodes) && SameHosts(nodes, s.nodes) && s.next >= plan.nextSlot
            && forall j :: k <= j < |order| ==> s.nodes[order[j]] == nodes[order[j]]
  {
    if k > 0 {
      AssignKeeps(nodes, order, plan, k - 1);
      var s := AssignUpTo(nodes, order, plan, k - 1).value;
      var n := nodes[order[k - 1]];
      AssignOneKeeps(n, s.outputs, s.next, plan, AssignOne(n, s.outputs, s.next, plan).value);
    }
  }

  /** The p-th node of the order was assigned a. */
  ghost predicate WasAssigned(nodes: seq<Node>, order: seq<nat>, plan: FanoutPlan, p: nat, a: Assigned)
    requires p < |order| && InRange(nodes, order)
  {
    var s := AssignUpTo(nodes, order, plan, p);
    s.Some? && AssignOne(nodes[order[p]], s.value.outputs, s.value.next, plan) == Some(a)
  }

  /** The returned node is the one its own step produced; what it recorded stays recorded. */
  lemma {:induction false} AssignedAt(
    nodes: seq<Node>, order: seq<nat>, plan: FanoutPlan, p: nat, k: nat) returns (a: Assigned)
    requires p < k <= |order| && IsPermutation(order, |nodes|) && plan.nextSlot >= 2 && DistinctIds(nodes)
    requires AssignUpTo(nodes, order, plan, k).Some?
    ensures WasAssigned(nodes, order, plan, p, a)
    ensures var s := AssignUpTo(nodes, order, plan, k).value;
            && s.nodes[order[p]] == a.node && a.next <= s.next
            && (a.output.Some? ==> nodes[order[p]].id in s.outputs && s.outputs[nodes[order[p]].id] == a.output.value)
    decreases k
  {
    var s, n := AssignUpTo(nodes, order, plan, k - 1).value, nodes[order[k - 1]];
    AssignKeeps(nodes, order, plan, k - 1);
    var b := AssignOne(n, s.outputs, s.next, plan).value;
    AssignOneKeeps(n, s.outputs, s.next, plan, b);
    if p == k - 1 {
      a := b;
    } else {
      a := AssignedAt(nodes, order, plan, p, k - 1);
      DistinctAt(nodes, order[p], order[k - 1]);
    }
  }

  /** A slot is recorded for x exactly when a recording node named x was reached. */
  ghost predicate RecordedBefore(nodes: seq<Node>, order: seq<nat>, k: nat, x: Id)
    requires InRange(nodes, order)
  {
    exists p :: 0 <= p < k && p < |order| && nodes[order[p]].id == x && Records(nodes[order[p]])
  }

  lemma {:induction false} OutputsIff(nodes: seq<Node>, order: seq<nat>, plan: FanoutPlan, k: nat, x: Id)
    requires k <= |order| && IsPermutation(order, |nodes|) && plan.nextSlot >= 2
    requires AssignUpTo(nodes, order, plan, k).Some?
    ensures x in AssignUpTo(nodes, order, plan, k).value.outputs <==> RecordedBefore(nodes, order, k, x)
  {
    if k > 0 {
      var s, n := AssignUpTo(nodes, order, plan, k - 1).value, nodes[order[k - 1]];
      AssignKeeps(nodes, order, plan, k - 1);
      OutputsIff(nodes, order, plan, k - 1, x);
      AssignOneKeeps(n, s.outputs, s.next, plan, AssignOne(n, s.outputs, s.next, plan).value);
      if RecordedBefore(nodes, order, k - 1, x) {
        var p :| 0 <= p < k - 1 && nodes[order[p]].id == x && Records(nodes[order[p]]);
        assert 0 <= p < k;
      }
    }
  }

  lemma {:induction false} MachinePlanNext(nodes: seq<Node>, es: seq<Entry>, m: nat, k: nat, before: FanoutPlan)
    requires k <= |es|
    ensures MachinePlan(nodes, es, m, k, before).nextSlot >= before.nextSlot
  {
    if k > 0 { MachinePlanNext(nodes, es, m, k - 1, before); }
  }

  lemma {:induction false} PlanNext(nodes: seq<Node>, es: seq<Entry>, m: nat)
    ensures PlanUpTo(nodes, es, m).nextSlot >= 2
  {
    if m > 0 {
      PlanNext(nodes, es, m - 1);
      MachinePlanNext(nodes, es, m - 1, |es|, PlanUpTo(nodes, es, m - 1));
    }
  }

  // ---------------------------------------------------------------------------
  // The returned nodes
  // ---------------------------------------------------------------------------

  /** out is the result of slot assignment along the order. */
  ghost predicate IsAssignment(nodes: seq<Node>, order: seq<nat>, machines: nat, out: seq<Node>) {
    && Assignable(nodes, order, machines) && Assignment(nodes, order, machines).Some?
    && out == Assignment(nodes, order, machines).value.nodes
  }

  /** The step that produced the i-th returned node. */
  lemma {:induction false} StepOf(nodes: seq<Node>, order: seq<nat>, machines: nat, out: seq<Node>, i: nat)
    returns (p: nat, a: Assigned)
    requires IsAssignment(nodes, order, machines, out) && i < |nodes|
    ensures var plan := PlanOf(nodes, order, machines);
            p < |order| && order[p] == i && WasAssigned(nodes, order, plan, p, a) && out[i] == a.node
    ensures a.output.Some? ==> var outputs := Assignment(nodes, order, machines).value.outputs;
                               nodes[i].id in outputs && outputs[nodes[i].id] == a.output.value
  {
    PermutationCovers(order, |nodes|, i);
    p :| 0 <= p < |order| && order[p] == i;
    PlanNext(nodes, FanoutEntries(nodes, order), machines);
    a := AssignedAt(nodes, order, PlanOf(nodes, order, machines), p, |order|);
  }

  /** Assignment keeps names, deps and hosts. */
  lemma {:induction false} AssignmentKeeps(nodes: seq<Node>, order: seq<nat>, machines: nat, out: seq<Node>)
    requires IsAssignment(nodes, order, machines, out)
    ensures SameShape(nodes, out) && SameHosts(nodes, out)
  {
    PlanNext(nodes, FanoutEntries(nodes, order), machines);
    AssignKeeps(nodes, order, PlanOf(nodes, order, machines), |order|);
  }

  /** An offset Func behind a fan-out reads the slot planned for it and writes its offset above. */
  lemma {:induction false} FannedArg(nodes: seq<Node>, order: seq<nat>, machines: nat, out: seq<Node>, i: nat)
    requires IsAssignment(nodes, order, machines, out) && i < |nodes| && OffsetFunc(nodes[i])
    requires FirstFanoutDep(nodes, nodes[i].deps).Some?
    ensures var plan, src := PlanOf(nodes, order, machines), FirstFanoutDep(nodes, nodes[i].deps).value;
            && i < |out| && (src.id, nodes[i].id) in plan.inputs && out[i].kind.Func?
            && out[i].kind.arg == Some(plan.inputs[(src.id, nodes[i].id)])
            && out[i].outputSlot == Some(plan.inputs[(src.id, nodes[i].id)] + nodes[i].kind.outputOffset.value)
  {
    var p, a := StepOf(nodes, order, machines, out, i);
    FannedSlotIs(nodes, order, machines, nodes[i], nodes[i].deps);
  }

  /** Offset Funcs fed by fan-out sources on one machine never read the same slot. */
  lemma {:induction false} FannedArgsApart(
    nodes: seq<Node>, order: seq<nat>, machines: nat, out: seq<Node>, i: nat, j: nat)
    requires IsAssignment(nodes, order, machines, out) && i < |nodes| && j < |nodes| && i != j
    requires OffsetFunc(nodes[i]) && OffsetFunc(nodes[j])
    requires var p, q := FirstFanoutDep(nodes, nodes[i].deps), FirstFanoutDep(nodes, nodes[j].deps);
             p.Some? && q.Some? && p.value.host == q.value.host
    ensures i < |out| && j < |out| && out[i].kind.Func? && out[j].kind.Func? && out[i].kind.arg != out[j].kind.arg
  {
    var p, q := FirstFanoutDep(nodes, nodes[i].deps).value, FirstFanoutDep(nodes, nodes[j].deps).value;
    FannedArg(nodes, order, machines, out, i);
    FannedArg(nodes, order, machines, out, j);
    DistinctAt(nodes, i, j);
    ConsumerSlotsApart(nodes, order, machines, nodes[i], p, nodes[j], q);
  }

  /** A fan-out source without an explicit argument is given its effective base. */
  lemma {:induction false} SourceArg(nodes: seq<Node>, order: seq<nat>, machines: nat, out: seq<Node>, i: nat)
    requires IsAssignment(nodes, order, machines, out) && i < |nodes| && IsFanout(nodes[i]) && nodes[i].kind.arg.None?
    ensures var es := FanoutEntries(nodes, order);
            i < |out| && out[i].kind.Func? && exists k :: 0 <= k < |es| && SourceId(nodes, es[k]) == nodes[i].id
                                                          && out[i].kind.arg == Some(EffectiveBase(nodes, es, k))
  {
    var p, a := StepOf(nodes, order, machines, out, i);
    var k := EntryOf(nodes, order, nodes[i]);
    PlanRecords(nodes, FanoutEntries(nodes, order), machines, k);
  }

  /** The slot the i-th node records; 0 if it records none. */
  ghost function RecordedSlot(nodes: seq<Node>, order: seq<nat>, machines: nat, i: nat): nat
    requires InRange(nodes, order) && i < |nodes|
  {
    var r := Assignment(nodes, order, machines);
    if r.Some? && nodes[i].id in r.value.outputs then r.value.outputs[nodes[i].id] else 0
  }

  /** An auto-allocated Aggregate slot lies above the fan-out plan. */
  lemma {:induction false} AutoSlotAbove(nodes: seq<Node>, order: seq<nat>, machines: nat, out: seq<Node>, i: nat)
    requires IsAssignment(nodes, order, machines, out) && i < |nodes| && AutoAggregate(nodes[i])
    ensures i < |out| && out[i].kind.Aggregate? && out[i].kind.downstream.Some?
    ensures out[i].outputSlot == out[i].kind.downstream
    ensures out[i].kind.downstream.value >= PlanOf(nodes, order, machines).nextSlot
  {
    var plan := PlanOf(nodes, order, machines);
    PlanNext(nodes, FanoutEntries(nodes, order), machines);
    var q, b := StepOf(nodes, order, machines, out, i);
    var s := AssignUpTo(nodes, order, plan, q).value;
    AssignKeeps(nodes, order, plan, q);
    AssignOneKeeps(nodes[i], s.outputs, s.next, plan, b);
  }

  /** Every planned consumer slot lies below the next free one. */
  lemma {:induction false} PlannedBelow(nodes: seq<Node>, order: seq<nat>, machines: nat, k: (Id, Id))
    requires Assignable(nodes, order, machines) && k in PlanOf(nodes, order, machines).inputs
    ensures PlanOf(nodes, order, machines).inputs[k] < PlanOf(nodes, order, machines).nextSlot
  {
    PlanOnly(nodes, FanoutEntries(nodes, order), machines);
    var p := SourceOf(nodes, order, k.0);
    ConsumersOf(nodes, k.0);
    var n :| n in nodes && n.id == k.1 && k.0 in n.deps;
    var _, _ := ConsumerSlot(nodes, order, machines, n, p);
  }

  /** An auto-allocated Aggregate slot exceeds every stream slot recorded before it in the order. */
  lemma {:induction false} AutoSlotFresh(
    nodes: seq<Node>, order: seq<nat>, machines: nat, out: seq<Node>, p: nat, q: nat)
    requires IsAssignment(nodes, order, machines, out) && p < q < |order| && AutoAggregate(nodes[order[q]])
    ensures order[q] < |out| && out[order[q]].kind.Aggregate? && out[order[q]].kind.downstream.Some?
    ensures WritesStream(nodes[order[p]]) && Records(nodes[order[p]]) ==>
              RecordedSlot(nodes, order, machines, order[p]) < out[order[q]].kind.downstream.value
  {
    AutoSlotAbove(nodes, order, machines, out, order[q]);
    var plan := PlanOf(nodes, order, machines);
    PlanNext(nodes, FanoutEntries(nodes, order), machines);
    var p', a := StepOf(nodes, order, machines, out, order[p]);
    var q', b := StepOf(nodes, order, machines, out, order[q]);
    assert p' == p && q' == q;
    var s := AssignUpTo(nodes, order, plan, q).value;
    AssignKeeps(nodes, order, plan, q);
    AssignOneKeeps(nodes[order[q]], s.outputs, s.next, plan, b);
    var c := AssignedAt(nodes, order, plan, p, q);
    AssignKeeps(nodes, order, plan, p);
    var t := AssignUpTo(nodes, order, plan, p).value;
    AssignOneKeeps(nodes[order[p]], t.outputs, t.next, plan, a);
  }

  /** No two auto-allocated Aggregates share a slot, on any machines. */
  lemma {:induction false} AutoSlotsApart(
    nodes: seq<Node>, order: seq<nat>, machines: nat, out: seq<Node>, p: nat, q: nat)
    requires IsAssignment(nodes, order, machines, out) && p < q < |order|
    requires AutoAggregate(nodes[order[p]]) && AutoAggregate(nodes[order[q]])
    ensures order[p] < |out| && order[q] < |out| && out[order[p]].kind.Aggregate? && out[order[q]].kind.Aggregate?
    ensures out[order[p]].kind.downstream.Some? && out[order[q]].kind.downstream.Some?
    ensures out[order[p]].kind.downstream.value < out[order[q]].kind.downstream.value
  {
    AutoSlotFresh(nodes, order, machines, out, p, q);
    var plan := PlanOf(nodes, order, machines);
    PlanNext(nodes, FanoutEntries(nodes, order), machines);
    var p', a := StepOf(nodes, order, machines, out, order[p]);
    AssignKeeps(nodes, order, plan, p);
    var t := AssignUpTo(nodes, order, plan, p).value;
    assert p' == p;
    AssignOneKeeps(nodes[order[p]], t.outputs, t.next, plan, a);
  }

  // ---------------------------------------------------------------------------
  // Refusal
  // ---------------------------------------------------------------------------

  /** The k-th node of the order needs a slot that neither a fan-out nor an earlier recording dep provides. */
  ghost predicate Starved(nodes: seq<Node>, order: seq<nat>, k: nat)
    requires InRange(nodes, order) && k < |order|
  {
    var n := nodes[order[k]];
    && NeedsDepSlot(n) && !(OffsetFunc(n) && FirstFanoutDep(nodes, n.deps).Some?)
    && (n.deps == [] || !RecordedBefore(nodes, order, k, n.deps[|n.deps| - 1]))
  }

  lemma {:induction false} StepFailsIff(nodes: seq<Node>, order: seq<nat>, machines: nat, k: nat)
    requires Assignable(nodes, order, machines) && k < |order|
    requires AssignUpTo(nodes, order, PlanOf(nodes, order, machines), k).Some?
    ensures AssignUpTo(nodes, order, PlanOf(nodes, order, machines), k + 1).None? <==> Starved(nodes, order, k)
  {
    var plan, n := PlanOf(nodes, order, machines), nodes[order[k]];
    var s := AssignUpTo(nodes, order, plan, k).value;
    PlanNext(nodes, FanoutEntries(nodes, order), machines);
    RefusedIff(n, s.outputs, s.next, plan);
    FannedSlotIs(nodes, order, machines, n, n.deps);
    if n.deps != [] { OutputsIff(nodes, order, plan, k, n.deps[|n.deps| - 1]); }
  }

  lemma {:induction false} FailsIff(nodes: seq<Node>, order: seq<nat>, machines: nat, k: nat)
    requires Assignable(nodes, order, machines) && k <= |order|
    ensures AssignUpTo(nodes, order, PlanOf(nodes, order, machines), k).None?
       <==> exists j :: 0 <= j < k && Starved(nodes, order, j)
  {
    if k > 0 {
      FailsIff(nodes, order, machines, k - 1);
      if AssignUpTo(nodes, order, PlanOf(nodes, order, machines), k - 1).Some? {
        StepFailsIff(nodes, order, machines, k - 1);
      } else {
        var j :| 0 <= j < k - 1 && Starved(nodes, order, j);
        assert 0 <= j < k;
      }
    }
  }

  /** n needs a slot that no fan-out source and no recording node of the graph provides. */
  ghost predicate StarvedNode(nodes: seq<Node>, n: Node) {
    && NeedsDepSlot(n) && !(OffsetFunc(n) && FirstFanoutDep(nodes, n.deps).Some?)
    && (n.deps == [] || forall d :: d in nodes && d.id == n.deps[|n.deps| - 1] ==> !Records(d))
  }

  /** With deps first, a node is starved in the order exactly when it is starved in the graph. */
  lemma {:induction false} StarvedIff(nodes: seq<Node>, order: seq<nat>, k: nat)
    requires DistinctIds(nodes) && IsPermutation(order, |nodes|) && DepsFirst(nodes, order) && k < |order|
    ensures Starved(nodes, order, k) <==> StarvedNode(nodes, nodes[order[k]])
  {
    var n := nodes[order[k]];
    if n.deps != [] {
      var x := n.deps[|n.deps| - 1];
      forall d | d in nodes && d.id == x && Records(d) ensures RecordedBefore(nodes, order, k, x) {
        var j :| 0 <= j < |nodes| && nodes[j] == d;
        var i := IndexOf(nodes, x);
        DistinctAt(nodes, i.value, j);
        assert x in n.deps && Resolves(nodes, n.deps, j) && DependsOn(nodes, order[k], j);
        var q :| 0 <= q < k && order[..k][q] == j;
        assert nodes[order[q]] == d;
      }
    }
  }

  /** Slot assignment refuses a graph exactly when some node is starved; with deps first this is a property of
      the graph alone. */
  lemma {:induction false} AssignmentFailsIff(nodes: seq<Node>, order: seq<nat>, machines: nat)
    requires Assignable(nodes, order, machines)
    ensures Assignment(nodes, order, machines).None? <==> exists k :: 0 <= k < |order| && Starved(nodes, order, k)
    ensures DepsFirst(nodes, order) ==>
              (Assignment(nodes, order, machines).None? <==> exists n :: n in nodes && StarvedNode(nodes, n))
  {
    FailsIff(nodes, order, machines, |order|);
    if DepsFirst(nodes, order) {
      if k :| 0 <= k < |order| && Starved(nodes, order, k) {
        StarvedIff(nodes, order, k);
        assert nodes[order[k]] in nodes;
      }
      if n :| n in nodes && StarvedNode(nodes, n) {
        var i :| 0 <= i < |nodes| && nodes[i] == n;
        PermutationCovers(order, |nodes|, i);
        var k :| 0 <= k < |order| && order[k] == i;
        StarvedIff(nodes, order, k);
      }
    }
  }
}
