/**
  Where the slots chosen by the partitioner fall short of its dataflow promise: exactly when, and inputs on
  which a value is misread.
 */
module SlotClash {
  import opened Prelude
  import opened Sequences
  import opened SymbolicDag
  import opened Slots
  import opened SlotProofs
  import opened Cut
  import opened CutProofs
  import opened Dataflow
  import opened ClusterRun

  // ---------------------------------------------------------------------------
  // A recv on a producer's slot
  // ---------------------------------------------------------------------------

  /** The slot of n is the fresh slot of a transfer to n's machine, for transfers in this order. */
  ghost predicate HitsAmong(keys: seq<Key>, first: nat, n: Node) {
    exists i: nat :: i < |keys| && n.host == Some(keys[i].1) && SlotOf(n) == Some(first + i)
  }

  /** The slot of n lies in the fresh range at the place of a transfer to n's machine: a property of the graph. */
  ghost predicate HitsTransfer(nodes: seq<Node>, n: Node) {
    exists first: nat :: IsFirstFresh(nodes, first) && HitsAmong(CutOrder(nodes), first, n)
  }

  lemma {:induction false} ClashHits(nodes: seq<Node>, keys: seq<Key>, cuts: Cuts, first: nat, n: Node)
    requires Numbered(nodes, keys, cuts, first) && Clashes(cuts, n)
    ensures HitsAmong(keys, first, n)
  {
    var k :| k in cuts && n.host == Some(cuts[k].dest) && SlotOf(n) == Some(cuts[k].recvSlot);
    var i :| 0 <= i < |keys| && keys[i] == k;
    assert cuts[keys[i]] == EdgeFor(nodes, keys[i].0, keys[i].1, first + i);
  }

  lemma {:induction false} HitClashes(nodes: seq<Node>, keys: seq<Key>, cuts: Cuts, first: nat, n: Node)
    requires Numbered(nodes, keys, cuts, first) && HitsAmong(keys, first, n)
    ensures Clashes(cuts, n)
  {
    var i: nat :| i < |keys| && n.host == Some(keys[i].1) && SlotOf(n) == Some(first + i);
    assert keys[i] in keys && cuts[keys[i]] == EdgeFor(nodes, keys[i].0, keys[i].1, first + i);
  }

  /** A recv lands on a producer's slot exactly when the producer hits a transfer. */
  lemma {:induction false} ClashIff(nodes: seq<Node>, keys: seq<Key>, cuts: Cuts, first: nat, n: Node)
    requires CutsFor(nodes, keys, cuts, first) && keys == CutOrder(nodes) && IsFirstFresh(nodes, first)
    ensures Clashes(cuts, n) <==> HitsTransfer(nodes, n)
  {
    if Clashes(cuts, n) { ClashHits(nodes, keys, cuts, first, n); }
    if HitsTransfer(nodes, n) {
      var f: nat :| IsFirstFresh(nodes, f) && HitsAmong(CutOrder(nodes), f, n);
      FirstFreshUnique(nodes, f, first);
      HitClashes(nodes, keys, cuts, first, n);
    }
  }

  /** Only a slot that the scan sees nowhere can be hit: annotated on its node and absent from every kind. */
  lemma {:induction false} HitIsHidden(nodes: seq<Node>, n: Node)
    requires HitsTransfer(nodes, n) && n in nodes && SlotOf(n).value <= U32_MAX
    ensures n.outputSlot.Some? && forall x :: x in nodes ==> n.outputSlot.value !in Scanned(x.kind)
  {
    var f: nat :| IsFirstFresh(nodes, f) && HitsAmong(CutOrder(nodes), f, n);
    var s := SlotOf(n).value;
    assert n.outputSlot.None? ==> s in Numbers(n.kind) || s == 0;
    assert forall x :: x in nodes ==> s !in Scanned(x.kind);
  }

  // ---------------------------------------------------------------------------
  // A misread value
  // ---------------------------------------------------------------------------

  function Example(name: string, deps: seq<Id>, host: nat, slot: Option<nat>, kind: Kind): Node {
    Node(Named(name), deps, Some(host), slot, None, false, None, None, kind)
  }

  const S: Id := Named("s")
  const A: Id := Named("a")
  const B: Id := Named("b")
  const C: Id := Named("c")

  /** Machine 0 runs s, an offset Func a behind it, and an Output c of b; machine 1 runs b. */
  const SYMBOLIC: seq<Node> := [
    Example("s", [], 0, None, Func("f", Some(0), Some(5), None, None, None)),
    Example("a", [S], 0, None, Func("f", None, None, None, None, Some(1))),
    Example("b", [], 1, None, Func("f", Some(0), Some(3), None, None, None)),
    Example("c", [B], 0, None, Output(None, []))
  ]

  /** What slot assignment makes of it: a reads slot 5 and owns slot 6, which no kind mentions. */
  const ASSIGNED: seq<Node> := [
    Example("s", [], 0, Some(5), Func("f", Some(0), Some(5), None, None, None)),
    Example("a", [S], 0, Some(6), Func("f", Some(5), None, None, None, Some(1))),
    Example("b", [], 1, Some(3), Func("f", Some(0), Some(3), None, None, None)),
    Example("c", [B], 0, None, Output(Some(3), []))
  ]

  /** The order Kahn's queue yields. */
  const IN_ORDER: seq<nat> := [0, 2, 1, 3]

  lemma {:induction false} NoFanout(nodes: seq<Node>, order: seq<nat>)
    requires forall n :: n in nodes ==> !IsFanout(n)
    ensures FanoutEntries(nodes, order) == []
  {
    var f := (i: nat) => EntryAt(nodes, i);
    if FanoutEntries(nodes, order) != [] {
      InFlatMap(order, f, FanoutEntries(nodes, order)[0]);
    }
  }

  lemma {:induction false} NoEntries(nodes: seq<Node>, m: nat)
    ensures PlanUpTo(nodes, [], m) == FanoutPlan(map[], map[], 2)
  {
    if m > 0 { NoEntries(nodes, m - 1); }
  }

  lemma {:induction false} OneStep(
    nodes: seq<Node>, order: seq<nat>, plan: FanoutPlan, k: nat, was: Progress, a: Assigned)
    requires k < |order| && InRange(nodes, order) && AssignUpTo(nodes, order, plan, k) == Some(was)
    requires AssignOne(nodes[order[k]], was.outputs, was.next, plan) == Some(a)
    ensures AssignUpTo(nodes, order, plan, k + 1)
         == Some(Progress(was.nodes[order[k] := a.node], Record(was.outputs, nodes[order[k]].id, a.output), a.next))
  {
  }

  lemma {:induction false} ExampleAssigned()
    ensures InRange(SYMBOLIC, IN_ORDER)
    ensures var r := Assignment(SYMBOLIC, IN_ORDER, 2); r.Some? && r.value.nodes == ASSIGNED
  {
    NoFanout(SYMBOLIC, IN_ORDER);
    NoEntries(SYMBOLIC, 2);
    var plan: FanoutPlan := FanoutPlan(map[], map[], 2);
    var s0 := Progress(SYMBOLIC, map[], 2);
    OneStep(SYMBOLIC, IN_ORDER, plan, 0, s0, Assigned(ASSIGNED[0], Some(5), 6));
    var s1 := Progress(SYMBOLIC[0 := ASSIGNED[0]], map[][S := 5], 6);
    OneStep(SYMBOLIC, IN_ORDER, plan, 1, s1, Assigned(ASSIGNED[2], Some(3), 6));
    var s2 := Progress(s1.nodes[2 := ASSIGNED[2]], s1.outputs[B := 3], 6);
    assert FannedSlot(A, [S], plan.inputs) == None;
    OneStep(SYMBOLIC, IN_ORDER, plan, 2, s2, Assigned(ASSIGNED[1], Some(6), 7));
    var s3 := Progress(s2.nodes[1 := ASSIGNED[1]], s2.outputs[A := 6], 7);
    OneStep(SYMBOLIC, IN_ORDER, plan, 3, s3, Assigned(ASSIGNED[3], None, 7));
    assert s3.nodes[3 := ASSIGNED[3]] == ASSIGNED;
  }

  const TRANSFER: Key := (B, 0)
  const KEYS: seq<Key> := [TRANSFER]
  const CUTS: Cuts := map[TRANSFER := CrossEdge(1, 3, 0, 6)]

  lemma {:induction false} ExampleHosts()
    ensures Lookup(ASSIGNED, S) == Some(ASSIGNED[0]) && Lookup(ASSIGNED, B) == Some(ASSIGNED[2])
    ensures HostOf(ASSIGNED, S) == 0 && HostOf(ASSIGNED, B) == 1
  {
    var three: seq<Node> := ASSIGNED[..3];
    assert Lookup(ASSIGNED, B) == Lookup(three, B) && Lookup(ASSIGNED, S) == Lookup(three, S);
    var two: seq<Node> := three[..2];
    assert Lookup(three, S) == Lookup(two, S);
    var one: seq<Node> := two[..1];
    assert Lookup(two, S) == Lookup(one, S);
  }

  lemma {:induction false} ExampleFresh()
    ensures IsFirstFresh(ASSIGNED, 6)
  {
    var n := ASSIGNED[0];
    assert n in ASSIGNED && 5 in Scanned(n.kind);
    forall x, v | x in ASSIGNED && v in Scanned(x.kind) ensures v < 6 {
      assert x == ASSIGNED[0] || x == ASSIGNED[1] || x == ASSIGNED[2] || x == ASSIGNED[3];
    }
  }

  lemma {:induction false} NoDepsNoCuts(nodes: seq<Node>, i: nat, keys: seq<Key>)
    requires i < |nodes| && CutsUpTo(nodes, i) == keys
    requires forall d :: d in nodes[i].deps ==> HostOf(nodes, d) == OrElse(nodes[i].host, 0)
    ensures CutsUpTo(nodes, i + 1) == keys
  {
    NothingCut(nodes, nodes[i], |nodes[i].deps|, keys);
  }

  lemma {:induction false} NothingCut(nodes: seq<Node>, n: Node, j: nat, keys: seq<Key>)
    requires j <= |n.deps| && forall d :: d in n.deps ==> HostOf(nodes, d) == OrElse(n.host, 0)
    ensures NodeCuts(nodes, n, j, keys) == keys
  {
    if j > 0 { NothingCut(nodes, n, j - 1, keys); }
  }

  lemma {:induction false} ExampleOrder()
    ensures CutOrder(ASSIGNED) == KEYS
  {
    ExampleHosts();
    NoDepsNoCuts(ASSIGNED, 0, []);
    NoDepsNoCuts(ASSIGNED, 1, []);
    NoDepsNoCuts(ASSIGNED, 2, []);
    var c := ASSIGNED[3];
    assert NodeCuts(ASSIGNED, c, 1, NodeCuts(ASSIGNED, c, 0, [])) == [TRANSFER];
  }

  lemma {:induction false} ExamplePlaced()
    ensures Placed(ASSIGNED, 2) && DistinctIds(ASSIGNED) && Sendable(ASSIGNED, B)
  {
    ExampleHosts();
    assert S in Ids(ASSIGNED) && B in Ids(ASSIGNED) by { assert ASSIGNED[0] in ASSIGNED && ASSIGNED[2] in ASSIGNED; }
    forall n | n in ASSIGNED
      ensures n.host.Some? && n.host.value < 2 && forall d :: d in n.deps ==> d in Ids(ASSIGNED)
    {
      assert n == ASSIGNED[0] || n == ASSIGNED[1] || n == ASSIGNED[2] || n == ASSIGNED[3];
    }
  }

  lemma {:induction false} ExampleNumbered()
    ensures Numbered(ASSIGNED, KEYS, CUTS, 6) && KeysCut(KEYS, CUTS)
  {
    ExampleHosts();
    assert CUTS[TRANSFER] == EdgeFor(ASSIGNED, B, 0, 6);
  }

  lemma {:induction false} ExampleCuts()
    ensures CutsFor(ASSIGNED, KEYS, CUTS, 6) && KeysCut(KEYS, CUTS)
  {
    ExampleOrder();
    ExamplePlaced();
    ExampleNumbered();
    CutsComplete(ASSIGNED, 2, KEYS, CUTS, 6);
  }

  /** On the example the recv of b lands on the slot of a. */
  lemma {:induction false} ExampleClashes()
    ensures Clashes(CUTS, ASSIGNED[1]) && HitsTransfer(ASSIGNED, ASSIGNED[1])
  {
    ExampleFresh();
    ExampleOrder();
    ExampleCuts();
    assert TRANSFER in CUTS;
    ClashIff(ASSIGNED, KEYS, CUTS, 6, ASSIGNED[1]);
  }

  /** A run that respects every dep and every transfer: a overwrites slot 6 between the recv of b and c. */
  const RUN: seq<Origin> := [
    FromNode(ASSIGNED[0]), FromNode(ASSIGNED[2]), FromSend(TRANSFER), FromRecv(TRANSFER),
    FromNode(ASSIGNED[1]), FromNode(ASSIGNED[3])
  ]

  lemma {:induction false} ExampleKnown()
    ensures MintedBefore(ASSIGNED, 5) && DestsMatch(KEYS, CUTS) && KeysCut(KEYS, CUTS)
    ensures forall i :: 0 <= i < |RUN| ==> IsItem(ASSIGNED, KEYS, RUN[i]) && (!RUN[i].FromNode? ==> RUN[i].key in CUTS)
  {
    assert TRANSFER in KEYS;
    forall n | n in ASSIGNED ensures Generation(n.id) < 5 && forall d :: d in n.deps ==> Generation(d) < 5 {
      assert n == ASSIGNED[0] || n == ASSIGNED[1] || n == ASSIGNED[2] || n == ASSIGNED[3];
    }
  }

  lemma {:induction false} ExampleWaited(p: nat)
    requires p < |RUN|
    ensures forall i :: 0 <= i < |RUN| ==> !RUN[i].FromNode? ==> RUN[i].key in CUTS
    ensures Waited(ASSIGNED, CUTS, RUN, p)
  {
    ExampleHosts();
    ExampleKnown();
    assert VertexOf(CUTS, RUN[0]) == (0, S) && VertexOf(CUTS, RUN[1]) == (1, B);
    assert VertexOf(CUTS, RUN[2]) == (1, SendOf(B, 0)) && VertexOf(CUTS, RUN[3]) == (0, RecvOf(B, 1));
    if p == 2 {
      assert Ran(CUTS, RUN, 2, (1, B));
    } else if p == 3 {
      assert Ran(CUTS, RUN, 3, (1, SendOf(B, 0)));
    } else if p == 4 {
      assert Ran(CUTS, RUN, 4, (0, S));
    } else if p == 5 {
      assert Ran(CUTS, RUN, 5, (0, RecvOf(B, 1)));
    }
  }

  lemma {:induction false} ExampleDistinct()
    ensures forall i, j :: 0 <= i < j < |RUN| ==> RUN[i] != RUN[j]
  {
  }

  lemma {:induction false} ExampleRun()
    ensures KeysCut(KEYS, CUTS) && IsRun(ASSIGNED, KEYS, CUTS, RUN)
  {
    ExamplePlaced();
    ExampleKnown();
    ExampleDistinct();
    forall p | 0 <= p < |RUN| ensures Waited(ASSIGNED, CUTS, RUN, p) { ExampleWaited(p); }
    RunIntro(ASSIGNED, KEYS, CUTS, RUN);
  }

  /** Every node computes its own name. */
  const NAMED: Fn<Id> := (id: Id, inputs: seq<Option<Id>>) => id

  lemma {:induction false} ExampleSlots()
    ensures InputSlots(ASSIGNED, CUTS, ASSIGNED[3]) == [6] && InputSlots(ASSIGNED, CUTS, ASSIGNED[0]) == []
    ensures InputSlots(ASSIGNED, CUTS, ASSIGNED[1]) == [] && InputSlots(ASSIGNED, CUTS, ASSIGNED[2]) == []
  {
    var c := ASSIGNED[3];
    assert ResolveOutput(CUTS, c.kind, c.deps, 0) == Output(Some(6), []);
  }

  lemma {:induction false} ExampleMemory(init: Mem<Id>)
    ensures var mem := Run(NAMED, ASSIGNED, CUTS, init, RUN, 6); C in mem.seen && mem.seen[C] == [Some(A)]
  {
    ExampleSlots();
    var m1 := Run(NAMED, ASSIGNED, CUTS, init, RUN, 1);
    var m2 := Run(NAMED, ASSIGNED, CUTS, init, RUN, 2);
    assert m2 == Exec(NAMED, ASSIGNED, CUTS, RUN[1], m1);
    assert Peek(m2.store, (1, 3)) == Some(B);
    var m3 := Run(NAMED, ASSIGNED, CUTS, init, RUN, 3);
    assert m3 == Exec(NAMED, ASSIGNED, CUTS, RUN[2], m2);
    var m4 := Run(NAMED, ASSIGNED, CUTS, init, RUN, 4);
    assert m4 == Exec(NAMED, ASSIGNED, CUTS, RUN[3], m3);
    assert Peek(m4.store, (0, 6)) == Some(B);
    var m5 := Run(NAMED, ASSIGNED, CUTS, init, RUN, 5);
    assert m5 == Exec(NAMED, ASSIGNED, CUTS, RUN[4], m4);
    assert Peek(m5.store, (0, 6)) == Some(A);
    var m6 := Run(NAMED, ASSIGNED, CUTS, init, RUN, 6);
    assert m6 == Exec(NAMED, ASSIGNED, CUTS, RUN[5], m5);
    assert PeekAll(m5.store, PlacesOn(0, [6])) == [Some(A)];
  }

  lemma {:induction false} ExampleReference()
    ensures InRange(ASSIGNED, IN_ORDER)
    ensures PeekAll(OneMachine(NAMED, ASSIGNED, IN_ORDER, 4), ReadsOf(ASSIGNED[3])) == [Some(B)]
  {
    var r1, r2 := OneMachine(NAMED, ASSIGNED, IN_ORDER, 1), OneMachine(NAMED, ASSIGNED, IN_ORDER, 2);
    assert r2 == r1[B := B];
    var r3 := OneMachine(NAMED, ASSIGNED, IN_ORDER, 3);
    assert r3 == r2[A := A];
    var r4 := OneMachine(NAMED, ASSIGNED, IN_ORDER, 4);
    assert r4 == r3[C := C];
    assert Peek(r4, B) == Some(B);
  }

  /** The clash arises: the graph comes out of slot assignment, its cuts are those of the splitter, and a hits the
      transfer of b. */
  lemma {:induction false} ClashArises()
    ensures InRange(SYMBOLIC, IN_ORDER) && CutOrder(ASSIGNED) == KEYS
    ensures var r := Assignment(SYMBOLIC, IN_ORDER, 2); r.Some? && r.value.nodes == ASSIGNED
    ensures CutsFor(ASSIGNED, KEYS, CUTS, 6) && IsFirstFresh(ASSIGNED, 6) && HitsTransfer(ASSIGNED, ASSIGNED[1])
  {
    ExampleAssigned();
    ExampleOrder();
    ExampleCuts();
    ExampleFresh();
    ExampleClashes();
  }

  /** The clash misreads a value: a run that respects every dep and transfer makes c read a's value, where one
      machine would give it b's. */
  lemma {:induction false} ClashMisreads(init: Mem<Id>)
    ensures KeysCut(KEYS, CUTS) && IsRun(ASSIGNED, KEYS, CUTS, RUN) && InRange(ASSIGNED, IN_ORDER)
    ensures var mem := Run(NAMED, ASSIGNED, CUTS, init, RUN, 6); C in mem.seen && mem.seen[C] == [Some(A)]
    ensures PeekAll(OneMachine(NAMED, ASSIGNED, IN_ORDER, 4), ReadsOf(ASSIGNED[3])) == [Some(B)]
  {
    ExampleRun();
    ExampleMemory(init);
    ExampleReference();
  }

  // ---------------------------------------------------------------------------
  // An Output and its dep's annotation
  // ---------------------------------------------------------------------------

  /** A Func that spreads its value over its consumers' slots. */
  predicate SpreadsOut(n: Node) {
    n.kind.Func? && n.kind.arg.None? && n.kind.outBase.Some?
  }

  /** The slot recorded for nodes whose annotation assignment leaves alone; None for all others. */
  function FixedSlot(n: Node, plan: FanoutPlan): Option<nat> {
    match n.kind
    case Input(_, slot, _, _, _) => Some(OrElse(slot, INPUT_IO_SLOT))
    case Func(_, arg, arg2, _, outBase, _) =>
      if arg.Some? then Some(OrElse(arg2, OUTPUT_IO_SLOT))
      else if outBase.Some? then Some(if n.id in plan.bases then plan.bases[n.id] else outBase.value)
      else None
    case Aggregate(_, upstream, downstream) => if upstream.Some? then downstream else None
    case StreamPipeline(_, stages, _, _, _, _) => if stages != [] then stages[|stages| - 1].arg1 else None
    case _ => None
  }

  /** n carries no annotation that differs from the slot it records; a fan-out source must carry its base. */
  predicate AnnotationAgrees(n: Node, plan: FanoutPlan) {
    var s := FixedSlot(n, plan);
    s.None? || n.outputSlot == s || (n.outputSlot.None? && !SpreadsOut(n))
  }

  /** The slot the splitter sees is the recorded one exactly when the annotation agrees. */
  lemma {:induction false} SeenIff(n: Node, outputs: map<Id, nat>, next: nat, plan: FanoutPlan, a: Assigned)
    requires AssignOne(n, outputs, next, plan) == Some(a) && a.output.Some?
    ensures SlotOf(a.node) == a.output <==> AnnotationAgrees(n, plan)
  {
  }

  /** A single-dep Output is given the slot its dep recorded. */
  lemma {:induction false} OutputGets(nodes: seq<Node>, order: seq<nat>, machines: nat, out: seq<Node>, i: nat, j: nat)
    requires IsAssignment(nodes, order, machines, out) && i < |nodes| && j < |nodes|
    requires nodes[i].kind.Output? && nodes[i].deps == [nodes[j].id]
    ensures i < |out| && j < |out| && out[i].kind.Output? && out[i].kind.outSlot.Some?
    ensures out[i].kind.outSlot == SlotOf(out[j]) <==> AnnotationAgrees(nodes[j], PlanOf(nodes, order, machines))
  {
    var plan, d := PlanOf(nodes, order, machines), nodes[j].id;
    var p, a := StepOf(nodes, order, machines, out, i);
    var q, b := StepOf(nodes, order, machines, out, j);
    PlanNext(nodes, FanoutEntries(nodes, order), machines);
    var s, t := AssignUpTo(nodes, order, plan, p).value, AssignUpTo(nodes, order, plan, q).value;
    OutputsIff(nodes, order, plan, p, d);
    var r :| 0 <= r < p && nodes[order[r]].id == d && Records(nodes[order[r]]);
    DistinctAt(nodes, order[r], j);
    assert r == q;
    var c := AssignedAt(nodes, order, plan, q, p);
    AssignKeeps(nodes, order, plan, q);
    AssignOneKeeps(nodes[j], t.outputs, t.next, plan, b);
    SeenIff(nodes[j], t.outputs, t.next, plan, b);
  }

  /** Every local dep of a single-dep Output carries no annotation that differs from the slot it records. */
  ghost predicate AnnotationsAgree(nodes: seq<Node>, plan: FanoutPlan) {
    forall n, d :: n in nodes && d in nodes && n.kind.Output? && n.deps == [d.id] && n.host == d.host ==>
                     AnnotationAgrees(d, plan)
  }

  /** After slot assignment the Outputs name the slots their deps write exactly when the annotations of the
      input graph agree. */
  lemma {:induction false} OutputsCarryIff(nodes: seq<Node>, order: seq<nat>, machines: nat, out: seq<Node>)
    requires IsAssignment(nodes, order, machines, out)
    ensures OutputsCarrySlots(out) <==> AnnotationsAgree(nodes, PlanOf(nodes, order, machines))
  {
    AssignmentKeeps(nodes, order, machines, out);
    var plan := PlanOf(nodes, order, machines);
    if OutputsCarrySlots(out) {
      forall n, d | n in nodes && d in nodes && n.kind.Output? && n.deps == [d.id] && n.host == d.host
        ensures AnnotationAgrees(d, plan)
      {
        var i :| 0 <= i < |nodes| && nodes[i] == n;
        var j :| 0 <= j < |nodes| && nodes[j] == d;
        OutputGets(nodes, order, machines, out, i, j);
        assert out[i] in out && out[j] in out;
      }
    }
    if AnnotationsAgree(nodes, plan) {
      forall n, d | n in out && d in out && n.kind.Output? && n.deps == [d.id] && n.host == d.host
        ensures n.kind.outSlot.Some? && n.kind.outSlot == SlotOf(d)
      {
        var i :| 0 <= i < |out| && out[i] == n;
        var j :| 0 <= j < |out| && out[j] == d;
        OutputStays(nodes, order, machines, out, i);
        assert nodes[i] in nodes && nodes[j] in nodes;
        OutputGets(nodes, order, machines, out, i, j);
      }
    }
  }

  /** Assignment turns nothing into an Output. */
  lemma {:induction false} OutputStays(nodes: seq<Node>, order: seq<nat>, machines: nat, out: seq<Node>, i: nat)
    requires IsAssignment(nodes, order, machines, out) && i < |nodes| && i < |out| && out[i].kind.Output?
    ensures nodes[i].kind.Output?
  {
    var p, a := StepOf(nodes, order, machines, out, i);
  }

  /** A Func that is given its argument and annotated with another slot, and an Output of it, on one machine. */
  const ANNOTATED: seq<Node> := [
    Example("a", [], 0, Some(7), Func("f", Some(5), None, None, None, None)),
    Example("c", [A], 0, None, Output(None, []))
  ]

  /** Slot assignment keeps the annotation and tells the Output slot 1. */
  const MISLED: seq<Node> := [
    Example("a", [], 0, Some(7), Func("f", Some(5), None, None, None, None)),
    Example("c", [A], 0, None, Output(Some(1), []))
  ]

  lemma {:induction false} MisledAssigned()
    ensures InRange(ANNOTATED, [0, 1]) && !AnnotationsAgree(ANNOTATED, PlanOf(ANNOTATED, [0, 1], 1))
    ensures var r := Assignment(ANNOTATED, [0, 1], 1); r.Some? && r.value.nodes == MISLED
  {
    NoFanout(ANNOTATED, [0, 1]);
    NoEntries(ANNOTATED, 1);
    var plan: FanoutPlan := FanoutPlan(map[], map[], 2);
    OneStep(ANNOTATED, [0, 1], plan, 0, Progress(ANNOTATED, map[], 2), Assigned(MISLED[0], Some(1), 2));
    OneStep(ANNOTATED, [0, 1], plan, 1, Progress(ANNOTATED[0 := MISLED[0]], map[][A := 1], 2),
            Assigned(MISLED[1], None, 2));
    assert ANNOTATED[0 := MISLED[0]][1 := MISLED[1]] == MISLED;
    assert ANNOTATED[0] in ANNOTATED && ANNOTATED[1] in ANNOTATED;
  }

  lemma {:induction false} MisledRun(init: Mem<Id>)
    requires (0, 1) !in init.store
    ensures var mem := Run(NAMED, MISLED, map[], init, [FromNode(MISLED[0]), FromNode(MISLED[1])], 2);
            C in mem.seen && mem.seen[C] == [None] && Peek(mem.store, (0, 7)) == Some(A)
  {
    var tr := [FromNode(MISLED[0]), FromNode(MISLED[1])];
    var c := MISLED[1];
    assert ResolveOutput(map[], c.kind, c.deps, 0) == c.kind by { assert c.deps[1..] == []; }
    assert InputSlots(MISLED, map[], c) == [1];
    var m1 := Run(NAMED, MISLED, map[], init, tr, 1);
    assert Run(NAMED, MISLED, map[], init, tr, 0) == init;
    assert m1 == Exec(NAMED, MISLED, map[], tr[0], init);
    assert PeekAll(m1.store, PlacesOn(0, [1])) == [None];
  }

  /** The annotation misleads the Output: it reads slot 1, which nothing wrote, although its dep ran on its machine. */
  lemma {:induction false} AnnotationMisleads(init: Mem<Id>)
    requires (0, 1) !in init.store
    ensures InRange(ANNOTATED, [0, 1]) && !AnnotationsAgree(ANNOTATED, PlanOf(ANNOTATED, [0, 1], 1))
    ensures var r := Assignment(ANNOTATED, [0, 1], 1); r.Some? && r.value.nodes == MISLED
    ensures var mem := Run(NAMED, MISLED, map[], init, [FromNode(MISLED[0]), FromNode(MISLED[1])], 2);
            C in mem.seen && mem.seen[C] == [None] && Peek(mem.store, (0, 7)) == Some(A)
  {
    MisledAssigned();
    MisledRun(init);
  }
}
