/**
  An input on which a value is freed too early: an Aggregate reads a fan-out source that is annotated with the slot of
  its first consumer, and the injected free waits for that consumer alone.
 */
module FreedExample {
  import opened Prelude
  import opened Sequences
  import opened SymbolicDag
  import opened Slots
  import opened StreamSplit
  import opened Reclaim
  import opened Cut
  import opened CutProofs
  import opened Dataflow
  import opened ClusterRun
  import opened SlotClash
  import opened FreeOrder

  const M: Id := Named("m")
  const N: Id := Named("n")
  const G: Id := Named("g")
  const FREE_ID: Id := FreeOf(S, 0)

  /** One machine: s fans out to m; n follows m; g gathers s and n. */
  const FAN: seq<Node> := [
    Example("s", [], 0, Some(10), Func("f", None, None, None, Some(10), None)),
    Example("m", [S], 0, None, Func("f", None, None, None, None, Some(100))),
    Example("n", [M], 0, None, Func("f", None, None, None, None, None)),
    Example("g", [S, N], 0, None, Aggregate(None, None, None))
  ]

  const FAN_ORDER: seq<nat> := [0, 1, 2, 3]

  /** What slot assignment makes of it: s keeps slot 10, which m reads. */
  const FANNED: seq<Node> := [
    Example("s", [], 0, Some(10), Func("f", Some(10), None, None, Some(10), None)),
    Example("m", [S], 0, Some(110), Func("f", Some(10), None, None, None, Some(100))),
    Example("n", [M], 0, Some(1), Func("f", Some(110), None, None, None, None)),
    Example("g", [S, N], 0, Some(111), Aggregate(Some([S, N]), None, Some(111)))
  ]

  const FREE: Node := Node(FREE_ID, [M], Some(0), None, None, false, None, None, FreeSlots([10]))

  const FREED: seq<Node> := FANNED + [FREE]

  const PLAN: FanoutPlan := FanoutPlan(map[S := 10], map[(S, M) := 10, (S, G) := 11], 12)

  lemma {:induction false} FanEntries()
    ensures FanoutEntries(FAN, FAN_ORDER) == [Entry(0, 10, 0)]
  {
    var f := (i: nat) => EntryAt(FAN, i);
    FlatMapStep(FAN_ORDER, f, 0);
    FlatMapStep(FAN_ORDER, f, 1);
    FlatMapStep(FAN_ORDER, f, 2);
    FlatMapStep(FAN_ORDER, f, 3);
    assert FAN_ORDER[..4] == FAN_ORDER && FAN_ORDER[..0] == [];
  }

  lemma {:induction false} ConsumersStep(nodes: seq<Node>, k: nat, id: Id)
    requires k < |nodes|
    ensures Consumers(nodes[..k + 1], id)
         == Consumers(nodes[..k], id) + (if id in nodes[k].deps then [nodes[k].id] else [])
  {
    assert nodes[..k + 1][..k] == nodes[..k];
  }

  lemma {:induction false} FanConsumers()
    ensures Consumers(FAN, S) == [M, G]
  {
    ConsumersStep(FAN, 0, S);
    ConsumersStep(FAN, 1, S);
    ConsumersStep(FAN, 2, S);
    ConsumersStep(FAN, 3, S);
    assert FAN[..4] == FAN && FAN[..0] == [];
    assert S !in FAN[0].deps && FAN[1].deps == [S] && FAN[2].deps == [M] && FAN[3].deps == [S, N];
    assert S in FAN[1].deps && S !in FAN[2].deps && S in FAN[3].deps;
  }

  lemma {:induction false} FanPlan()
    ensures PlanOf(FAN, FAN_ORDER, 1) == PLAN
  {
    FanEntries();
    FanConsumers();
    var es: seq<Entry> := [Entry(0, 10, 0)];
    var none: FanoutPlan := FanoutPlan(map[], map[], 2);
    assert PlanUpTo(FAN, es, 0) == none;
    assert EffectiveBase(FAN, es, 0) == 10;
    assert MachinePlan(FAN, es, 0, 0, none) == none;
    assert GivenInputs(S, 10, [M, G], 0, map[]) == map[];
    assert GivenInputs(S, 10, [M, G], 1, map[]) == map[(S, M) := 10];
    assert GivenInputs(S, 10, [M, G], 2, map[]) == map[(S, M) := 10, (S, G) := 11];
    assert MachinePlan(FAN, es, 0, 1, none) == Given(S, 10, [M, G], 2, none);
  }

  lemma {:induction false} FanAssigned()
    ensures InRange(FAN, FAN_ORDER)
    ensures var r := Assignment(FAN, FAN_ORDER, 1); r.Some? && r.value.nodes == FANNED
  {
    FanPlan();
    var s0 := Progress(FAN, map[], 12);
    OneStep(FAN, FAN_ORDER, PLAN, 0, s0, Assigned(FANNED[0], Some(10), 12));
    var s1 := Progress(FAN[0 := FANNED[0]], map[][S := 10], 12);
    assert FannedSlot(M, [S], PLAN.inputs) == Some(10);
    OneStep(FAN, FAN_ORDER, PLAN, 1, s1, Assigned(FANNED[1], Some(110), 111));
    var s2 := Progress(s1.nodes[1 := FANNED[1]], s1.outputs[M := 110], 111);
    OneStep(FAN, FAN_ORDER, PLAN, 2, s2, Assigned(FANNED[2], Some(1), 111));
    var s3 := Progress(s2.nodes[2 := FANNED[2]], s2.outputs[N := 1], 111);
    OneStep(FAN, FAN_ORDER, PLAN, 3, s3, Assigned(FANNED[3], Some(111), 112));
    assert s3.nodes[3 := FANNED[3]] == FANNED;
  }

  lemma {:induction false} FanReaders()
    ensures ReadersOf(FANNED, FANNED[0]) == [FANNED[1]]
  {
    var f := (n: Node) => if ReadsSlotOf(n, FANNED[0]) then [n] else [];
    FlatMapStep(FANNED, f, 0);
    FlatMapStep(FANNED, f, 1);
    FlatMapStep(FANNED, f, 2);
    FlatMapStep(FANNED, f, 3);
    assert FANNED[..4] == FANNED && FANNED[..0] == [];
  }

  lemma {:induction false} OneSlot()
    ensures Dedup(Ascending([10])) == [10]
  {
    AscendingCorrect([10]);
    assert |multiset(Ascending([10]))| == |multiset([10])|;
    assert |Ascending([10])| == 1;
    assert Ascending([10])[0] in multiset(Ascending([10]));
    assert Ascending([10]) == [10];
  }

  lemma {:induction false} FanFreeNode()
    ensures FreesFor(FANNED, FANNED[0]) == [FREE]
  {
    FanReaders();
    OneSlot();
    var rs := [FANNED[1]];
    assert seq(|rs|, i requires 0 <= i < |rs| => ArgOf(rs[i])) == [10];
    assert seq(|rs|, i requires 0 <= i < |rs| => rs[i].id) == [M];
  }

  lemma {:induction false} FanFreed()
    ensures WithFrees(FANNED) == FREED
  {
    FanFreeNode();
    var f := (n: Node) => FreesFor(FANNED, n);
    FlatMapStep(FANNED, f, 0);
    FlatMapStep(FANNED, f, 1);
    FlatMapStep(FANNED, f, 2);
    FlatMapStep(FANNED, f, 3);
    assert FANNED[..4] == FANNED && FANNED[..0] == [];
  }

  // ---------------------------------------------------------------------------
  // The graph meets every other premise
  // ---------------------------------------------------------------------------

  lemma {:induction false} Cases(n: Node)
    requires n in FREED
    ensures n == FANNED[0] || n == FANNED[1] || n == FANNED[2] || n == FANNED[3] || n == FREE
  {
  }

  lemma {:induction false} FanDistinct()
    ensures DistinctIds(FREED) && MintedBefore(FREED, 5)
  {
    forall n | n in FREED ensures Generation(n.id) < 5 && forall d :: d in n.deps ==> Generation(d) < 5 { Cases(n); }
    var key := (n: Node) => n.id;
    assert key(FREED[0]) == S && key(FREED[1]) == M && key(FREED[2]) == N && key(FREED[3]) == G
           && key(FREED[4]) == FREE_ID;
  }

  lemma {:induction false} FanLookups()
    ensures FANNED[0] in FREED && FANNED[1] in FREED && FANNED[2] in FREED && FANNED[3] in FREED && FREE in FREED
    ensures Lookup(FREED, S) == Some(FANNED[0]) && Lookup(FREED, M) == Some(FANNED[1])
    ensures Lookup(FREED, N) == Some(FANNED[2])
    ensures HostOf(FREED, S) == 0 && HostOf(FREED, M) == 0 && HostOf(FREED, N) == 0
  {
    assert FREED[0] in FREED && FREED[1] in FREED && FREED[2] in FREED && FREED[3] in FREED && FREED[4] in FREED;
    FanDistinct();
    LookupUnique(FREED, FANNED[0]);
    LookupUnique(FREED, FANNED[1]);
    LookupUnique(FREED, FANNED[2]);
  }

  lemma {:induction false} FanPlaced()
    ensures Placed(FREED, 1) && OutputsCarrySlots(FREED)
  {
    FanLookups();
    assert S in Ids(FREED) && M in Ids(FREED) && N in Ids(FREED);
    forall n | n in FREED ensures n.host == Some(0) && !n.kind.Output? && forall d :: d in n.deps ==> d in Ids(FREED) {
      Cases(n);
    }
  }

  lemma {:induction false} FanRead(n: Node, r: Id)
    requires n in FREED && r in ReadsOf(n)
    ensures (r == S || r == N) && r in n.deps
  {
    Cases(n);
    assert n == FANNED[3];
  }

  lemma {:induction false} FanReads()
    ensures ReadsAreDeps(FREED)
  {
    FanLookups();
    assert S in Ids(FREED) && N in Ids(FREED);
    forall n, r | n in FREED && r in ReadsOf(n) ensures KnownDep(FREED, n, r) { FanRead(n, r); }
  }

  lemma {:induction false} FanUncut(first: nat)
    ensures CutsFor(FREED, [], map[], first) && KeysCut([], map[])
  {
    FanLookups();
    forall id, m: nat ensures !IsCut(FREED, id, m) {
      if IsCut(FREED, id, m) {
        var n :| n in FREED && id in n.deps && n.host == Some(m) && HostOf(FREED, id) != m;
        Cases(n);
      }
    }
  }

  lemma {:induction false} ResolveStep(
    nodes: seq<Node>, cuts: Cuts, refs: seq<Id>, slots: seq<nat>, x: Id, slot: nat, m: nat)
    requires ResolveRefs(nodes, cuts, refs, m) == Some(slots) && ArrivalSlot(nodes, cuts, x, m) == Some(slot)
    ensures ResolveRefs(nodes, cuts, refs + [x], m) == Some(slots + [slot])
  {
    assert (refs + [x])[..|refs|] == refs;
  }

  lemma {:induction false} GatherSlots()
    ensures ResolveRefs(FREED, map[], [S, N], 0) == Some([10, 1])
  {
    FanLookups();
    var none: seq<Id>, empty: seq<nat> := [], [];
    assert none + [S] == [S] && [S] + [N] == [S, N] && empty + [10] == [10] && [10] + [1] == [10, 1];
    ResolveStep(FREED, map[], none, empty, S, 10, 0);
    ResolveStep(FREED, map[], [S], [10], N, 1, 0);
  }

  lemma {:induction false} FanEmits(n: Node)
    requires n in FREED
    ensures EmitKind(FREED, map[], n, 0).Some?
    ensures n == FANNED[3] ==> InputSlots(FREED, map[], n) == [10, 1]
  {
    Cases(n);
    GatherSlots();
  }

  lemma {:induction false} FanSlotsApart(a: Node, b: Node)
    requires a in FREED && b in FREED && a.id != b.id
    ensures !SharesSlot(a, b)
  {
    Cases(a);
    Cases(b);
  }

  lemma {:induction false} FanSound(first: nat)
    ensures Sound(FREED, 1, [], map[], first)
  {
    FanDistinct();
    FanPlaced();
    FanReads();
    FanUncut(first);
    forall n | n in FREED ensures EmitKind(FREED, map[], n, Host(n)).Some? {
      Cases(n);
      FanEmits(n);
    }
    forall a, b | a in FREED && b in FREED && a.id != b.id ensures !SharesSlot(a, b) {
      FanSlotsApart(a, b);
    }
  }

  /** s is read by g and its slot is freed. */
  lemma {:induction false} FanNeeded()
    ensures !NeededKept(FREED)
  {
    FanLookups();
    assert S in ReadsOf(FANNED[3]);
    assert Needed(FREED, S);
    assert 10 in Freed(FREE);
    assert FreesSlotOf(FREE, FANNED[0]);
  }

  // ---------------------------------------------------------------------------
  // The run
  // ---------------------------------------------------------------------------

  /** Every dep is respected; the free comes between s and g. */
  const FAN_RUN: seq<Origin> := [
    FromNode(FANNED[0]), FromNode(FANNED[1]), FromNode(FREE), FromNode(FANNED[2]), FromNode(FANNED[3])
  ]

  lemma {:induction false} RanAt(p: nat, q: nat, x: Id)
    requires q < p <= |FAN_RUN| && FAN_RUN[q].FromNode? && FAN_RUN[q].node.id == x && Host(FAN_RUN[q].node) == 0
    ensures Ran(map[], FAN_RUN, p, (0, x))
  {
    assert VertexOf(map[], FAN_RUN[q]) == (0, x);
  }

  lemma {:induction false} FanWaited(p: nat)
    requires p < |FAN_RUN|
    ensures Waited(FREED, map[], FAN_RUN, p)
  {
    FanLookups();
    if p >= 1 { RanAt(p, 0, S); }
    if p >= 2 { RanAt(p, 1, M); }
    if p >= 4 { RanAt(p, 3, N); }
    var n := FAN_RUN[p].node;
    assert p == 0 ==> n.deps == [];
    assert p == 1 ==> n.deps == [S];
    assert p == 2 || p == 3 ==> n.deps == [M];
    assert p == 4 ==> n.deps == [S, N];
  }

  lemma {:induction false} FanRun()
    ensures KeysCut([], map[]) && IsRun(FREED, [], map[], FAN_RUN)
  {
    FanDistinct();
    FanLookups();
    forall i | 0 <= i < |FAN_RUN| ensures FAN_RUN[i].FromNode? && IsItem(FREED, [], FAN_RUN[i]) {}
    forall p | 0 <= p < |FAN_RUN| ensures Waited(FREED, map[], FAN_RUN, p) { FanWaited(p); }
    FanRunOnce();
    RunIntro(FREED, [], map[], FAN_RUN);
  }

  lemma {:induction false} FanRunOnce()
    ensures forall i, j :: 0 <= i < j < |FAN_RUN| ==> FAN_RUN[i] != FAN_RUN[j]
  {
    assert FAN_RUN[0].node.id == S && FAN_RUN[1].node.id == M && FAN_RUN[2].node.id == FREE_ID;
    assert FAN_RUN[3].node.id == N && FAN_RUN[4].node.id == G;
  }

  lemma {:induction false} FreeStep(mem: Mem<Id>)
    ensures (0, 10) !in Exec(NAMED, FREED, map[], FromNode(FREE), mem).store
  {
    assert 10 in Freed(FREE) && SlotOf(FREE) == None;
  }

  lemma {:induction false} FollowStep(mem: Mem<Id>)
    requires (0, 10) !in mem.store
    ensures var after := Exec(NAMED, FREED, map[], FromNode(FANNED[2]), mem);
            (0, 10) !in after.store && Peek(after.store, (0, 1)) == Some(N)
  {
    assert SlotOf(FANNED[2]) == Some(1);
  }

  lemma {:induction false} GatherStep(mem: Mem<Id>)
    requires (0, 10) !in mem.store && Peek(mem.store, (0, 1)) == Some(N)
    ensures var after := Exec(NAMED, FREED, map[], FromNode(FANNED[3]), mem);
            G in after.seen && after.seen[G] == [None, Some(N)]
  {
    FanLookups();
    FanEmits(FANNED[3]);
    assert PeekAll(mem.store, PlacesOn(0, [10, 1])) == [None, Some(N)];
  }

  lemma {:induction false} FanMemory(init: Mem<Id>)
    ensures var mem := Run(NAMED, FREED, map[], init, FAN_RUN, 5); G in mem.seen && mem.seen[G] == [None, Some(N)]
  {
    var m2 := Run(NAMED, FREED, map[], init, FAN_RUN, 2);
    var m3 := Run(NAMED, FREED, map[], init, FAN_RUN, 3);
    assert m3 == Exec(NAMED, FREED, map[], FAN_RUN[2], m2);
    FreeStep(m2);
    var m4 := Run(NAMED, FREED, map[], init, FAN_RUN, 4);
    assert m4 == Exec(NAMED, FREED, map[], FAN_RUN[3], m3);
    FollowStep(m3);
    GatherStep(m4);
  }

  const ALL_ORDER: seq<nat> := [0, 1, 2, 3, 4]

  lemma {:induction false} NamedStep(nodes: seq<Node>, order: seq<nat>, k: nat)
    requires k < |order| && InRange(nodes, order)
    ensures var x := nodes[order[k]].id;
            OneMachine(NAMED, nodes, order, k + 1) == OneMachine(NAMED, nodes, order, k)[x := x]
  {
  }

  lemma {:induction false} FanReference()
    ensures InRange(FREED, ALL_ORDER)
    ensures PeekAll(OneMachine(NAMED, FREED, ALL_ORDER, 5), ReadsOf(FANNED[3])) == [Some(S), Some(N)]
  {
    NamedStep(FREED, ALL_ORDER, 0);
    NamedStep(FREED, ALL_ORDER, 1);
    NamedStep(FREED, ALL_ORDER, 2);
    NamedStep(FREED, ALL_ORDER, 3);
    NamedStep(FREED, ALL_ORDER, 4);
  }

  /** A graph that meets every other premise of the dataflow theorem, and a run of it in which the Aggregate reads an
      emptied slot where one machine would give it s's value. */
  lemma {:induction false} FreedTooEarly(init: Mem<Id>)
    ensures InRange(FAN, FAN_ORDER) && InRange(FREED, ALL_ORDER)
    ensures var r := Assignment(FAN, FAN_ORDER, 1); r.Some? && r.value.nodes == FANNED && WithFrees(FANNED) == FREED
    ensures !NeededKept(FREED)
    ensures Sound(FREED, 1, [], map[], 112) && KeysCut([], map[]) && IsRun(FREED, [], map[], FAN_RUN)
    ensures var mem := Run(NAMED, FREED, map[], init, FAN_RUN, 5); G in mem.seen && mem.seen[G] == [None, Some(N)]
    ensures PeekAll(OneMachine(NAMED, FREED, ALL_ORDER, 5), ReadsOf(FANNED[3])) == [Some(S), Some(N)]
  {
    FanAssigned();
    FanFreed();
    FanNeeded();
    FanSound(112);
    FanRun();
    FanMemory(init);
    FanReference();
  }
}
