/**
  Cross-host streaming: choosing cut points, splitting a StreamPipeline into
  RDMA-linked segments and turning its Output into a sink
  (Partitioner/partitioner/src/splitter.rs).
 */
module StreamSplit {
  import opened Prelude
  import opened Sequences
  import opened SymbolicDag

  // ---------------------------------------------------------------------------
  // Cut points
  // ---------------------------------------------------------------------------

  /** Cost of cutting after a stage; None stands for infinity (`avoid`). */
  function BoundaryCost(s: Stage): Option<real> {
    match s.split
    case Some(Avoid) => None
    case Some(Prefer) => Some(0.0)
    case None => Some(if s.outWeight.Some? then s.outWeight.value else 1.0)
  }

  function CostAt(stages: seq<Stage>, k: nat): real {
    if k < |stages| && BoundaryCost(stages[k]).Some? then BoundaryCost(stages[k]).value else 0.0
  }

  predicate Cheaper(stages: seq<Stage>, a: nat, b: nat) {
    CostAt(stages, a) < CostAt(stages, b) || (CostAt(stages, a) == CostAt(stages, b) && a <= b)
  }

  /** A stage after which a cut may fall: not the last, not marked `avoid`. */
  predicate IsCandidate(stages: seq<Stage>, k: nat) {
    k + 1 < |stages| && BoundaryCost(stages[k]).Some?
  }

  function Candidates(stages: seq<Stage>, n: nat): (r: seq<nat>)
    ensures forall k: nat :: k in r <==> k < n && IsCandidate(stages, k)
    ensures forall i, j :: 0 <= i < j < |r| ==> r[i] < r[j]
  {
    if n == 0 then []
    else
      var c := Candidates(stages, n - 1);
      assert forall i :: 0 <= i < |c| ==> c[i] in c;
      c + (if IsCandidate(stages, n - 1) then [n - 1] else [])
  }

  predicate AtMost(a: nat, b: nat) { a <= b }

  function Ascending(xs: seq<nat>): seq<nat> {
    SortBy(xs, AtMost)
  }

  function ChooseCuts(stages: seq<Stage>, m: nat): seq<nat> {
    if m <= 1 || |stages| < 2 then []
    else
      var ranked := SortBy(Candidates(stages, |stages| - 1), (a, b) => Cheaper(stages, a, b));
      Ascending(if m - 1 < |ranked| then ranked[..m - 1] else ranked)
  }

  predicate StrictlyAscending(xs: seq<nat>) {
    forall i, j :: 0 <= i < j < |xs| ==> xs[i] < xs[j]
  }

  lemma {:induction false} AscendingCorrect(xs: seq<nat>)
    ensures multiset(Ascending(xs)) == multiset(xs)
    ensures forall i, j :: 0 <= i < j < |Ascending(xs)| ==> Ascending(xs)[i] <= Ascending(xs)[j]
  {
    SortByCorrect(xs, AtMost);
    forall i, j | 0 <= i < j < |Ascending(xs)| ensures Ascending(xs)[i] <= Ascending(xs)[j] {
      assert AtMost(Ascending(xs)[i], Ascending(xs)[j]);
    }
  }

  lemma {:induction false} DistinctMultiset(xs: seq<nat>, ys: seq<nat>)
    requires multiset(xs) == multiset(ys)
    requires forall i, j :: 0 <= i < j < |xs| ==> xs[i] != xs[j]
    ensures forall i, j :: 0 <= i < j < |ys| ==> ys[i] != ys[j]
  {
    forall i, j | 0 <= i < j < |ys| ensures ys[i] != ys[j] {
      if ys[i] == ys[j] {
        assert ys == ys[..i] + [ys[i]] + ys[i + 1..j] + [ys[j]] + ys[j + 1..];
        assert multiset(ys)[ys[i]] >= 2;
        OccursOnce(xs, ys[i]);
      }
    }
  }

  lemma {:induction false} OccursOnce<T>(xs: seq<T>, x: T)
    requires forall i, j :: 0 <= i < j < |xs| ==> xs[i] != xs[j]
    ensures multiset(xs)[x] <= 1
  {
    if xs != [] {
      var n := |xs| - 1;
      OccursOnce(xs[..n], x);
      assert xs == xs[..n] + [xs[n]];
      assert forall i :: 0 <= i < n ==> xs[..n][i] != xs[n];
    }
  }

  /** In a sorted sequence, whatever is in a prefix ranks before whatever is not. */
  lemma {:induction false} PrefixFirst(ranked: seq<nat>, le: (nat, nat) -> bool, m: nat, c: nat, k: nat)
    requires m <= |ranked| && forall i, j :: 0 <= i < j < |ranked| ==> le(ranked[i], ranked[j])
    requires c in ranked[..m] && k in ranked && k !in ranked[..m]
    ensures le(c, k)
  {
    assert forall t :: 0 <= t < m ==> ranked[t] in ranked[..m];
    var i :| 0 <= i < m && ranked[i] == c;
    var j :| 0 <= j < |ranked| && ranked[j] == k;
  }

  /** The automatic cuts: ascending, never after an `avoid` stage, as many as asked for or available,
      and no unchosen candidate ranks before a chosen one. */
  lemma {:induction false} ChooseCutsCheapest(stages: seq<Stage>, m: nat)
    ensures var cuts := ChooseCuts(stages, m);
            var pool := Candidates(stages, if |stages| == 0 then 0 else |stages| - 1);
            && StrictlyAscending(cuts)
            && (forall c :: c in cuts ==> IsCandidate(stages, c))
            && (m >= 1 ==> |cuts| == if m - 1 < |pool| then m - 1 else |pool|)
            && (forall c, k :: c in cuts && IsCandidate(stages, k) && k !in cuts ==> Cheaper(stages, c, k))
  {
    if m <= 1 || |stages| < 2 {
    } else {
      var pool := Candidates(stages, |stages| - 1);
      var le := (a: nat, b: nat) => Cheaper(stages, a, b);
      var ranked := SortBy(pool, le);
      var chosen := if m - 1 < |ranked| then ranked[..m - 1] else ranked;
      var cuts := ChooseCuts(stages, m);
      SortByCorrect(pool, le);
      MultisetMembers(ranked, pool);
      DistinctMultiset(pool, ranked);
      AscendingCorrect(chosen);
      MultisetMembers(cuts, chosen);
      DistinctMultiset(chosen, cuts);
      forall c, k | c in cuts && IsCandidate(stages, k) && k !in cuts
        ensures Cheaper(stages, c, k)
      {
        assert k in pool && k in ranked && c in chosen;
        PrefixFirst(ranked, le, |chosen|, c, k);
      }
    }
  }

  function Dedup(xs: seq<nat>): seq<nat> {
    if |xs| <= 1 then xs
    else
      var init, last := Dedup(xs[..|xs| - 1]), xs[|xs| - 1];
      if xs[|xs| - 2] == last then init else init + [last]
  }

  lemma {:induction false} AscendingSnoc(d: seq<nat>, x: nat)
    requires StrictlyAscending(d) && (d == [] || d[|d| - 1] < x)
    ensures StrictlyAscending(d + [x])
  {
    forall i | 0 <= i < |d| ensures d[i] < x { assert i < |d| - 1 ==> d[i] < d[|d| - 1]; }
  }

  lemma {:induction false} DedupCorrect(xs: seq<nat>)
    requires forall i, j :: 0 <= i < j < |xs| ==> xs[i] <= xs[j]
    ensures StrictlyAscending(Dedup(xs))
    ensures forall x :: x in Dedup(xs) <==> x in xs
    ensures xs != [] ==> Dedup(xs) != [] && Dedup(xs)[|Dedup(xs)| - 1] == xs[|xs| - 1]
  {
    if |xs| > 1 {
      var init, last := xs[..|xs| - 1], xs[|xs| - 1];
      DedupCorrect(init);
      assert xs == init + [last];
      assert init[|init| - 1] == xs[|xs| - 2] <= last;
      if init[|init| - 1] < last { AscendingSnoc(Dedup(init), last); }
    }
  }

  /** Requested or automatic cuts, sorted and deduplicated; None when the pipeline stays whole. */
  function CutPoints(k: Kind, total: nat): Result<Option<seq<nat>>>
    requires k.StreamPipeline?
  {
    if k.cutAfter.None? && (k.segments.None? || k.segments.value <= 1) then Ok(None)
    else
      var want := if k.cutAfter.Some? then k.cutAfter.value
                  else ChooseCuts(k.stages, Min(k.segments.value, Min(total, |k.stages|)));
      var cuts := Dedup(Ascending(want));
      if cuts == [] then Ok(None)
      else if cuts[|cuts| - 1] + 1 >= |k.stages| then Err("cut leaves no stages downstream")
      else if |cuts| + 1 > total then Err("more segments than machines")
      else Ok(Some(cuts))
  }

  predicate ValidCuts(stages: seq<Stage>, cuts: seq<nat>, total: nat) {
    cuts != [] && StrictlyAscending(cuts) && cuts[|cuts| - 1] + 1 < |stages| && |cuts| + 1 <= total
  }

  lemma {:induction false} CutPointsValid(k: Kind, total: nat)
    requires k.StreamPipeline?
    requires CutPoints(k, total).Ok? && CutPoints(k, total).value.Some?
    ensures ValidCuts(k.stages, CutPoints(k, total).value.value, total)
    ensures k.cutAfter.None? ==> forall c :: c in CutPoints(k, total).value.value ==> IsCandidate(k.stages, c)
    ensures k.cutAfter.Some? ==> forall c :: c in CutPoints(k, total).value.value <==> c in k.cutAfter.value
  {
    var want := if k.cutAfter.Some? then k.cutAfter.value
    else ChooseCuts(k.stages, Min(k.segments.value, Min(total, |k.stages|)));
    AscendingCorrect(want);
    MultisetMembers(Ascending(want), want);
    DedupCorrect(Ascending(want));
    if k.cutAfter.None? {
      ChooseCutsCheapest(k.stages, Min(k.segments.value, Min(total, |k.stages|)));
    }
  }

  // ---------------------------------------------------------------------------
  // Machine order
  // ---------------------------------------------------------------------------

  predicate StrongerHost(hints: Hints, a: nat, b: nat) {
    CapacityOf(hints, b) < CapacityOf(hints, a) || (CapacityOf(hints, a) == CapacityOf(hints, b) && a <= b)
  }

  function Others(total: nat): (r: seq<nat>)
    requires total >= 1
    ensures |r| == total - 1 && forall i :: 0 <= i < |r| ==> r[i] == i + 1
  {
    seq(total - 1, (i: nat) => i + 1)
  }

  /** Coordinator first, then the other machines by falling capacity. */
  function MachineOrder(total: nat, hints: Hints): (r: seq<nat>)
    requires total >= 1
    ensures |r| == total
  {
    [0] + SortBy(Others(total), (a, b) => StrongerHost(hints, a, b))
  }

  lemma {:induction false} MachineOrderIsPermutation(total: nat, hints: Hints)
    requires total >= 1
    ensures IsPermutation(MachineOrder(total, hints), total) && MachineOrder(total, hints)[0] == 0
    ensures forall i, j :: 1 <= i < j < total ==>
                             StrongerHost(hints, MachineOrder(total, hints)[i], MachineOrder(total, hints)[j])
  {
    var rest := Others(total);
    var le := (a: nat, b: nat) => StrongerHost(hints, a, b);
    SortByCorrect(rest, le);
    var o := MachineOrder(total, hints);
    assert o[1..] == SortBy(rest, le);
    assert Range(total) == [0] + rest;
    PermutationOfRange(o, total);
    forall i, j | 1 <= i < j < total ensures StrongerHost(hints, o[i], o[j]) {
      assert le(o[1..][i - 1], o[1..][j - 1]);
    }
  }

  // ---------------------------------------------------------------------------
  // Segments
  // ---------------------------------------------------------------------------

  function SlotAfter(stages: seq<Stage>, c: nat): nat {
    if c < |stages| && stages[c].arg1.Some? then stages[c].arg1.value else 0
  }

  function SegmentLo(cuts: seq<nat>, s: nat): nat
    requires s <= |cuts|
  {
    if s == 0 then 0 else cuts[s - 1] + 1
  }

  function SegmentHi(stages: seq<Stage>, cuts: seq<nat>, s: nat): nat
    requires s <= |cuts|
  {
    if s < |cuts| then cuts[s] + 1 else |stages|
  }

  lemma {:induction false} SegmentBounds(stages: seq<Stage>, cuts: seq<nat>, total: nat, s: nat)
    requires ValidCuts(stages, cuts, total) && s <= |cuts|
    ensures SegmentLo(cuts, s) < SegmentHi(stages, cuts, s) <= |stages|
    ensures s < |cuts| ==> SegmentHi(stages, cuts, s) == SegmentLo(cuts, s + 1)
  {
    if s < |cuts| - 1 { assert cuts[s] < cuts[|cuts| - 1]; }
    if 0 < s < |cuts| { assert cuts[s - 1] < cuts[s]; }
    if s == |cuts| { assert cuts[s - 1] < |stages|; }
  }

  function SegmentNode(n: Node, cuts: seq<nat>, machines: seq<nat>, s: nat): Node
    requires n.kind.StreamPipeline? && s <= |cuts| < |machines|
    requires ValidCuts(n.kind.stages, cuts, |machines|)
  {
    var stages := n.kind.stages;
    SegmentBounds(stages, cuts, |machines|, s);
    var recv := if s > 0 then Some(Link(machines[s - 1], SlotAfter(stages, cuts[s - 1]), false, false)) else None;
    var send := if s < |cuts| then Link(machines[s + 1], SlotAfter(stages, cuts[s]), false, true)
                else Link(0, SlotAfter(stages, |stages| - 1), true, true);
    Node(Segment(n.id, s), if s == 0 then n.deps else [], Some(machines[s]), None, None, false, None, None,
         StreamPipeline(n.kind.rounds, stages[SegmentLo(cuts, s)..SegmentHi(stages, cuts, s)], None, None,
                        recv, Some(send)))
  }

  function SegmentNodes(n: Node, cuts: seq<nat>, machines: seq<nat>): (r: seq<Node>)
    requires n.kind.StreamPipeline? && |cuts| < |machines|
    requires ValidCuts(n.kind.stages, cuts, |machines|)
    ensures |r| == |cuts| + 1
  {
    seq(|cuts| + 1, s requires 0 <= s <= |cuts| => SegmentNode(n, cuts, machines, s))
  }

  // ---------------------------------------------------------------------------
  // The pass
  // ---------------------------------------------------------------------------

  type Plan = map<Id, seq<nat>>

  function CutsOf(n: Node, total: nat): Result<Option<seq<nat>>> {
    if n.kind.StreamPipeline? then CutPoints(n.kind, total) else Ok(None)
  }

  /** The plan lists exactly the pipelines to be split, with their cuts. */
  ghost predicate IsPlan(nodes: seq<Node>, total: nat, plan: Plan) {
    && plan.Keys <= Ids(nodes)
    && forall n :: n in nodes ==>
                     CutsOf(n, total) == Ok(if n.id in plan then Some(plan[n.id]) else None)
  }

  /** n is split by a plan for this many machines. */
  predicate IsSplit(n: Node, plan: Plan, total: nat) {
    n.id in plan && n.kind.StreamPipeline? && ValidCuts(n.kind.stages, plan[n.id], total)
  }

  function FirstSplitDep(nodes: seq<Node>, deps: seq<Id>, plan: Plan): (r: Option<Node>)
    ensures r.Some? ==> r.value in nodes && r.value.id in plan && r.value.id in deps
  {
    if deps == [] then None
    else if deps[0] in plan && Lookup(nodes, deps[0]).Some? then Lookup(nodes, deps[0])
    else FirstSplitDep(nodes, deps[1..], plan)
  }

  function RoundsOf(k: Kind): nat {
    if k.StreamPipeline? && k.rounds.Some? then k.rounds.value else 0
  }

  function SinkFor(n: Node, p: Node, cuts: seq<nat>, machines: seq<nat>): Node
    requires n.kind.Output? && p.kind.StreamPipeline? && |cuts| < |machines|
  {
    var stages := p.kind.stages;
    var slot := if |stages| > 0 then SlotAfter(stages, |stages| - 1) else 0;
    Node(n.id, p.deps, Some(0), None, None, false, None, None,
         StreamOutput(RoundsOf(p.kind), slot, Link(machines[|cuts|], slot, true, false), n.kind.paths))
  }

  /** The Output of a split pipeline becomes a sink on machine 0; every other node passes through. */
  function Residual(nodes: seq<Node>, n: Node, plan: Plan, machines: seq<nat>): Node {
    var p := FirstSplitDep(nodes, n.deps, plan);
    if n.kind.Output? && p.Some? && IsSplit(p.value, plan, |machines|)
    then SinkFor(n, p.value, plan[p.value.id], machines)
    else n
  }

  function SegmentsOrNone(n: Node, plan: Plan, machines: seq<nat>): seq<Node> {
    if IsSplit(n, plan, |machines|) then SegmentNodes(n, plan[n.id], machines) else []
  }

  function ResidualOrNone(nodes: seq<Node>, n: Node, plan: Plan, machines: seq<nat>): seq<Node> {
    if n.id in plan then [] else [Residual(nodes, n, plan, machines)]
  }

  function SplitResult(nodes: seq<Node>, plan: Plan, machines: seq<nat>): seq<Node> {
    FlatMap(nodes, (n: Node) => SegmentsOrNone(n, plan, machines))
    + FlatMap(nodes, (n: Node) => ResidualOrNone(nodes, n, plan, machines))
  }

  /** A split pipeline without a round count, or without an output slot at a boundary or at the end. */
  predicate LacksSlots(n: Node, cuts: seq<nat>) {
    n.kind.StreamPipeline? && |n.kind.stages| > 0 &&
    (|| n.kind.rounds.None?
     || n.kind.stages[|n.kind.stages| - 1].arg1.None?
     || exists c :: c in cuts && c < |n.kind.stages| && n.kind.stages[c].arg1.None?)
  }

  /** An Output that returns a split pipeline must name one path per round. */
  predicate SinkLacksPaths(nodes: seq<Node>, n: Node, plan: Plan) {
    n.id !in plan && n.kind.Output? && FirstSplitDep(nodes, n.deps, plan).Some? && n.kind.paths == []
  }

  lemma {:induction false} NewId(nodes: seq<Node>, i: nat)
    requires DistinctIds(nodes) && i < |nodes|
    ensures nodes[..i + 1] == nodes[..i] + [nodes[i]]
    ensures Ids(nodes[..i + 1]) == Ids(nodes[..i]) + {nodes[i].id} && nodes[i].id !in Ids(nodes[..i])
  {
    var key := (n: Node) => n.id;
    assert forall k :: 0 <= k < i ==> key(nodes[k]) != key(nodes[i]);
    assert nodes[..i + 1] == nodes[..i] + [nodes[i]];
  }

  lemma {:induction false} PlanGrows(
    done: seq<Node>, n: Node, total: nat, plan: Plan, cuts: Option<seq<nat>>, plan': Plan)
    requires IsPlan(done, total, plan) && n.id !in Ids(done) && Ids(done + [n]) == Ids(done) + {n.id}
    requires CutsOf(n, total) == Ok(cuts) && plan' == if cuts.Some? then plan[n.id := cuts.value] else plan
    ensures IsPlan(done + [n], total, plan')
  {
    forall m | m in done + [n]
      ensures CutsOf(m, total) == Ok(if m.id in plan' then Some(plan'[m.id]) else None)
    {
      if m in done { assert m.id in Ids(done); }
    }
  }

  /** Why splitting refuses a graph: bad cut points, a missing slot or round count, or a returning Output
      without paths. */
  ghost predicate SplitRefuses(nodes: seq<Node>, total: nat, plan: Plan) {
    || (exists n :: n in nodes && CutsOf(n, total).Err?)
    || (exists n :: n in nodes && IsSplit(n, plan, total) && LacksSlots(n, plan[n.id]))
    || (exists n :: n in nodes && SinkLacksPaths(nodes, n, plan))
  }

  /** Unless some cut points are invalid, this is the plan of the graph. */
  ghost predicate PlanFor(nodes: seq<Node>, total: nat, plan: Plan) {
    (forall n :: n in nodes ==> CutsOf(n, total).Ok?) ==> IsPlan(nodes, total, plan)
  }

  /** A graph has at most one plan, so a refusal depends on the graph alone. */
  lemma {:induction false} PlanUnique(nodes: seq<Node>, total: nat, p: Plan, q: Plan)
    requires IsPlan(nodes, total, p) && IsPlan(nodes, total, q)
    ensures p == q
  {
    forall x | x in p || x in q ensures x in p && x in q && p[x] == q[x] {
      assert x in Ids(nodes);
      var n :| n in nodes && n.id == x;
      assert CutsOf(n, total) == Ok(if x in p then Some(p[x]) else None);
      assert CutsOf(n, total) == Ok(if x in q then Some(q[x]) else None);
    }
    assert p.Keys == q.Keys;
  }

  method CollectCuts(nodes: seq<Node>, total: nat) returns (ok: bool, plan: Plan)
    requires DistinctIds(nodes)
    ensures ok <==> forall n :: n in nodes ==> CutsOf(n, total).Ok?
    ensures ok ==> IsPlan(nodes, total, plan)
  {
    plan := map[];
    for i := 0 to |nodes|
      invariant IsPlan(nodes[..i], total, plan)
      invariant forall k :: 0 <= k < i ==> CutsOf(nodes[k], total).Ok?
    {
      var n := nodes[i];
      var c := CutsOf(n, total);
      if c.Err? {
        assert n in nodes;
        return false, plan;
      }
      NewId(nodes, i);
      ghost var before := plan;
      if c.value.Some? {
        plan := plan[n.id := c.value.value];
      }
      PlanGrows(nodes[..i], n, total, before, c.value, plan);
    }
    assert nodes[..|nodes|] == nodes;
    ok := true;
  }

  /** First pass: the segments of every split pipeline. */
  method EmitSegments(nodes: seq<Node>, plan: Plan, machines: seq<nat>) returns (ok: bool, segs: seq<Node>)
    ensures ok ==> segs == FlatMap(nodes, (n: Node) => SegmentsOrNone(n, plan, machines))
    ensures ok <==> forall n :: n in nodes && IsSplit(n, plan, |machines|) ==> !LacksSlots(n, plan[n.id])
  {
    ghost var f := (n: Node) => SegmentsOrNone(n, plan, machines);
    segs := [];
    for i := 0 to |nodes|
      invariant segs == FlatMap(nodes[..i], f)
      invariant forall k :: 0 <= k < i && IsSplit(nodes[k], plan, |machines|) ==>
                              !LacksSlots(nodes[k], plan[nodes[k].id])
    {
      var n := nodes[i];
      FlatMapStep(nodes, f, i);
      if IsSplit(n, plan, |machines|) {
        if LacksSlots(n, plan[n.id]) {
          return false, segs;
        }
        var more := SplitOne(n, plan[n.id], machines);
        segs := segs + more;
      }
    }
    assert nodes[..|nodes|] == nodes;
    ok := true;
  }

  method SplitOne(n: Node, cuts: seq<nat>, machines: seq<nat>) returns (segs: seq<Node>)
    requires n.kind.StreamPipeline? && ValidCuts(n.kind.stages, cuts, |machines|)
    ensures segs == SegmentNodes(n, cuts, machines)
  {
    segs := [];
    for s := 0 to |cuts| + 1
      invariant |segs| == s
      invariant forall k :: 0 <= k < s ==> segs[k] == SegmentNode(n, cuts, machines, k)
    {
      segs := segs + [SegmentNode(n, cuts, machines, s)];
    }
  }

  /** Second pass: sinks for the split pipelines' Outputs, everything else unchanged. */
  method EmitResidual(nodes: seq<Node>, plan: Plan, machines: seq<nat>) returns (ok: bool, rest: seq<Node>)
    ensures ok ==> rest == FlatMap(nodes, (n: Node) => ResidualOrNone(nodes, n, plan, machines))
    ensures ok <==> forall n :: n in nodes ==> !SinkLacksPaths(nodes, n, plan)
  {
    ghost var g := (n: Node) => ResidualOrNone(nodes, n, plan, machines);
    rest := [];
    for i := 0 to |nodes|
      invariant rest == FlatMap(nodes[..i], g)
      invariant forall k :: 0 <= k < i ==> !SinkLacksPaths(nodes, nodes[k], plan)
    {
      var n := nodes[i];
      FlatMapStep(nodes, g, i);
      if n.id !in plan {
        if SinkLacksPaths(nodes, n, plan) {
          return false, rest;
        }
        rest := rest + [Residual(nodes, n, plan, machines)];
      }
    }
    assert nodes[..|nodes|] == nodes;
    ok := true;
  }

  /** What the pass produces on success, and exactly when it fails. */
  method SplitStreamPipelines(nodes: seq<Node>, total: nat, hints: Hints) returns (r: Result<seq<Node>>, plan: Plan)
    requires total >= 1 && DistinctIds(nodes)
    ensures PlanFor(nodes, total, plan) && (r.Ok? ==> IsPlan(nodes, total, plan))
    ensures r.Ok? ==> r.value == if plan == map[] then nodes else SplitResult(nodes, plan, MachineOrder(total, hints))
    ensures r.Err? <==> SplitRefuses(nodes, total, plan)
  {
    var ok;
    ok, plan := CollectCuts(nodes, total);
    if !ok {
      return Err("invalid cut points"), plan;
    }
    if plan == map[] {
      return Ok(nodes), plan;
    }
    var machines := MachineOrder(total, hints);
    var ok1, segs := EmitSegments(nodes, plan, machines);
    if !ok1 {
      return Err("pipeline cannot be cut here"), plan;
    }
    var ok2, rest := EmitResidual(nodes, plan, machines);
    if !ok2 {
      return Err("a returning Output needs paths"), plan;
    }
    r := Ok(segs + rest);
  }
}
