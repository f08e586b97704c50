/** Segmenting a StreamPipeline preserves its stages, its wiring, its meaning and acyclicity. */
module StreamSplitProofs {
  import opened Prelude
  import opened Sequences
  import opened Graphs
  import opened SymbolicDag
  import opened StreamSplit

  // ---------------------------------------------------------------------------
  // Structure
  // ---------------------------------------------------------------------------

  function StagesIn(n: Node): seq<Stage> {
    if n.kind.StreamPipeline? then n.kind.stages else []
  }

  lemma {:induction false} SegmentPrefix(n: Node, cuts: seq<nat>, machines: seq<nat>, k: nat)
    requires n.kind.StreamPipeline? && ValidCuts(n.kind.stages, cuts, |machines|) && k <= |cuts|
    ensures SegmentHi(n.kind.stages, cuts, k) <= |n.kind.stages|
    ensures FlatMap(SegmentNodes(n, cuts, machines)[..k + 1], StagesIn)
         == n.kind.stages[..SegmentHi(n.kind.stages, cuts, k)]
  {
    var segs, stages := SegmentNodes(n, cuts, machines), n.kind.stages;
    SegmentBounds(stages, cuts, |machines|, k);
    FlatMapStep(segs, StagesIn, k);
    if k > 0 {
      SegmentBounds(stages, cuts, |machines|, k - 1);
      SegmentPrefix(n, cuts, machines, k - 1);
    }
  }

  /** A boundary: send and recv name each other's machine and the same slot. */
  ghost predicate Linked(a: Node, b: Node) {
    && a.kind.StreamPipeline? && b.kind.StreamPipeline? && a.kind.send.Some? && b.kind.recv.Some?
    && a.kind.send.value.slot == b.kind.recv.value.slot
    && Some(a.kind.send.value.peer) == b.host && Some(b.kind.recv.value.peer) == a.host
  }

  /** A segment that can run: it has stages, a machine and somewhere to send. */
  predicate Runnable(n: Node, total: nat) {
    && n.kind.StreamPipeline? && n.kind.stages != [] && n.kind.send.Some?
    && n.host.Some? && n.host.value < total
  }

  lemma {:induction false} SegmentRunnable(n: Node, cuts: seq<nat>, machines: seq<nat>, s: nat)
    requires n.kind.StreamPipeline? && ValidCuts(n.kind.stages, cuts, |machines|) && s <= |cuts|
    requires IsPermutation(machines, |machines|)
    ensures Runnable(SegmentNode(n, cuts, machines, s), |machines|)
  {
    SegmentBounds(n.kind.stages, cuts, |machines|, s);
  }

  lemma {:induction false} SegmentsLinked(n: Node, cuts: seq<nat>, machines: seq<nat>, s: nat)
    requires n.kind.StreamPipeline? && ValidCuts(n.kind.stages, cuts, |machines|) && s < |cuts|
    requires IsPermutation(machines, |machines|)
    ensures Linked(SegmentNode(n, cuts, machines, s), SegmentNode(n, cuts, machines, s + 1))
  {
    SegmentBounds(n.kind.stages, cuts, |machines|, s);
  }

  lemma {:induction false} SegmentsApart(n: Node, cuts: seq<nat>, machines: seq<nat>, s: nat, t: nat)
    requires n.kind.StreamPipeline? && ValidCuts(n.kind.stages, cuts, |machines|) && s < t <= |cuts|
    requires IsPermutation(machines, |machines|)
    ensures SegmentNode(n, cuts, machines, s).host != SegmentNode(n, cuts, machines, t).host
  {
    assert machines[s] != machines[t];
  }

  lemma {:induction false} SegmentEnds(n: Node, cuts: seq<nat>, machines: seq<nat>)
    requires n.kind.StreamPipeline? && ValidCuts(n.kind.stages, cuts, |machines|)
    ensures SegmentNode(n, cuts, machines, 0).kind.recv.None?
    ensures SegmentNode(n, cuts, machines, |cuts|).kind.send
         == Some(Link(0, SlotAfter(n.kind.stages, |n.kind.stages| - 1), true, true))
  {
    SegmentBounds(n.kind.stages, cuts, |machines|, |cuts|);
  }

  ghost predicate Cut(n: Node, cuts: seq<nat>, machines: seq<nat>, segs: seq<Node>) {
    && n.kind.StreamPipeline? && ValidCuts(n.kind.stages, cuts, |machines|)
    && IsPermutation(machines, |machines|) && segs == SegmentNodes(n, cuts, machines)
  }

  lemma {:induction false} AllConcat(n: Node, cuts: seq<nat>, machines: seq<nat>, segs: seq<Node>)
    requires Cut(n, cuts, machines, segs)
    ensures FlatMap(segs, StagesIn) == n.kind.stages && |segs| == |cuts| + 1
  {
    SegmentPrefix(n, cuts, machines, |cuts|);
    assert segs[..|cuts| + 1] == segs;
  }

  lemma {:induction false} AllRunnable(n: Node, cuts: seq<nat>, machines: seq<nat>, segs: seq<Node>)
    requires Cut(n, cuts, machines, segs)
    ensures forall s :: 0 <= s < |segs| ==> Runnable(segs[s], |machines|)
  {
    forall s | 0 <= s < |segs| ensures Runnable(segs[s], |machines|) {
      SegmentRunnable(n, cuts, machines, s);
    }
  }

  lemma {:induction false} AllApart(n: Node, cuts: seq<nat>, machines: seq<nat>, segs: seq<Node>)
    requires Cut(n, cuts, machines, segs)
    ensures forall s, t :: 0 <= s < t < |segs| ==> segs[s].host != segs[t].host
  {
    forall s, t | 0 <= s < t < |segs| ensures segs[s].host != segs[t].host {
      SegmentsApart(n, cuts, machines, s, t);
    }
  }

  lemma {:induction false} AllLinked(n: Node, cuts: seq<nat>, machines: seq<nat>, segs: seq<Node>)
    requires Cut(n, cuts, machines, segs)
    ensures forall s, t :: 0 <= s && t == s + 1 && t < |segs| ==> Linked(segs[s], segs[t])
  {
    forall s, t | 0 <= s && t == s + 1 && t < |segs| ensures Linked(segs[s], segs[t]) {
      SegmentsLinked(n, cuts, machines, s);
    }
  }

  /** The segments are non-empty, concatenate to the original stages, sit on distinct machines, are linked
      one to the next, and the last returns to machine 0 over the I/O lane. */
  lemma {:induction false} SegmentsWired(n: Node, cuts: seq<nat>, machines: seq<nat>, segs: seq<Node>)
    requires Cut(n, cuts, machines, segs)
    ensures FlatMap(segs, StagesIn) == n.kind.stages && |segs| == |cuts| + 1
    ensures forall s :: 0 <= s < |segs| ==> Runnable(segs[s], |machines|)
    ensures forall s, t :: 0 <= s < t < |segs| ==> segs[s].host != segs[t].host
    ensures forall s, t :: 0 <= s && t == s + 1 && t < |segs| ==> Linked(segs[s], segs[t])
    ensures segs[0].kind.recv.None?
    ensures segs[|cuts|].kind.send == Some(Link(0, SlotAfter(n.kind.stages, |n.kind.stages| - 1), true, true))
  {
    AllConcat(n, cuts, machines, segs);
    AllRunnable(n, cuts, machines, segs);
    AllApart(n, cuts, machines, segs);
    AllLinked(n, cuts, machines, segs);
    SegmentEnds(n, cuts, machines);
  }

  /** The last segment's send and the sink that an Output of the pipeline becomes name each other's machine and
      the same slot of the I/O lane. */
  lemma {:induction false} SinkWired(nodes: seq<Node>, n: Node, plan: Plan, machines: seq<nat>, last: Node)
    requires n.kind.Output? && FirstSplitDep(nodes, n.deps, plan).Some?
    requires var p := FirstSplitDep(nodes, n.deps, plan).value;
             IsSplit(p, plan, |machines|) && last == SegmentNode(p, plan[p.id], machines, |plan[p.id]|)
    ensures var sink := Residual(nodes, n, plan, machines);
            && sink.id == n.id && sink.kind.StreamOutput? && sink.kind.sinkPaths == n.kind.paths
            && last.kind.StreamPipeline? && last.kind.send.Some?
            && last.kind.send.value.slot == sink.kind.sinkRecv.slot && last.kind.send.value.io && sink.kind.sinkRecv.io
            && Some(last.kind.send.value.peer) == sink.host && Some(sink.kind.sinkRecv.peer) == last.host
  {
    var p := FirstSplitDep(nodes, n.deps, plan).value;
    SegmentBounds(p.kind.stages, plan[p.id], |machines|, |plan[p.id]|);
    SegmentEnds(p, plan[p.id], machines);
  }

  // ---------------------------------------------------------------------------
  // Meaning
  // ---------------------------------------------------------------------------

  /** One round on one machine: each stage reads its input slot and fills its output slot. */
  ghost function RunStages<V>(run: (string, V) -> V, stages: seq<Stage>, store: map<nat, V>): map<nat, V> {
    if stages == [] then store
    else
      var s := stages[0];
      RunStages(run, stages[1..],
                if s.arg0 in store && s.arg1.Some? then store[s.arg1.value := run(s.func, store[s.arg0])] else store)
  }

  ghost function Compose<V>(run: (string, V) -> V, stages: seq<Stage>, v: V): V {
    if stages == [] then v else Compose(run, stages[1..], run(stages[0].func, v))
  }

  /** Each stage reads what the previous one wrote. */
  ghost predicate Linear(stages: seq<Stage>) {
    && (forall i :: 0 <= i < |stages| ==> stages[i].arg1.Some?)
    && (forall i :: 0 <= i < |stages| - 1 ==> stages[i + 1].arg0 == stages[i].arg1.value)
  }

  lemma {:induction false} ComposeConcat<V>(run: (string, V) -> V, a: seq<Stage>, b: seq<Stage>, v: V)
    ensures Compose(run, a + b, v) == Compose(run, b, Compose(run, a, v))
  {
    if a == [] {
      assert a + b == b;
    } else {
      assert (a + b)[1..] == a[1..] + b;
      ComposeConcat(run, a[1..], b, run(a[0].func, v));
    }
  }

  lemma {:induction false} RunLinear<V>(run: (string, V) -> V, stages: seq<Stage>, store: map<nat, V>)
    requires Linear(stages) && stages != [] && stages[0].arg0 in store
    ensures var r, out := RunStages(run, stages, store), stages[|stages| - 1].arg1.value;
            out in r && r[out] == Compose(run, stages, store[stages[0].arg0])
    decreases |stages|
  {
    var s := stages[0];
    var next := store[s.arg1.value := run(s.func, store[s.arg0])];
    if |stages| > 1 {
      assert stages[1].arg0 == s.arg1.value;
      RunLinear(run, stages[1..], next);
    } else {
      assert stages[1..] == [];
    }
  }

  /** One segment, one round: the incoming value lands in the recv slot (or in the first stage's input
      slot), the stages run on that machine's own store, and the send slot leaves. */
  ghost function RelayOne<V>(run: (string, V) -> V, seg: Node, store: map<nat, V>, v: V): V {
    if !(seg.kind.StreamPipeline? && seg.kind.stages != [] && seg.kind.send.Some?) then v
    else
      var k := seg.kind;
      var slot := if k.recv.Some? then k.recv.value.slot else k.stages[0].arg0;
      var after := RunStages(run, k.stages, store[slot := v]);
      if k.send.value.slot in after then after[k.send.value.slot] else v
  }

  /** One round through a chain of segments, each on its own store. */
  ghost function Relay<V>(run: (string, V) -> V, segs: seq<Node>, stores: seq<map<nat, V>>, v: V): V
    requires |stores| == |segs|
  {
    if segs == [] then v
    else
      var n := |segs| - 1;
      RelayOne(run, segs[n], stores[n], Relay(run, segs[..n], stores[..n], v))
  }

  /** Whatever the store holds, the segment computes the composition of its stages. */
  ghost predicate Computes<V(!new)>(run: (string, V) -> V, seg: Node) {
    forall store: map<nat, V>, v: V :: RelayOne(run, seg, store, v) == Compose(run, StagesIn(seg), v)
  }

  lemma {:induction false} RelaySegment<V>(
    run: (string, V) -> V, n: Node, cuts: seq<nat>, machines: seq<nat>, s: nat, store: map<nat, V>, v: V)
    requires n.kind.StreamPipeline? && ValidCuts(n.kind.stages, cuts, |machines|) && Linear(n.kind.stages)
    requires s <= |cuts|
    ensures SegmentLo(cuts, s) < SegmentHi(n.kind.stages, cuts, s) <= |n.kind.stages|
    ensures RelayOne(run, SegmentNode(n, cuts, machines, s), store, v)
         == Compose(run, n.kind.stages[SegmentLo(cuts, s)..SegmentHi(n.kind.stages, cuts, s)], v)
  {
    var stages := n.kind.stages;
    SegmentBounds(stages, cuts, |machines|, s);
    var lo, hi := SegmentLo(cuts, s), SegmentHi(stages, cuts, s);
    var mine, k := stages[lo..hi], SegmentNode(n, cuts, machines, s).kind;
    assert k.stages == mine;
    var slot := if k.recv.Some? then k.recv.value.slot else mine[0].arg0;
    if s > 0 {
      assert lo - 1 == cuts[s - 1];
      assert stages[lo - 1].arg1.Some? && stages[lo].arg0 == stages[lo - 1].arg1.value;
    }
    assert slot == mine[0].arg0;
    assert stages[hi - 1].arg1.Some?;
    assert k.send.value.slot == mine[|mine| - 1].arg1.value;
    RunLinear(run, mine, store[slot := v]);
  }

  lemma {:induction false} RelayComposes<V(!new)>(
    run: (string, V) -> V, segs: seq<Node>, stores: seq<map<nat, V>>, v: V)
    requires |stores| == |segs| && forall i :: 0 <= i < |segs| ==> Computes(run, segs[i])
    ensures Relay(run, segs, stores, v) == Compose(run, FlatMap(segs, StagesIn), v)
    decreases |segs|
  {
    if segs != [] {
      var n := |segs| - 1;
      RelayComposes(run, segs[..n], stores[..n], v);
      ComposeConcat(run, FlatMap(segs[..n], StagesIn), StagesIn(segs[n]), v);
      assert Computes(run, segs[n]);
    }
  }

  lemma {:induction false} SegmentsCompute<V(!new)>(
    run: (string, V) -> V, n: Node, cuts: seq<nat>, machines: seq<nat>, segs: seq<Node>)
    requires n.kind.StreamPipeline? && ValidCuts(n.kind.stages, cuts, |machines|) && Linear(n.kind.stages)
    requires segs == SegmentNodes(n, cuts, machines)
    ensures forall i :: 0 <= i < |segs| ==> Computes(run, segs[i])
  {
    forall i | 0 <= i < |segs| ensures Computes(run, segs[i]) {
      forall st: map<nat, V>, w: V ensures RelayOne(run, segs[i], st, w) == Compose(run, StagesIn(segs[i]), w) {
        RelaySegment(run, n, cuts, machines, i, st, w);
      }
    }
  }

  /** A round through the segments, whatever the machines' stores held before, returns what the unsplit
      pipeline leaves in its last output slot. */
  lemma {:induction false} SplitMeaning<V(!new)>(
    run: (string, V) -> V, n: Node, cuts: seq<nat>, machines: seq<nat>, stores: seq<map<nat, V>>,
    store: map<nat, V>, v: V)
    requires n.kind.StreamPipeline? && ValidCuts(n.kind.stages, cuts, |machines|) && Linear(n.kind.stages)
    requires |stores| == |cuts| + 1
    ensures var stages := n.kind.stages;
            var whole := RunStages(run, stages, store[stages[0].arg0 := v]);
            && stages[|stages| - 1].arg1.value in whole
            && Relay(run, SegmentNodes(n, cuts, machines), stores, v) == whole[stages[|stages| - 1].arg1.value]
  {
    var segs := SegmentNodes(n, cuts, machines);
    SegmentsCompute(run, n, cuts, machines, segs);
    SegmentPrefix(n, cuts, machines, |cuts|);
    assert segs[..|cuts| + 1] == segs;
    assert n.kind.stages[..|n.kind.stages|] == n.kind.stages;
    RelayComposes(run, segs, stores, v);
    RunLinear(run, n.kind.stages, store[n.kind.stages[0].arg0 := v]);
  }

  // ---------------------------------------------------------------------------
  // Acyclicity
  // ---------------------------------------------------------------------------

  function Unsegment(id: Id): Id {
    if id.Segment? then id.pipeline else id
  }

  /** What an emitted node owes to the node it stems from. */
  ghost predicate StemsFrom(nodes: seq<Node>, c: Node, n: Node) {
    && n in nodes && Unsegment(c.id) == n.id && Generation(c.id) < 4
    && forall d :: d in c.deps ==> Generation(d) < 3 && Precedes(Edges(nodes), d, n.id)
  }

  lemma {:induction false} SegmentStems(nodes: seq<Node>, plan: Plan, machines: seq<nat>, c: Node, n: Node)
    requires MintedBefore(nodes, 3) && n in nodes && c in SegmentsOrNone(n, plan, machines)
    ensures StemsFrom(nodes, c, n)
  {
    DepsPrecede(nodes, n);
  }

  lemma {:induction false} ResidualStems(nodes: seq<Node>, plan: Plan, machines: seq<nat>, c: Node, n: Node)
    requires MintedBefore(nodes, 3) && n in nodes && c == Residual(nodes, n, plan, machines)
    ensures StemsFrom(nodes, c, n)
  {
    DepsPrecede(nodes, n);
    var p := FirstSplitDep(nodes, n.deps, plan);
    if p.Some? { DepsThrough(nodes, p.value, n); }
  }

  /** Every dep of an emitted node precedes, in the original graph, the node it stems from. */
  lemma {:induction false} SplitOrigin(nodes: seq<Node>, plan: Plan, machines: seq<nat>, c: Node) returns (n: Node)
    requires MintedBefore(nodes, 3) && c in SplitResult(nodes, plan, machines)
    ensures StemsFrom(nodes, c, n)
  {
    var f := (n: Node) => SegmentsOrNone(n, plan, machines);
    var g := (n: Node) => ResidualOrNone(nodes, n, plan, machines);
    InFlatMap(nodes, f, c);
    InFlatMap(nodes, g, c);
    if c in FlatMap(nodes, f) {
      n :| n in nodes && c in f(n);
      SegmentStems(nodes, plan, machines, c, n);
    } else {
      n :| n in nodes && c in g(n);
      ResidualStems(nodes, plan, machines, c, n);
    }
  }

  /** Deps of a dep precede too. */
  lemma {:induction false} DepsThrough(nodes: seq<Node>, p: Node, n: Node)
    requires p in nodes && Precedes(Edges(nodes), p.id, n.id)
    ensures forall d :: d in p.deps ==> Precedes(Edges(nodes), d, n.id)
  {
    DepsPrecede(nodes, p);
    forall d | d in p.deps ensures Precedes(Edges(nodes), d, n.id) {
      PrecedesReaches(Edges(nodes), d, p.id);
      PrecedesReaches(Edges(nodes), p.id, n.id);
      ReachesTrans(Edges(nodes), d, p.id, n.id);
    }
  }

  lemma {:induction false} DepsPrecede(nodes: seq<Node>, n: Node)
    requires n in nodes
    ensures forall d :: d in n.deps ==> Precedes(Edges(nodes), d, n.id)
  {
    forall d | d in n.deps ensures Precedes(Edges(nodes), d, n.id) {
      EdgePrecedes(Edges(nodes), d, n.id);
    }
  }

  /** The transfers embedded in split pipelines: each segment to the next, the last to the sinks it returns to. */
  ghost function StreamLinks(nodes: seq<Node>, plan: Plan): Graph<Id> {
    (set n, s: nat | n in nodes && n.id in plan && s < |plan[n.id]| :: NextSegment(n.id, s))
    + (set n | n in nodes && Returns(nodes, n, plan) :: ToSink(nodes, n, plan))
  }

  function NextSegment(p: Id, s: nat): (Id, Id) {
    (Segment(p, s), Segment(p, s + 1))
  }

  /** n becomes the sink of a split pipeline. */
  predicate Returns(nodes: seq<Node>, n: Node, plan: Plan) {
    n.id !in plan && n.kind.Output? && FirstSplitDep(nodes, n.deps, plan).Some?
  }

  function ToSink(nodes: seq<Node>, n: Node, plan: Plan): (Id, Id)
    requires Returns(nodes, n, plan)
  {
    var p := FirstSplitDep(nodes, n.deps, plan).value;
    (Segment(p.id, |plan[p.id]|), n.id)
  }

  lemma {:induction false} LinksMinted(nodes: seq<Node>, plan: Plan)
    requires MintedBefore(nodes, 3)
    ensures forall e :: e in StreamLinks(nodes, plan) ==> Generation(e.0) < 4 && Generation(e.1) < 4
  {
  }

  function SegmentIndex(id: Id): int {
    if id.Segment? then id.index else 0
  }

  /** A link stays within its pipeline, one segment on, or leads to a dependent of the pipeline. */
  lemma {:induction false} LinkProgress(nodes: seq<Node>, plan: Plan, e: (Id, Id))
    requires MintedBefore(nodes, 3) && e in StreamLinks(nodes, plan)
    ensures || Precedes(Edges(nodes), Unsegment(e.0), Unsegment(e.1))
            || (Unsegment(e.0) == Unsegment(e.1) && SegmentIndex(e.0) < SegmentIndex(e.1))
  {
    if n :| n in nodes && Returns(nodes, n, plan) && e == ToSink(nodes, n, plan) { DepsPrecede(nodes, n); }
  }

  /** Splitting keeps the graph acyclic, the embedded transfers included. */
  lemma {:induction false} SplitKeepsOrder(nodes: seq<Node>, plan: Plan, machines: seq<nat>)
    requires MintedBefore(nodes, 3)
    ensures MintedBefore(SplitResult(nodes, plan, machines), 4)
    ensures Acyclic(Edges(nodes)) ==> Acyclic(Edges(SplitResult(nodes, plan, machines)) + StreamLinks(nodes, plan))
  {
    var out := SplitResult(nodes, plan, machines);
    forall c | c in out
      ensures Generation(c.id) < 4 && forall d :: d in c.deps ==> Generation(d) < 4
    {
      var _ := SplitOrigin(nodes, plan, machines, c);
    }
    if Acyclic(Edges(nodes)) {
      var g := Edges(out) + StreamLinks(nodes, plan);
      forall e | e in g
        ensures || Precedes(Edges(nodes), Unsegment(e.0), Unsegment(e.1))
                || (Unsegment(e.0) == Unsegment(e.1) && SegmentIndex(e.0) < SegmentIndex(e.1))
      {
        if e in StreamLinks(nodes, plan) {
          LinkProgress(nodes, plan, e);
        } else {
          var c, d :| c in out && d in c.deps && e == (d, c.id);
          var n := SplitOrigin(nodes, plan, machines, c);
        }
      }
      ProjectionAcyclic(g, Edges(nodes), Unsegment, SegmentIndex);
    }
  }

  lemma {:induction false} SplitKeepsDistinct(nodes: seq<Node>, plan: Plan, machines: seq<nat>)
    requires MintedBefore(nodes, 3) && DistinctIds(nodes)
    ensures DistinctIds(SplitResult(nodes, plan, machines))
  {
    var f := (n: Node) => SegmentsOrNone(n, plan, machines);
    var g := (n: Node) => ResidualOrNone(nodes, n, plan, machines);
    var key := (n: Node) => n.id;
    FlatMapDistinct(nodes, f, key, key, Unsegment);
    FlatMapDistinct(nodes, g, key, key, Unsegment);
    var p, q := FlatMap(nodes, f), FlatMap(nodes, g);
    forall i, j | 0 <= i < |p| && 0 <= j < |q| ensures key(p[i]) != key(q[j]) {
      InFlatMap(nodes, f, p[i]);
      InFlatMap(nodes, g, q[j]);
    }
  }

  /** Splitting loses nothing: every cut pipeline has all its segments, every other node stays under its name,
      unchanged unless it returns a cut pipeline's output. */
  lemma {:induction false} SplitHas(nodes: seq<Node>, plan: Plan, machines: seq<nat>, n: Node)
    requires n in nodes
    ensures IsSplit(n, plan, |machines|) ==>
              forall s :: s in SegmentNodes(n, plan[n.id], machines) ==> s in SplitResult(nodes, plan, machines)
    ensures n.id !in plan ==> exists c :: c in SplitResult(nodes, plan, machines) && c.id == n.id
    ensures n.id !in plan && (!n.kind.Output? || FirstSplitDep(nodes, n.deps, plan).None?) ==>
              n in SplitResult(nodes, plan, machines)
  {
    var f := (n: Node) => SegmentsOrNone(n, plan, machines);
    var g := (n: Node) => ResidualOrNone(nodes, n, plan, machines);
    if IsSplit(n, plan, |machines|) {
      forall s | s in SegmentNodes(n, plan[n.id], machines) ensures s in FlatMap(nodes, f) {
        assert s in f(n);
        InFlatMap(nodes, f, s);
      }
    }
    if n.id !in plan {
      var c := Residual(nodes, n, plan, machines);
      assert c in g(n);
      InFlatMap(nodes, g, c);
    }
  }

  /** Nothing else is there: a segment of a cut pipeline, or what stays of a node that is not cut. */
  lemma {:induction false} SplitOnly(nodes: seq<Node>, plan: Plan, machines: seq<nat>, c: Node) returns (n: Node)
    requires c in SplitResult(nodes, plan, machines)
    ensures n in nodes
    ensures || (IsSplit(n, plan, |machines|) && c in SegmentNodes(n, plan[n.id], machines))
            || (n.id !in plan && c == Residual(nodes, n, plan, machines))
  {
    var f := (n: Node) => SegmentsOrNone(n, plan, machines);
    var g := (n: Node) => ResidualOrNone(nodes, n, plan, machines);
    InFlatMap(nodes, f, c);
    InFlatMap(nodes, g, c);
    if c in FlatMap(nodes, f) {
      n :| n in nodes && c in f(n);
    } else {
      n :| n in nodes && c in g(n);
    }
  }
}
