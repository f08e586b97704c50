/** When validation fails, said on the symbolic graph. */
module Validation {
  import opened Prelude
  import opened Sequences
  import opened SymbolicDag
  import opened Expansion
  import opened ExpansionProofs
  import opened ExpansionExact
  import opened StreamSplit
  import opened StreamSplitProofs
  import opened SlotProofs
  import opened Reclaim
  import opened Cut
  import opened Partition

  /** Given hosts are machines of the cluster. */
  ghost predicate HostsInRange(nodes: seq<Node>, total: nat) {
    forall n :: n in nodes && n.host.Some? ==> n.host.value < total
  }

  lemma {:induction false} FannedClosed(nodes: seq<Node>, total: nat, hints: Hints)
    requires Partition.WellFormed(nodes, 1) && NonNegativeHints(hints) && total >= 1
    requires Closed(nodes) && HostsInRange(nodes, total)
    ensures Closed(Fanned(nodes, total, hints)) && HostsInRange(Fanned(nodes, total, hints), total)
  {
    var copies := Replicate(nodes, total, hints);
    ReplicateKeepsOrder(nodes, total, hints);
    ReplicateClosed(nodes, total, hints);
    FanOutClosed(copies);
    forall c | c in FanOut(copies) && c.host.Some? ensures c.host.value < total {
      var r, _ := FanOutOnly(copies, c);
      var n, m := ReplicateOnly(nodes, total, hints, r);
    }
  }

  // ---------------------------------------------------------------------------
  // Splitting
  // ---------------------------------------------------------------------------

  /** n depends on a pipeline that is split, and does not become its sink. */
  ghost predicate Dangles(nodes: seq<Node>, plan: Plan, n: Node) {
    n in nodes && !Returns(nodes, n, plan) && exists d :: d in n.deps && d in plan
  }

  lemma {:induction false} PlannedIsCut(nodes: seq<Node>, total: nat, plan: Plan, n: Node)
    requires IsPlan(nodes, total, plan) && n in nodes && n.id in plan
    ensures IsSplit(n, plan, total)
  {
    assert CutsOf(n, total) == Ok(Some(plan[n.id]));
    CutPointsValid(n.kind, total);
  }

  lemma {:induction false} SplitName(nodes: seq<Node>, plan: Plan, machines: seq<nat>, c: Node)
    requires c in SplitResult(nodes, plan, machines)
    ensures c.id.Segment? || c.id !in plan
  {
    var o := SplitOnly(nodes, plan, machines, c);
  }

  /** The names left by splitting are those of the segments and of what is not split. */
  lemma {:induction false} SplitNames(nodes: seq<Node>, total: nat, plan: Plan, machines: seq<nat>, d: Id)
    requires MintedBefore(nodes, 3) && IsPlan(nodes, total, plan) && |machines| == total && d in Ids(nodes)
    ensures d in Ids(SplitResult(nodes, plan, machines)) <==> d !in plan
  {
    var n :| n in nodes && n.id == d;
    if d !in plan { SplitHas(nodes, plan, machines, n); }
    if d in Ids(SplitResult(nodes, plan, machines)) {
      var c :| c in SplitResult(nodes, plan, machines) && c.id == d;
      SplitName(nodes, plan, machines, c);
    }
  }

  lemma {:induction false} FirstSegment(n: Node, plan: Plan, machines: seq<nat>)
    requires IsSplit(n, plan, |machines|)
    ensures var c := SegmentNodes(n, plan[n.id], machines)[0];
            c in SegmentNodes(n, plan[n.id], machines) && c.deps == n.deps
  {
  }

  /** A dangling node leaves a dep that nobody answers to. */
  lemma {:induction false} DanglingDep(nodes: seq<Node>, total: nat, plan: Plan, machines: seq<nat>, n: Node)
    requires MintedBefore(nodes, 3) && IsPlan(nodes, total, plan) && |machines| == total && Dangles(nodes, plan, n)
    ensures !Closed(SplitResult(nodes, plan, machines))
  {
    var out := SplitResult(nodes, plan, machines);
    var d :| d in n.deps && d in plan;
    assert d in Ids(nodes);
    SplitNames(nodes, total, plan, machines, d);
    SplitHas(nodes, plan, machines, n);
    if n.id in plan {
      PlannedIsCut(nodes, total, plan, n);
      FirstSegment(n, plan, machines);
    } else {
      assert n in out;
    }
  }

  /** Every dep after splitting is one of a node that does not become a sink. */
  lemma {:induction false} DepOwner(nodes: seq<Node>, total: nat, plan: Plan, machines: seq<nat>, c: Node, d: Id)
    returns (n: Node)
    requires IsPlan(nodes, total, plan) && |machines| == total && c in SplitResult(nodes, plan, machines) && d in c.deps
    ensures n in nodes && d in n.deps && !Returns(nodes, n, plan)
  {
    n := SplitOnly(nodes, plan, machines, c);
    if n.id !in plan && Returns(nodes, n, plan) {
      var p := FirstSplitDep(nodes, n.deps, plan).value;
      PlannedIsCut(nodes, total, plan, p);
      n := p;
    }
  }

  lemma {:induction false} SplitClosedIff(nodes: seq<Node>, total: nat, plan: Plan, machines: seq<nat>)
    requires MintedBefore(nodes, 3) && IsPlan(nodes, total, plan) && |machines| == total && Closed(nodes)
    ensures Closed(SplitResult(nodes, plan, machines)) <==> !exists n :: Dangles(nodes, plan, n)
  {
    var out := SplitResult(nodes, plan, machines);
    if n :| Dangles(nodes, plan, n) {
      DanglingDep(nodes, total, plan, machines, n);
    } else {
      forall c, d | c in out && d in c.deps ensures d in Ids(out) {
        var n := DepOwner(nodes, total, plan, machines, c, d);
        assert d in Ids(nodes) && !Dangles(nodes, plan, n);
        SplitNames(nodes, total, plan, machines, d);
      }
    }
  }

  lemma {:induction false} SplitHosts(nodes: seq<Node>, total: nat, plan: Plan, machines: seq<nat>)
    requires IsPermutation(machines, total) && total >= 1 && HostsInRange(nodes, total)
    ensures HostsInRange(SplitResult(nodes, plan, machines), total)
  {
    forall c | c in SplitResult(nodes, plan, machines) && c.host.Some? ensures c.host.value < total {
      var n := SplitOnly(nodes, plan, machines, c);
    }
  }

  lemma {:induction false} ExpandedClosedIff(nodes: seq<Node>, total: nat, hints: Hints, plan: Plan)
    requires Partition.WellFormed(nodes, 1) && NonNegativeHints(hints) && total >= 1
    requires Closed(nodes) && HostsInRange(nodes, total) && IsPlan(Fanned(nodes, total, hints), total, plan)
    ensures HostsInRange(Expanded(nodes, total, hints, plan), total)
    ensures Closed(Expanded(nodes, total, hints, plan)) <==> !exists n :: Dangles(Fanned(nodes, total, hints), plan, n)
  {
    var fanned, machines := Fanned(nodes, total, hints), MachineOrder(total, hints);
    FannedClosed(nodes, total, hints);
    FannedKept(nodes, total, hints);
    MachineOrderIsPermutation(total, hints);
    SplitClosedIff(fanned, total, plan, machines);
    SplitHosts(fanned, total, plan, machines);
  }

  // ---------------------------------------------------------------------------
  // Validation
  // ---------------------------------------------------------------------------

  lemma {:induction false} ClosedShape(a: seq<Node>, b: seq<Node>)
    requires SameShape(a, b)
    ensures Closed(a) ==> Closed(b)
  {
    SameShapeGraph(a, b);
    if Closed(a) {
      forall x, d | x in b && d in x.deps ensures d in Ids(b) {
        var i :| 0 <= i < |b| && b[i] == x;
        assert a[i] in a;
      }
    }
  }

  lemma {:induction false} ShapeMinted(a: seq<Node>, b: seq<Node>, k: nat)
    requires SameShape(a, b) && MintedBefore(a, k)
    ensures MintedBefore(b, k)
  {
    SameShapeGraph(a, b);
  }

  lemma {:induction false} ClosedShapeIff(a: seq<Node>, b: seq<Node>)
    requires SameShape(a, b)
    ensures Closed(a) <==> Closed(b)
  {
    ClosedShape(a, b);
    assert SameShape(b, a);
    ClosedShape(b, a);
  }

  /** Free nodes neither break nor mend a graph. */
  lemma {:induction false} FreesClosed(placed: seq<Node>)
    requires MintedBefore(placed, 4)
    ensures Closed(WithFrees(placed)) <==> Closed(placed)
  {
    var all := WithFrees(placed);
    assert forall n :: n in placed ==> n in all;
    forall c, d | c in all && d in c.deps ensures Generation(d) < 4 && (c !in placed ==> d in Ids(placed)) {
      FreesMinted(placed);
      if c !in placed { var src := FreeOrigin(placed, c); }
    }
    forall d | Generation(d) < 4 ensures d in Ids(all) <==> d in Ids(placed) {
      if d in Ids(all) {
        var c :| c in all && c.id == d;
        if c !in placed { var src := FreeOrigin(placed, c); }
      }
    }
  }

  lemma {:induction false} AllHosted(nodes: seq<Node>, s: Setting, l: Layout, n: Node)
    requires ValidSetting(s) && Hosted(nodes, s, l) && Slotted(l) && HostsInRange(nodes, s.total) && n in l.placed
    requires SameShape(nodes, l.placed)
    ensures n.host.Some? && n.host.value < s.total
  {
    var i :| 0 <= i < |l.placed| && l.placed[i] == n;
    PlacedHosts(nodes, s, l, i);
    assert nodes[i] in nodes;
  }

  lemma {:induction false} PlacedMeansClosed(all: seq<Node>, total: nat)
    requires forall n :: n in all ==> n.host.Some? && n.host.value < total
    ensures Placed(all, total) <==> Closed(all)
  {
  }

  lemma {:induction false} PlacedShape(nodes: seq<Node>, s: Setting, l: Layout)
    requires ValidSetting(s) && Hosted(nodes, s, l) && Slotted(l)
    ensures SameShape(nodes, l.placed)
  {
    HostedShape(nodes, s, l);
    AssignmentKeeps(l.sliced, l.order, MachineBound(l.sliced), l.placed);
  }

  lemma {:induction false} FreesHosted(placed: seq<Node>, total: nat, n: Node)
    requires n in WithFrees(placed) && forall x :: x in placed ==> x.host.Some? && x.host.value < total
    ensures n.host.Some? && n.host.value < total
  {
    if n !in placed { FreeOnHost(placed, n); }
  }

  lemma {:induction false} EveryHosted(nodes: seq<Node>, s: Setting, l: Layout)
    requires ValidSetting(s) && Hosted(nodes, s, l) && Slotted(l) && HostsInRange(nodes, s.total)
    ensures SameShape(nodes, l.placed) && forall n :: n in l.placed ==> n.host.Some? && n.host.value < s.total
  {
    PlacedShape(nodes, s, l);
    forall n | n in l.placed ensures n.host.Some? && n.host.value < s.total { AllHosted(nodes, s, l, n); }
  }

  lemma {:induction false} FreesPlacedIff(placed: seq<Node>, total: nat)
    requires MintedBefore(placed, 4) && forall n :: n in placed ==> n.host.Some? && n.host.value < total
    ensures Placed(WithFrees(placed), total) <==> Closed(placed)
  {
    FreesClosed(placed);
    forall n | n in WithFrees(placed) ensures n.host.Some? && n.host.value < total { FreesHosted(placed, total, n); }
    PlacedMeansClosed(WithFrees(placed), total);
  }

  lemma {:induction false} ShapeIff(nodes: seq<Node>, placed: seq<Node>, total: nat)
    requires SameShape(nodes, placed) && MintedBefore(nodes, 4)
    requires forall n :: n in placed ==> n.host.Some? && n.host.value < total
    ensures Placed(WithFrees(placed), total) <==> Closed(nodes)
  {
    ShapeMinted(nodes, placed, 4);
    FreesPlacedIff(placed, total);
    ClosedShapeIff(nodes, placed);
  }

  lemma {:induction false} FreeOnHost(placed: seq<Node>, c: Node)
    requires c in WithFrees(placed) && c !in placed
    ensures exists src :: src in placed && c.host == src.host && src.host.Some?
  {
    var f := (n: Node) => FreesFor(placed, n);
    InFlatMap(placed, f, c);
    var src :| src in placed && c in f(src);
  }

  /** Validation of a closed graph whose hosts exist fails if and only if a node that does not become a sink depends
      on a pipeline that was split. */
  lemma {:induction false} ValidationFailsIff(nodes: seq<Node>, s: Setting, t: Trace)
    requires ValidSetting(s) && Partition.WellFormed(nodes, 1) && Closed(nodes) && HostsInRange(nodes, s.total)
    requires LaidOut(nodes, s, t) && Slotted(t.layout)
    ensures !Placed(All(t), s.total) <==> exists n :: Dangles(Fanned(nodes, s.total, s.hints), t.plan, n)
  {
    ExpandedKept(nodes, s.total, s.hints, t.plan);
    ExpandedClosedIff(nodes, s.total, s.hints, t.plan);
    EveryHosted(Expanded(nodes, s.total, s.hints, t.plan), s, t.layout);
    ShapeIff(Expanded(nodes, s.total, s.hints, t.plan), t.layout.placed, s.total);
  }
}
