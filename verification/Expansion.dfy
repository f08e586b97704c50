/**
  Replication of `placement: "all"` nodes and fan-out expansion
  (Partitioner/partitioner/src/splitter.rs).
 */
module Expansion {
  import opened Prelude
  import opened Sequences
  import opened SymbolicDag
  import opened Apportionment

  const CORES_RESERVED_PER_HOST: nat := 2

  // ---------------------------------------------------------------------------
  // Capacity-weighted fan-out
  // ---------------------------------------------------------------------------

  function Capacities(total: nat, hints: Hints): (r: seq<real>)
    ensures |r| == total
  {
    var caps := seq(total, (m: nat) => CapacityOf(hints, m));
    if SumReal(caps) <= 0.0 then seq(total, _ => 1.0) else caps
  }

  lemma {:induction false} OnesSum(n: nat)
    ensures SumReal(seq(n, _ => 1.0)) == n as real
  {
    if n > 0 {
      OnesSum(n - 1);
      assert seq(n, _ => 1.0)[..n - 1] == seq(n - 1, _ => 1.0);
    }
  }

  lemma {:induction false} CapacitiesPositive(total: nat, hints: Hints)
    requires total > 0 && NonNegativeHints(hints)
    ensures NonNegative(Capacities(total, hints)) && SumReal(Capacities(total, hints)) > 0.0
  {
    OnesSum(total);
  }

  /** Exact share of each machine: capacity / total capacity * n. */
  function Shares(n: nat, total: nat, hints: Hints): (r: seq<real>)
    requires total > 0 && NonNegativeHints(hints)
    ensures |r| == total && NonNegative(r) && SumReal(r) == n as real
  {
    CapacitiesPositive(total, hints);
    ScaleToTotal(Capacities(total, hints), n);
    Scale(Capacities(total, hints), SumReal(Capacities(total, hints)), n)
  }

  function Apportion(n: nat, total: nat, hints: Hints): seq<nat>
    requires NonNegativeHints(hints)
  {
    if total <= 1 then seq(total, _ => n) else LargestRemainder(Shares(n, total, hints), n)
  }

  /** The per-machine counts sum to n exactly, and each is its exact share rounded down or up. */
  lemma {:induction false} ApportionQuota(n: nat, total: nat, hints: Hints)
    requires total > 0 && NonNegativeHints(hints)
    ensures var c, s := Apportion(n, total, hints), Shares(n, total, hints);
            && |c| == total && Sum(c) == n
            && forall m :: 0 <= m < total ==> FloorOf(s[m]) <= c[m] <= CeilOf(s[m])
  {
    if total > 1 {
      LargestRemainderQuota(Shares(n, total, hints), n);
    } else {
      var s := Shares(n, total, hints);
      assert s[..0] == [];
      assert SumReal(s) == s[0];
      assert Apportion(n, total, hints) == [n];
      assert [n][..0] == [];
    }
  }

  method ApportionFanout(n: nat, total: nat, hints: Hints) returns (counts: seq<nat>)
    requires NonNegativeHints(hints)
    ensures counts == Apportion(n, total, hints)
  {
    if total <= 1 {
      return seq(total, _ => n);
    }
    counts := RoundShares(Shares(n, total, hints), n);
  }

  /** Floors first, then one unit each to the largest fractions until none is left. */
  method RoundShares(raw: seq<real>, n: nat) returns (counts: seq<nat>)
    requires NonNegative(raw) && SumReal(raw) == n as real
    ensures counts == LargestRemainder(raw, n)
  {
    LeftoverIsFractional(raw, n);
    counts := Floors(raw);
    var remainder := n - Sum(counts);
    ghost var left := remainder;
    var order := RemainderOrder(raw);
    var k := 0;
    while k < |order| && remainder != 0
      invariant 0 <= k <= |order|
      invariant remainder == left - k >= 0
      invariant counts == Bump(Floors(raw), order[..k])
    {
      var i := order[k];
      assert order[..k + 1][..k] == order[..k];
      counts := counts[i := counts[i] + 1];
      remainder := remainder - 1;
      k := k + 1;
    }
  }

  /** Clamp a requested fan-out to the cluster's usable cores. */
  function CoreBudget(total: nat, cores: map<nat, nat>): nat {
    if total == 0 then 0
    else
      var m := total - 1;
      CoreBudget(m, cores)
      + (if m in cores then
           (if cores[m] > CORES_RESERVED_PER_HOST then cores[m] - CORES_RESERVED_PER_HOST else 1)
         else 0)
  }

  function CapFanout(n: nat, total: nat, hints: Hints): nat {
    if hints.cores == map[] then n
    else
      var budget := CoreBudget(total, hints.cores);
      if budget == 0 || n < budget then n else budget
  }

  // ---------------------------------------------------------------------------
  // Replication
  // ---------------------------------------------------------------------------

  function Templates(nodes: seq<Node>): set<Id> {
    set n | n in nodes && n.all :: n.id
  }

  function SiblingDep(templates: set<Id>, dep: Id, m: nat): Id {
    if dep in templates then Replica(dep, m) else dep
  }

  function ReplicaNode(n: Node, templates: set<Id>, counts: Option<seq<nat>>, m: nat): Node {
    n.(id := Replica(n.id, m),
    host := Some(m),
    all := false,
    fanout := if counts.Some? && m < |counts.value| then Some(counts.value[m]) else n.fanout,
    deps := seq(|n.deps|, i requires 0 <= i < |n.deps| => SiblingDep(templates, n.deps[i], m)))
  }

  /** A regular consumer: a placed one takes its machine's copy, an unplaced one all copies. */
  function GatherDep(templates: set<Id>, dep: Id, host: Option<nat>, total: nat): seq<Id> {
    if dep !in templates then [dep]
    else match host
         case Some(m) => [Replica(dep, m)]
         case None => seq(total, (m: nat) => Replica(dep, m))
  }

  function GatherDeps(n: Node, templates: set<Id>, total: nat): seq<Id> {
    FlatMap(n.deps, (d: Id) => GatherDep(templates, d, n.host, total))
  }

  function FanoutCounts(n: Node, total: nat, hints: Hints): Option<seq<nat>>
    requires NonNegativeHints(hints)
  {
    if n.fanout.Some? then Some(Apportion(CapFanout(n.fanout.value, total, hints), total, hints)) else None
  }

  function ReplicateNode(n: Node, templates: set<Id>, total: nat, hints: Hints): seq<Node>
    requires NonNegativeHints(hints)
  {
    if n.all then seq(total, (m: nat) => ReplicaNode(n, templates, FanoutCounts(n, total, hints), m))
    else [n.(deps := GatherDeps(n, templates, total))]
  }

  function Replicate(nodes: seq<Node>, total: nat, hints: Hints): seq<Node>
    requires NonNegativeHints(hints)
  {
    var templates := Templates(nodes);
    if templates == {} then nodes
    else FlatMap(nodes, (n: Node) => ReplicateNode(n, templates, total, hints))
  }

  method ExpandAllPlacements(nodes: seq<Node>, total: nat, hints: Hints) returns (expanded: seq<Node>)
    requires NonNegativeHints(hints)
    ensures expanded == Replicate(nodes, total, hints)
  {
    var templates := Templates(nodes);
    if templates == {} {
      return nodes;
    }
    expanded := [];
    ghost var f := (n: Node) => ReplicateNode(n, templates, total, hints);
    for i := 0 to |nodes|
      invariant expanded == FlatMap(nodes[..i], f)
    {
      var n := nodes[i];
      FlatMapStep(nodes, f, i);
      if n.all {
        var counts: Option<seq<nat>> := None;
        if n.fanout.Some? {
          var c := ApportionFanout(CapFanout(n.fanout.value, total, hints), total, hints);
          counts := Some(c);
        }
        ghost var before := expanded;
        for m := 0 to total
          invariant expanded == before + f(n)[..m]
        {
          expanded := expanded + [ReplicaNode(n, templates, counts, m)];
          assert f(n)[..m + 1] == f(n)[..m] + [f(n)[m]];
        }
        assert f(n)[..total] == f(n);
      } else {
        expanded := expanded + [n.(deps := GatherDeps(n, templates, total))];
      }
    }
    assert nodes[..|nodes|] == nodes;
  }

  // ---------------------------------------------------------------------------
  // Fan-out
  // ---------------------------------------------------------------------------

  function WorkerIds(n: Node): seq<Id> {
    if n.fanout.Some? then seq(n.fanout.value, (i: nat) => Worker(n.id, i)) else [n.id]
  }

  function WorkerCopies(n: Node): seq<Node> {
    if n.fanout.Some? then seq(n.fanout.value, (i: nat) => n.(id := Worker(n.id, i), fanout := None)) else [n]
  }

  /** template id -> ids of its copies, for every fanned-out node. */
  function Expansions(nodes: seq<Node>): map<Id, seq<Id>> {
    if nodes == [] then map[]
    else
      var init, n := Expansions(nodes[..|nodes| - 1]), nodes[|nodes| - 1];
      if n.fanout.Some? then init[n.id := WorkerIds(n)] else init
  }

  function ExpandDep(ex: map<Id, seq<Id>>, d: Id): seq<Id> {
    if d in ex then ex[d] else [d]
  }

  function ExpandDeps(n: Node, ex: map<Id, seq<Id>>): Node {
    n.(deps := FlatMap(n.deps, (d: Id) => ExpandDep(ex, d)))
  }

  function FanOut(nodes: seq<Node>): seq<Node> {
    var copies := FlatMap(nodes, WorkerCopies);
    var ex := Expansions(nodes);
    seq(|copies|, i requires 0 <= i < |copies| => ExpandDeps(copies[i], ex))
  }

  /** The ids of all fan-out copies, used to weight input slices. */
  function WorkerSet(nodes: seq<Node>): set<Id> {
    set n, i: nat | n in nodes && n.fanout.Some? && i < n.fanout.value :: Worker(n.id, i)
  }

  method CopyWorkers(n: Node) returns (copies: seq<Node>, ids: set<Id>)
    requires n.fanout.Some?
    ensures copies == WorkerCopies(n)
    ensures ids == WorkerSet([n])
  {
    copies, ids := [], {};
    for k := 0 to n.fanout.value
      invariant copies == WorkerCopies(n)[..k]
      invariant ids == set j: nat | j < k :: Worker(n.id, j)
    {
      copies := copies + [n.(id := Worker(n.id, k), fanout := None)];
      ids := ids + {Worker(n.id, k)};
    }
  }

  method RewriteDeps(n: Node, ex: map<Id, seq<Id>>) returns (r: Node)
    ensures r == ExpandDeps(n, ex)
  {
    var deps: seq<Id> := [];
    ghost var f := (d: Id) => ExpandDep(ex, d);
    for j := 0 to |n.deps|
      invariant deps == FlatMap(n.deps[..j], f)
    {
      FlatMapStep(n.deps, f, j);
      deps := deps + ExpandDep(ex, n.deps[j]);
    }
    assert n.deps[..|n.deps|] == n.deps;
    r := n.(deps := deps);
  }

  method ExpandFanout(nodes: seq<Node>) returns (out: seq<Node>, workers: set<Id>)
    ensures out == FanOut(nodes)
    ensures workers == WorkerSet(nodes)
  {
    var ex: map<Id, seq<Id>> := map[];
    var copies: seq<Node> := [];
    workers := {};
    for i := 0 to |nodes|
      invariant copies == FlatMap(nodes[..i], WorkerCopies)
      invariant ex == Expansions(nodes[..i])
      invariant workers == WorkerSet(nodes[..i])
    {
      var n := nodes[i];
      FlatMapStep(nodes, WorkerCopies, i);
      assert nodes[..i + 1][..i] == nodes[..i];
      WorkerSetStep(nodes, i);
      if n.fanout.Some? {
        ex := ex[n.id := WorkerIds(n)];
        var c, ids := CopyWorkers(n);
        copies, workers := copies + c, workers + ids;
      } else {
        copies := copies + [n];
      }
    }
    assert nodes[..|nodes|] == nodes;
    out := [];
    for i := 0 to |copies|
      invariant |out| == i
      invariant forall k :: 0 <= k < i ==> out[k] == ExpandDeps(copies[k], ex)
    {
      var n := RewriteDeps(copies[i], ex);
      out := out + [n];
    }
  }

  lemma {:induction false} WorkerSetStep(nodes: seq<Node>, i: nat)
    requires i < |nodes|
    ensures WorkerSet(nodes[..i + 1]) == WorkerSet(nodes[..i]) + WorkerSet([nodes[i]])
  {
    assert nodes[..i + 1] == nodes[..i] + [nodes[i]];
  }
}
