/** Fractional input slices weighted by map workers (Partitioner/partitioner/src/splitter.rs). */
module InputSlices {
  import opened Prelude
  import opened Sequences
  import opened SymbolicDag
  import opened Windows

  /** Map workers placed on machine m. */
  function WorkersOn(nodes: seq<Node>, workers: set<Id>, m: nat): nat {
    if nodes == [] then 0
    else
      var n := nodes[|nodes| - 1];
      WorkersOn(nodes[..|nodes| - 1], workers, m) + (if n.host == Some(m) && n.id in workers then 1 else 0)
  }

  /** Worker counts per machine; equal weights when there are no workers. */
  function Weights(nodes: seq<Node>, workers: set<Id>, total: nat): (r: seq<nat>)
    ensures |r| == total
  {
    var w := seq(total, (m: nat) => WorkersOn(nodes, workers, m));
    if forall m :: 0 <= m < total ==> w[m] == 0 then seq(total, _ => 1) else w
  }

  lemma {:induction false} WeightsPositive(nodes: seq<Node>, workers: set<Id>, total: nat)
    requires total > 0
    ensures Sum(Weights(nodes, workers, total)) > 0
  {
    var w := Weights(nodes, workers, total);
    var m :| 0 <= m < total && w[m] > 0;
    SumZero(w, m);
  }

  function Fraction(part: nat, whole: nat): real
    requires whole > 0
  {
    part as real / whole as real
  }

  /** Machine m owns [prefix(m), prefix(m + 1)) of the total weight. */
  function SliceOf(w: seq<nat>, m: nat): (real, real)
    requires m < |w| && Sum(w) > 0
  {
    (Fraction(Sum(w[..m]), Sum(w)), Fraction(Sum(w[..m + 1]), Sum(w)))
  }

  function SlicesOf(w: seq<nat>): (r: seq<(real, real)>)
    requires Sum(w) > 0
    ensures |r| == |w|
  {
    seq(|w|, m requires 0 <= m < |w| => SliceOf(w, m))
  }

  /** The slices share endpoints and run from 0 to 1. */
  lemma {:induction false} WeightedSlicesTile(w: seq<nat>)
    requires Sum(w) > 0
    ensures SlicesTile(SlicesOf(w))
  {
    var s, t := SlicesOf(w), Sum(w);
    assert w[..|w|] == w && w[..0] == [];
    FractionEnds(t);
    forall i | 0 <= i < |s| ensures s[i].0 <= s[i].1 {
      SumStep(w, i);
      FractionMonotone(Sum(w[..i]), Sum(w[..i + 1]), t);
    }
  }

  lemma {:induction false} FractionEnds(t: nat)
    requires t > 0
    ensures Fraction(0, t) == 0.0 && Fraction(t, t) == 1.0
  {
  }

  lemma {:induction false} FractionMonotone(a: nat, b: nat, t: nat)
    requires a <= b && t > 0
    ensures Fraction(a, t) <= Fraction(b, t)
  {
    var x, y, z := a as real, b as real, t as real;
    assert (y - x) / z >= 0.0;
    assert y / z - x / z == (y - x) / z;
  }

  /** Sliced: a replicated, whole-file Input on a real machine. */
  predicate Sliceable(n: Node, shared: set<string>, total: nat) {
    n.kind.Input? && n.kind.path in shared && !n.kind.special && !n.kind.replicate
    && n.host.Some? && n.host.value < total
  }

  function Sliced(n: Node, w: seq<nat>, shared: set<string>, total: nat): Node
    requires |w| == total && Sum(w) > 0
  {
    if Sliceable(n, shared, total) then n.(kind := n.kind.(slice := Some(SliceOf(w, n.host.value)))) else n
  }

  method CountWorkers(nodes: seq<Node>, workers: set<Id>, total: nat) returns (w: seq<nat>)
    requires total > 0
    ensures w == Weights(nodes, workers, total) && Sum(w) > 0
  {
    w := seq(total, _ => 0);
    for i := 0 to |nodes|
      invariant |w| == total
      invariant forall m :: 0 <= m < total ==> w[m] == WorkersOn(nodes[..i], workers, m)
    {
      assert nodes[..i + 1][..i] == nodes[..i];
      var n := nodes[i];
      if n.host.Some? && n.id in workers && n.host.value < total {
        w := w[n.host.value := w[n.host.value] + 1];
      }
    }
    assert nodes[..|nodes|] == nodes;
    assert w == seq(total, (m: nat) => WorkersOn(nodes, workers, m));
    if forall m :: 0 <= m < total ==> w[m] == 0 {
      w := seq(total, _ => 1);
    }
    WeightsPositive(nodes, workers, total);
  }

  /** Every sliceable Input, and nothing else, carries its machine's slice; single-machine jobs load whole files. */
  ghost predicate SlicedBy(nodes: seq<Node>, total: nat, workers: set<Id>, shared: set<string>, out: seq<Node>) {
    && |out| == |nodes|
    && (total <= 1 || shared == {} ==> out == nodes)
    && (total > 1 && shared != {} ==>
          var w := Weights(nodes, workers, total);
          Sum(w) > 0 && forall i :: 0 <= i < |nodes| ==> out[i] == Sliced(nodes[i], w, shared, total))
  }

  method AssignInputSlices(nodes: seq<Node>, total: nat, workers: set<Id>, shared: set<string>)
    returns (out: seq<Node>)
    ensures SameShape(nodes, out) && SlicedBy(nodes, total, workers, shared, out)
  {
    out := nodes;
    if total <= 1 || shared == {} {
      return;
    }
    var w := CountWorkers(nodes, workers, total);
    for i := 0 to |nodes|
      invariant |out| == |nodes|
      invariant forall k :: i <= k < |nodes| ==> out[k] == nodes[k]
      invariant forall k :: 0 <= k < i ==> out[k] == Sliced(nodes[k], w, shared, total)
    {
      out := out[i := Sliced(nodes[i], w, shared, total)];
    }
  }
}
