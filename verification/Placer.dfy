/** Quotas and greedy placement of auto-placed nodes (Partitioner/partitioner/src/placer.rs). */
module Placer {
  import opened Prelude
  import opened Sequences
  import opened Graphs
  import opened SymbolicDag
  import opened Apportionment
  import opened Topo

  const KEEP_WEIGHT: real := 1000000000.0

  function EdgeWeight(n: Node): real {
    match n.split
    case Some(Avoid) => KEEP_WEIGHT
    case Some(Prefer) => 0.0
    case None => if n.outWeight.Some? then n.outWeight.value else 1.0
  }

  // ---------------------------------------------------------------------------
  // Quotas
  // ---------------------------------------------------------------------------

  /** Most auto nodes a host may take: its own limit (1 if unlisted), capped globally. */
  function HostLimit(hints: Hints, cap: Option<nat>, auto: nat, h: nat): nat {
    var own := if hints.hostLimit == map[] then auto
               else if h in hints.hostLimit && hints.hostLimit[h] > 1 then hints.hostLimit[h] else 1;
    if cap.Some? then Min(own, cap.value) else own
  }

  function Limits(hints: Hints, cap: Option<nat>, auto: nat, total: nat): (r: seq<nat>)
    ensures |r| == total
  {
    seq(total, (h: nat) => HostLimit(hints, cap, auto, h))
  }

  function QuotaOf(q: map<nat, nat>, h: nat): nat {
    if h in q then q[h] else 0
  }

  function Quotas(q: map<nat, nat>, total: nat): (r: seq<nat>)
    ensures |r| == total
  {
    seq(total, (h: nat) => QuotaOf(q, h))
  }

  lemma {:induction false} QuotaUpdate(q: map<nat, nat>, total: nat, h: nat, v: nat)
    requires h < total
    ensures Sum(Quotas(q[h := v], total)) == Sum(Quotas(q, total)) - QuotaOf(q, h) + v
  {
    assert Quotas(q[h := v], total) == Quotas(q, total)[h := v];
    SumUpdate(Quotas(q, total), h, v);
  }

  lemma {:induction false} ZeroQuotas(total: nat)
    ensures Sum(Quotas(map[], total)) == 0
  {
    if total > 0 {
      ZeroQuotas(total - 1);
      assert Quotas(map[], total)[..total - 1] == Quotas(map[], total - 1);
    }
  }

  lemma {:induction false} SoleQuota(total: nat, h: nat, v: nat)
    requires h < total
    ensures Sum(Quotas(map[h := v], total)) == v
  {
    ZeroQuotas(total);
    QuotaUpdate(map[], total, h, v);
  }

  /** A host of greatest capacity; ties fall to whichever the map yields. */
  method BestHost(capacity: map<nat, real>) returns (best: nat)
    requires capacity != map[]
    ensures best in capacity && forall h :: h in capacity ==> capacity[h] <= capacity[best]
  {
    var rest := capacity.Keys;
    best :| best in rest;
    rest := rest - {best};
    while rest != {}
      invariant best in capacity && rest <= capacity.Keys
      invariant forall h :: h in capacity && h !in rest ==> capacity[h] <= capacity[best]
      decreases |rest|
    {
      var h :| h in rest;
      rest := rest - {h};
      if capacity[best] <= capacity[h] {
        best := h;
      }
    }
  }

  /** Capacity weights with half a uniform share for unlisted hosts. */
  function WeightsOf(hints: Hints, total: nat): (r: seq<real>)
    requires total > 0
    ensures |r| == total
  {
    var floor := 1.0 / total as real * 0.5;
    seq(total, (h: nat) => if h in hints.capacity then hints.capacity[h] else floor)
  }

  /** Exact shares; with no weight at all every share counts as zero. */
  function ExactShares(hints: Hints, total: nat, auto: nat): (r: seq<real>)
    requires total > 0
    ensures |r| == total
  {
    var w := WeightsOf(hints, total);
    if SumReal(w) > 0.0 then Scale(w, SumReal(w), auto) else seq(total, _ => 0.0)
  }

  lemma {:induction false} ZeroFloors(n: nat)
    ensures Sum(Floors(seq(n, _ => 0.0))) == 0
  {
    if n > 0 {
      ZeroFloors(n - 1);
      assert Floors(seq(n, _ => 0.0))[..n - 1] == Floors(seq(n - 1, _ => 0.0));
    }
  }

  /** Some host has weight, so the shares add up to the auto nodes. */
  ghost predicate Weighted(hints: Hints, total: nat)
    requires total > 0
  {
    SumReal(WeightsOf(hints, total)) > 0.0
  }

  lemma {:induction false} SharesFit(hints: Hints, total: nat, auto: nat)
    requires total > 0 && NonNegativeHints(hints) && Weighted(hints, total)
    ensures NonNegative(ExactShares(hints, total, auto)) && SumReal(ExactShares(hints, total, auto)) == auto as real
  {
    var w := WeightsOf(hints, total);
    forall h | 0 <= h < total ensures w[h] >= 0.0 {}
    ScaleToTotal(w, auto);
  }

  lemma {:induction false} FloorsFit(hints: Hints, total: nat, auto: nat)
    requires total > 0 && NonNegativeHints(hints)
    ensures Sum(Floors(ExactShares(hints, total, auto))) <= auto
    ensures Weighted(hints, total) ==> auto - Sum(Floors(ExactShares(hints, total, auto))) <= total
  {
    if Weighted(hints, total) {
      SharesFit(hints, total, auto);
      LeftoverIsFractional(ExactShares(hints, total, auto), auto);
    } else {
      ZeroFloors(total);
    }
  }

  /** The quota rule: each part is its exact share rounded down or up. */
  ghost predicate QuotaRule(raw: seq<real>, alloc: seq<nat>) {
    |alloc| == |raw| && forall h :: 0 <= h < |raw| ==> FloorOf(raw[h]) <= alloc[h] <= CeilOf(raw[h])
  }

  /** The order in which the leftover is handed out: remainder order, round and round. */
  function Rounds(order: seq<nat>, n: nat): seq<nat>
    requires order != []
  {
    seq(n, i requires 0 <= i < n => order[i % |order|])
  }

  lemma {:induction false} OneRound(order: seq<nat>, n: nat)
    requires order != [] && n <= |order|
    ensures Rounds(order, n) == order[..n]
  {
  }

  /** Hands out the leftover one by one. */
  method HandOut(counts: seq<nat>, order: seq<nat>, leftover: nat) returns (alloc: seq<nat>)
    requires order != [] && forall i :: 0 <= i < |order| ==> order[i] < |counts|
    ensures alloc == Bump(counts, Rounds(order, leftover))
  {
    alloc := counts;
    for i := 0 to leftover
      invariant alloc == Bump(counts, Rounds(order, i))
    {
      ghost var now := Rounds(order, i + 1);
      assert now[..i] == Rounds(order, i) && now[i] == order[i % |order|];
      var h := order[i % |order|];
      alloc := alloc[h := alloc[h] + 1];
    }
  }

  lemma {:induction false} HandedOut(raw: seq<real>, n: nat, leftover: nat, order: seq<nat>)
    requires raw != [] && order == RemainderOrder(raw) && leftover == n - Sum(Floors(raw))
    ensures IsPermutation(order, |raw|) && order != []
    ensures var alloc := Bump(Floors(raw), Rounds(order, leftover));
            && |alloc| == |raw| && Sum(alloc) == n
            && (NonNegative(raw) && SumReal(raw) == n as real ==> QuotaRule(raw, alloc))
  {
    RemainderOrderCorrect(raw);
    BumpSum(Floors(raw), Rounds(order, leftover));
    if NonNegative(raw) && SumReal(raw) == n as real {
      LeftoverIsFractional(raw, n);
      OneRound(order, leftover);
      LargestRemainderQuota(raw, n);
    }
  }

  /** Largest-remainder rounding, handing the leftover round in remainder order. */
  method Proportional(hints: Hints, total: nat, auto: nat) returns (alloc: seq<nat>)
    requires total > 0 && NonNegativeHints(hints)
    ensures |alloc| == total && Sum(alloc) == auto
    ensures Weighted(hints, total) ==> QuotaRule(ExactShares(hints, total, auto), alloc)
  {
    var raw := ExactShares(hints, total, auto);
    FloorsFit(hints, total, auto);
    var leftover := auto - Sum(Floors(raw));
    var order := RemainderOrder(raw);
    HandedOut(raw, auto, leftover, order);
    alloc := HandOut(Floors(raw), order, leftover);
    if Weighted(hints, total) { SharesFit(hints, total, auto); }
  }

  predicate MoreCapacity(hints: Hints, a: nat, b: nat) {
    b !in hints.capacity || (a in hints.capacity && hints.capacity[b] <= hints.capacity[a])
  }

  function ByCapacity(hints: Hints, total: nat): seq<nat> {
    SortBy(Range(total), (a, b) => MoreCapacity(hints, a, b))
  }

  lemma {:induction false} ByCapacityIsPermutation(hints: Hints, total: nat)
    ensures IsPermutation(ByCapacity(hints, total), total)
  {
    SortByCorrect(Range(total), (a, b) => MoreCapacity(hints, a, b));
    PermutationOfRange(ByCapacity(hints, total), total);
  }

  /** Quotas of all hosts, each within its limit, `deficit` short of the auto nodes. */
  ghost predicate Capped(quota: map<nat, nat>, total: nat, hints: Hints, cap: Option<nat>, auto: nat, deficit: nat) {
    && (forall h :: h in quota <==> 0 <= h < total)
    && (forall h :: 0 <= h < total ==> quota[h] <= HostLimit(hints, cap, auto, h))
    && Sum(Quotas(quota, total)) + deficit == auto
  }

  /** Gives host h as much of the deficit as its limit allows. */
  method TopUp(before: map<nat, nat>, total: nat, hints: Hints, cap: Option<nat>, auto: nat, short: nat, h: nat)
    returns (quota: map<nat, nat>, deficit: nat)
    requires Capped(before, total, hints, cap, auto, short) && h < total
    ensures Capped(quota, total, hints, cap, auto, deficit) && deficit <= short
    ensures deficit > 0 ==> quota[h] == HostLimit(hints, cap, auto, h)
    ensures short == 0 ==> quota == before
    ensures quota[h] >= before[h] && forall j :: 0 <= j < total && j != h ==> quota[j] == before[j]
  {
    var headroom := HostLimit(hints, cap, auto, h) - before[h];
    var add := Min(headroom, short);
    QuotaUpdate(before, total, h, before[h] + add);
    quota := before[h := before[h] + add];
    deficit := short - add;
  }

  lemma {:induction false} AllAtLimit(
    quota: map<nat, nat>, total: nat, hints: Hints, cap: Option<nat>, auto: nat, order: seq<nat>)
    requires IsPermutation(order, total) && forall h :: h in quota <==> 0 <= h < total
    requires forall j :: 0 <= j < total ==> quota[order[j]] == HostLimit(hints, cap, auto, order[j])
    ensures Quotas(quota, total) == Limits(hints, cap, auto, total)
  {
    forall h | 0 <= h < total ensures quota[h] == HostLimit(hints, cap, auto, h) {
      PermutationCovers(order, total, h);
    }
  }

  /** The limits bind nowhere. */
  ghost predicate Unlimited(alloc: seq<nat>, hints: Hints, cap: Option<nat>, auto: nat) {
    forall h :: 0 <= h < |alloc| ==> alloc[h] <= HostLimit(hints, cap, auto, h)
  }

  /** Every host has at least its part, or its limit. */
  ghost predicate Served(quota: map<nat, nat>, alloc: seq<nat>, hints: Hints, cap: Option<nat>, auto: nat) {
    forall h :: 0 <= h < |alloc| ==> QuotaOf(quota, h) >= Min(alloc[h], HostLimit(hints, cap, auto, h))
  }

  /** Cuts every part down to its host's limit. */
  method CapAll(alloc: seq<nat>, hints: Hints, cap: Option<nat>, auto: nat) returns (quota: map<nat, nat>, deficit: nat)
    requires Sum(alloc) == auto
    ensures Capped(quota, |alloc|, hints, cap, auto, deficit) && Served(quota, alloc, hints, cap, auto)
    ensures Unlimited(alloc, hints, cap, auto) ==> deficit == 0 && Quotas(quota, |alloc|) == alloc
  {
    var total := |alloc|;
    quota := map h | 0 <= h < total :: h := Min(alloc[h], HostLimit(hints, cap, auto, h));
    SumMonotone(Quotas(quota, total), alloc);
    deficit := auto - Sum(Quotas(quota, total));
    if Unlimited(alloc, hints, cap, auto) { assert Quotas(quota, total) == alloc; }
  }

  /** Caps every host, then refills what the caps took away, highest capacity first. */
  method CapAndTopUp(alloc: seq<nat>, hints: Hints, cap: Option<nat>, auto: nat) returns (quota: map<nat, nat>)
    requires Sum(alloc) == auto
    ensures forall h :: h in quota ==> h < |alloc|
    ensures forall h :: 0 <= h < |alloc| ==> QuotaOf(quota, h) <= HostLimit(hints, cap, auto, h)
    ensures Sum(Quotas(quota, |alloc|)) <= auto
    ensures Sum(Limits(hints, cap, auto, |alloc|)) >= auto ==> Sum(Quotas(quota, |alloc|)) == auto
    ensures Served(quota, alloc, hints, cap, auto)
    ensures Unlimited(alloc, hints, cap, auto) ==> Quotas(quota, |alloc|) == alloc
  {
    var total := |alloc|;
    var deficit;
    quota, deficit := CapAll(alloc, hints, cap, auto);
    var order := ByCapacity(hints, total);
    ByCapacityIsPermutation(hints, total);
    for k := 0 to total
      invariant Capped(quota, total, hints, cap, auto, deficit) && Served(quota, alloc, hints, cap, auto)
      invariant Unlimited(alloc, hints, cap, auto) ==> deficit == 0 && Quotas(quota, total) == alloc
      invariant deficit > 0 ==> forall j :: 0 <= j < k ==> quota[order[j]] == HostLimit(hints, cap, auto, order[j])
    {
      quota, deficit := TopUp(quota, total, hints, cap, auto, deficit, order[k]);
    }
    if deficit > 0 { AllAtLimit(quota, total, hints, cap, auto, order); }
  }

  /** Weights name only real hosts. */
  ghost predicate RealHosts(hints: Hints, total: nat) {
    forall h :: h in hints.capacity ==> h < total
  }

  /** Capacity data naming real hosts, and limits that leave room for every auto node. */
  ghost predicate HasRoom(hints: Hints, cap: Option<nat>, auto: nat, total: nat) {
    hints.capacity != map[] && RealHosts(hints, total) && Sum(Limits(hints, cap, auto, total)) >= auto
  }

  /** Without capacity data: everything everywhere, or an even share once host limits are given. */
  function EvenShare(hints: Hints, total: nat, auto: nat): nat
    requires total > 0
  {
    if hints.hostLimit == map[] then auto else (auto + total - 1) / total
  }

  /** All auto nodes go to a host of greatest capacity, above a uniform share and with room for them. */
  ghost predicate Packed(hints: Hints, total: nat, auto: nat, cap: Option<nat>, quota: map<nat, nat>)
    requires total > 0
  {
    exists best :: && best in hints.capacity
                   && (forall h :: h in hints.capacity ==> hints.capacity[h] <= hints.capacity[best])
                   && auto <= HostLimit(hints, cap, auto, best) && hints.capacity[best] > 1.0 / total as real
                   && quota == map[best := auto]
  }

  /** Shares in proportion to capacity: the quota rule up to the host limits, and exactly where none binds. */
  ghost predicate Spread(hints: Hints, total: nat, auto: nat, cap: Option<nat>, quota: map<nat, nat>)
    requires total > 0
  {
    Weighted(hints, total) ==>
      exists alloc: seq<nat> ::
        && QuotaRule(ExactShares(hints, total, auto), alloc) && Sum(alloc) == auto
        && Served(quota, alloc, hints, cap, auto)
        && (Unlimited(alloc, hints, cap, auto) ==> Quotas(quota, total) == alloc)
  }

  /** What the quotas promise: within the host limits; adding up to the auto nodes when there is room for all;
      even without capacity data; packed on the best host or in proportion to capacity otherwise. */
  ghost predicate QuotasFor(total: nat, auto: nat, hints: Hints, cap: Option<nat>, quota: map<nat, nat>)
    requires total > 0
  {
    && (forall h :: h in quota ==> quota[h] <= HostLimit(hints, cap, auto, h))
    && (HasRoom(hints, cap, auto, total) ==> Sum(Quotas(quota, total)) == auto)
    && (hints.capacity == map[] ==>
          forall h :: 0 <= h < total ==>
                        QuotaOf(quota, h) == Min(EvenShare(hints, total, auto), HostLimit(hints, cap, auto, h)))
    && (hints.capacity != map[] ==>
          Packed(hints, total, auto, cap, quota) || Spread(hints, total, auto, cap, quota))
  }

  lemma {:induction false} PackedQuotas(total: nat, auto: nat, hints: Hints, cap: Option<nat>, best: nat)
    requires total > 0 && best in hints.capacity
    requires forall h :: h in hints.capacity ==> hints.capacity[h] <= hints.capacity[best]
    requires auto <= HostLimit(hints, cap, auto, best) && hints.capacity[best] > 1.0 / total as real
    ensures QuotasFor(total, auto, hints, cap, map[best := auto])
  {
    if best < total { SoleQuota(total, best, auto); }
  }

  lemma {:induction false} SpreadQuotas(total: nat, auto: nat, hints: Hints, cap: Option<nat>, alloc: seq<nat>,
                                        quota: map<nat, nat>)
    requires total > 0 && |alloc| == total && Sum(alloc) == auto && hints.capacity != map[]
    requires Weighted(hints, total) ==> QuotaRule(ExactShares(hints, total, auto), alloc)
    requires forall h :: h in quota ==> h < total
    requires forall h :: 0 <= h < total ==> QuotaOf(quota, h) <= HostLimit(hints, cap, auto, h)
    requires Sum(Limits(hints, cap, auto, total)) >= auto ==> Sum(Quotas(quota, total)) == auto
    requires Served(quota, alloc, hints, cap, auto)
    requires Unlimited(alloc, hints, cap, auto) ==> Quotas(quota, total) == alloc
    ensures QuotasFor(total, auto, hints, cap, quota)
  {
    assert Spread(hints, total, auto, cap, quota);
    forall h | h in quota ensures quota[h] <= HostLimit(hints, cap, auto, h) { assert QuotaOf(quota, h) == quota[h]; }
  }

  method ComputeQuotas(total: nat, auto: nat, hints: Hints, cap: Option<nat>) returns (quota: map<nat, nat>)
    requires total > 0 && NonNegativeHints(hints)
    ensures QuotasFor(total, auto, hints, cap, quota)
  {
    if hints.capacity == map[] {
      var base := EvenShare(hints, total, auto);
      return map h | 0 <= h < total :: h := Min(base, HostLimit(hints, cap, auto, h));
    }
    var best := BestHost(hints.capacity);
    if auto <= HostLimit(hints, cap, auto, best) && hints.capacity[best] > 1.0 / total as real {
      PackedQuotas(total, auto, hints, cap, best);
      return map[best := auto];
    }
    var alloc := Proportional(hints, total, auto);
    quota := CapAndTopUp(alloc, hints, cap, auto);
    SpreadQuotas(total, auto, hints, cap, alloc, quota);
  }

  // ---------------------------------------------------------------------------
  // Greedy assignment
  // ---------------------------------------------------------------------------

  /** Data weight of the deps already on host h. */
  function Affinity(deps: seq<Id>, hosts: map<Id, nat>, weights: map<Id, real>, h: nat): real {
    if deps == [] then 0.0
    else
      var d := deps[|deps| - 1];
      Affinity(deps[..|deps| - 1], hosts, weights, h)
      + (if d in hosts && hosts[d] == h then (if d in weights then weights[d] else 1.0) else 0.0)
  }

  /** Lexicographic on (affinity, remaining quota). */
  predicate KeyAtMost(a1: real, q1: nat, a2: real, q2: nat) {
    a1 < a2 || (a1 == a2 && q1 <= q2)
  }

  /** The best host below h with quota left: most of the node's input, then most quota, then the larger id. */
  function BestBelow(n: Node, hosts: map<Id, nat>, weights: map<Id, real>, quota: map<nat, nat>, h: nat): Option<nat> {
    if h == 0 then None
    else
      var best := BestBelow(n, hosts, weights, quota, h - 1);
      if QuotaOf(quota, h - 1) == 0 then best
      else if best.None? || KeyAtMost(Affinity(n.deps, hosts, weights, best.value), QuotaOf(quota, best.value),
                                      Affinity(n.deps, hosts, weights, h - 1), QuotaOf(quota, h - 1))
      then Some(h - 1)
      else best
  }

  /** The host with quota left that holds most of the node's input, ties broken by quota, then by the
      larger id; host 0 when no quota is left. */
  method PickHost(n: Node, hosts: map<Id, nat>, weights: map<Id, real>, quota: map<nat, nat>, total: nat)
    returns (best: nat)
    requires total > 0
    ensures best < total && best == OrElse(BestBelow(n, hosts, weights, quota, total), 0)
    ensures (exists h :: 0 <= h < total && QuotaOf(quota, h) > 0) ==> QuotaOf(quota, best) > 0
    ensures QuotaOf(quota, best) == 0 ==> best == 0
    ensures QuotaOf(quota, best) > 0 ==>
              forall h :: 0 <= h < total && QuotaOf(quota, h) > 0 ==>
                            KeyAtMost(Affinity(n.deps, hosts, weights, h), QuotaOf(quota, h),
                                      Affinity(n.deps, hosts, weights, best), QuotaOf(quota, best))
  {
    var found: Option<nat> := None;
    for h := 0 to total
      invariant found == BestBelow(n, hosts, weights, quota, h)
      invariant found.Some? ==> found.value < h && QuotaOf(quota, found.value) > 0
      invariant found.None? ==> forall j :: 0 <= j < h ==> QuotaOf(quota, j) == 0
      invariant found.Some? ==> forall j :: 0 <= j < h && QuotaOf(quota, j) > 0 ==>
                                              KeyAtMost(Affinity(n.deps, hosts, weights, j), QuotaOf(quota, j),
                                                        Affinity(n.deps, hosts, weights, found.value),
                                                        QuotaOf(quota, found.value))
    {
      if QuotaOf(quota, h) > 0 {
        if found.None? || KeyAtMost(Affinity(n.deps, hosts, weights, found.value), QuotaOf(quota, found.value),
                                    Affinity(n.deps, hosts, weights, h), QuotaOf(quota, h)) {
          found := Some(h);
        }
      }
    }
    best := if found.Some? then found.value else 0;
  }

  function AutoNodes(nodes: seq<Node>): set<nat> {
    set i: nat | i < |nodes| && nodes[i].host.None?
  }

  /** Auto nodes that ended on host h. */
  function PlacedOn(nodes: seq<Node>, out: seq<Node>, h: nat): set<nat> {
    set i: nat | i < |nodes| && i < |out| && nodes[i].host.None? && out[i].host == Some(h)
  }

  /** Placement only ever fills in a missing host. */
  ghost predicate OnlyHostsFilled(nodes: seq<Node>, out: seq<Node>) {
    && |out| == |nodes|
    && forall i :: 0 <= i < |nodes| ==>
                     out[i] == nodes[i] || (nodes[i].host.None? && out[i] == nodes[i].(host := out[i].host))
  }

  /** After k of the ordered nodes: those have hosts, the others do not. */
  ghost predicate Filled(nodes: seq<Node>, out: seq<Node>, order: seq<nat>, k: nat, total: nat)
    requires k <= |order|
  {
    && OnlyHostsFilled(nodes, out)
    && (forall i :: i in AutoNodes(nodes) && i !in order[..k] ==> out[i].host.None?)
    && (forall i :: i in AutoNodes(nodes) && i in order[..k] ==> out[i].host.Some? && out[i].host.value < total)
  }

  /** The quotas cover the auto nodes. */
  ghost predicate Enough(nodes: seq<Node>, total: nat, start: map<nat, nat>) {
    Sum(Quotas(start, total)) >= |AutoNodes(nodes)|
  }

  /** Every node placed was paid for from its host's quota, host 0's overflow excepted; with enough quota there
      is none, and what is left still covers the nodes left. */
  ghost predicate Budgeted(nodes: seq<Node>, out: seq<Node>, todo: set<nat>, total: nat,
                           start: map<nat, nat>, left: map<nat, nat>) {
    && (forall h :: 0 < h < total ==> |PlacedOn(nodes, out, h)| + QuotaOf(left, h) == QuotaOf(start, h))
    && (Enough(nodes, total, start) ==>
          && Sum(Quotas(left, total)) + |AutoNodes(nodes)| == Sum(Quotas(start, total)) + |todo|
          && forall h :: 0 <= h < total ==> |PlacedOn(nodes, out, h)| + QuotaOf(left, h) == QuotaOf(start, h))
  }

  function Take(left: map<nat, nat>, h: nat): map<nat, nat> {
    if h in left then left[h := if left[h] > 0 then left[h] - 1 else 0] else left
  }

  lemma {:induction false} FilledStep(nodes: seq<Node>, out: seq<Node>, order: seq<nat>, k: nat, total: nat, best: nat)
    requires IsPermutation(order, |nodes|) && k < |order| && Filled(nodes, out, order, k, total) && best < total
    requires nodes[order[k]].host.None?
    ensures Filled(nodes, out[order[k] := nodes[order[k]].(host := Some(best))], order, k + 1, total)
    ensures order[k] !in order[..k] && out[order[k]].host.None?
  {
    assert order[..k + 1] == order[..k] + [order[k]];
    assert order[k] in AutoNodes(nodes) && order[k] !in order[..k];
  }

  lemma {:induction false} BudgetStep(nodes: seq<Node>, out: seq<Node>, todo: set<nat>, total: nat,
                                      start: map<nat, nat>, left: map<nat, nat>, idx: nat, best: nat)
    requires Budgeted(nodes, out, todo, total, start, left)
    requires |out| == |nodes| && idx < |nodes| && nodes[idx].host.None? && out[idx].host.None?
    requires idx in todo && best < total
    requires (Enough(nodes, total, start) || best != 0) ==> QuotaOf(left, best) > 0
    ensures Budgeted(nodes, out[idx := nodes[idx].(host := Some(best))], todo - {idx}, total, start, Take(left, best))
  {
    var out' := out[idx := nodes[idx].(host := Some(best))];
    forall h | 0 <= h < total
      ensures |PlacedOn(nodes, out', h)| == |PlacedOn(nodes, out, h)| + (if h == best then 1 else 0)
    {
      PlacedStep(nodes, out, idx, best, h);
    }
    if QuotaOf(left, best) > 0 { QuotaUpdate(left, total, best, QuotaOf(left, best) - 1); }
  }

  lemma {:induction false} PlacedStep(nodes: seq<Node>, out: seq<Node>, idx: nat, best: nat, h: nat)
    requires |out| == |nodes| && idx < |nodes| && nodes[idx].host.None? && out[idx].host.None?
    ensures |PlacedOn(nodes, out[idx := nodes[idx].(host := Some(best))], h)|
         == |PlacedOn(nodes, out, h)| + (if h == best then 1 else 0)
  {
    var out' := out[idx := nodes[idx].(host := Some(best))];
    assert PlacedOn(nodes, out', h) == PlacedOn(nodes, out, h) + (if h == best then {idx} else {});
    assert idx !in PlacedOn(nodes, out, h);
  }

  lemma {:induction false} QuotaLeft(todo: set<nat>, left: map<nat, nat>, total: nat, idx: nat)
    requires Sum(Quotas(left, total)) >= |todo| && idx in todo
    ensures exists h :: 0 <= h < total && QuotaOf(left, h) > 0
  {
    assert todo == (todo - {idx}) + {idx};
    var h := SumPositive(Quotas(left, total));
    assert QuotaOf(left, h) > 0;
  }

  function Todo(nodes: seq<Node>, order: seq<nat>, k: nat): set<nat>
    requires k <= |order|
  {
    AutoNodes(nodes) - Elems(order[..k])
  }

  /** The greedy loop's invariant after k of the ordered nodes. */
  ghost predicate Placing(nodes: seq<Node>, out: seq<Node>, order: seq<nat>, k: nat, total: nat,
                          start: map<nat, nat>, left: map<nat, nat>)
    requires k <= |order|
  {
    Filled(nodes, out, order, k, total) && Budgeted(nodes, out, Todo(nodes, order, k), total, start, left)
  }

  lemma {:induction false} PlacingStart(nodes: seq<Node>, order: seq<nat>, total: nat, quota: map<nat, nat>)
    ensures Placing(nodes, nodes, order, 0, total, quota, quota)
  {
    assert order[..0] == [];
    assert Todo(nodes, order, 0) == AutoNodes(nodes);
    forall h | 0 <= h < total ensures PlacedOn(nodes, nodes, h) == {} {}
  }

  lemma {:induction false} TodoSkip(nodes: seq<Node>, order: seq<nat>, k: nat)
    requires k < |order| && order[k] < |nodes| && nodes[order[k]].host.Some?
    ensures Todo(nodes, order, k + 1) == Todo(nodes, order, k)
  {
    assert order[..k + 1] == order[..k] + [order[k]];
  }

  lemma {:induction false} FilledSkip(nodes: seq<Node>, out: seq<Node>, order: seq<nat>, k: nat, total: nat)
    requires k < |order| && order[k] < |nodes| && nodes[order[k]].host.Some? && Filled(nodes, out, order, k, total)
    ensures Filled(nodes, out, order, k + 1, total)
  {
    assert order[..k + 1] == order[..k] + [order[k]];
  }

  lemma {:induction false} PlacingSkip(nodes: seq<Node>, out: seq<Node>, order: seq<nat>, k: nat, total: nat,
                                       start: map<nat, nat>, left: map<nat, nat>)
    requires k < |order| && IsPermutation(order, |nodes|) && nodes[order[k]].host.Some?
    requires Placing(nodes, out, order, k, total, start, left)
    ensures Placing(nodes, out, order, k + 1, total, start, left)
  {
    FilledSkip(nodes, out, order, k, total);
    TodoSkip(nodes, order, k);
  }

  lemma {:induction false} TodoStep(nodes: seq<Node>, order: seq<nat>, k: nat)
    requires k < |order| && IsPermutation(order, |nodes|) && nodes[order[k]].host.None?
    ensures order[k] in Todo(nodes, order, k) && Todo(nodes, order, k + 1) == Todo(nodes, order, k) - {order[k]}
  {
    assert order[..k + 1] == order[..k] + [order[k]];
  }

  /** With enough quota some host can still pay, so the chosen one can. */
  lemma {:induction false} CanPay(nodes: seq<Node>, out: seq<Node>, todo: set<nat>, total: nat,
                                  start: map<nat, nat>, left: map<nat, nat>, idx: nat, best: nat)
    requires Budgeted(nodes, out, todo, total, start, left) && idx in todo
    requires (exists h :: 0 <= h < total && QuotaOf(left, h) > 0) ==> QuotaOf(left, best) > 0
    ensures Enough(nodes, total, start) ==> QuotaOf(left, best) > 0
  {
    if Enough(nodes, total, start) { QuotaLeft(todo, left, total, idx); }
  }

  lemma {:induction false} PlacingStep(nodes: seq<Node>, out: seq<Node>, order: seq<nat>, k: nat, total: nat,
                                       start: map<nat, nat>, left: map<nat, nat>, best: nat)
    requires k < |order| && IsPermutation(order, |nodes|) && nodes[order[k]].host.None? && best < total
    requires Placing(nodes, out, order, k, total, start, left)
    requires (exists h :: 0 <= h < total && QuotaOf(left, h) > 0) ==> QuotaOf(left, best) > 0
    requires QuotaOf(left, best) == 0 ==> best == 0
    ensures Placing(nodes, out[order[k] := nodes[order[k]].(host := Some(best))], order, k + 1, total, start,
                    Take(left, best))
  {
    FilledStep(nodes, out, order, k, total, best);
    TodoStep(nodes, order, k);
    var todo := Todo(nodes, order, k);
    CanPay(nodes, out, todo, total, start, left, order[k], best);
    BudgetStep(nodes, out, todo, total, start, left, order[k], best);
  }

  /** Hosts other than 0 stay within their quotas; all do when the quotas cover the auto nodes, and exactly when
      they add up to them. */
  ghost predicate WithinQuotas(nodes: seq<Node>, out: seq<Node>, total: nat, quota: map<nat, nat>) {
    && (forall h :: 0 < h < total ==> |PlacedOn(nodes, out, h)| <= QuotaOf(quota, h))
    && (Enough(nodes, total, quota) ==> forall h :: 0 <= h < total ==> |PlacedOn(nodes, out, h)| <= QuotaOf(quota, h))
    && (Sum(Quotas(quota, total)) == |AutoNodes(nodes)| ==>
          forall h :: 0 <= h < total ==> |PlacedOn(nodes, out, h)| == QuotaOf(quota, h))
  }

  lemma {:induction false} PlacingEnd(nodes: seq<Node>, out: seq<Node>, order: seq<nat>, total: nat,
                                      start: map<nat, nat>, left: map<nat, nat>)
    requires IsPermutation(order, |nodes|) && Placing(nodes, out, order, |order|, total, start, left)
    ensures forall i :: i in AutoNodes(nodes) ==> out[i].host.Some? && out[i].host.value < total
    ensures WithinQuotas(nodes, out, total, start)
  {
    assert order[..|order|] == order;
    forall i | i in AutoNodes(nodes) ensures i in order {
      PermutationCovers(order, |nodes|, i);
    }
    if Sum(Quotas(start, total)) == |AutoNodes(nodes)| {
      assert Todo(nodes, order, |order|) == {};
      forall h | 0 <= h < total ensures |PlacedOn(nodes, out, h)| == QuotaOf(start, h) {
        SumZero(Quotas(left, total), h);
      }
    }
  }

  /** The state of the greedy loop: the nodes, the hosts known so far, and the quota left. */
  datatype Greedy = Greedy(nodes: seq<Node>, hosts: map<Id, nat>, left: map<nat, nat>)

  /** The first k nodes of the order, each without a host sent to the best host of its moment. */
  function GreedyUpTo(nodes: seq<Node>, order: seq<nat>, total: nat, quota: map<nat, nat>, k: nat): (r: Greedy)
    requires k <= |order| && forall i :: 0 <= i < |order| ==> order[i] < |nodes|
    ensures |r.nodes| == |nodes|
  {
    if k == 0 then Greedy(nodes, HostsOf(nodes), quota)
    else
      var was, n := GreedyUpTo(nodes, order, total, quota, k - 1), nodes[order[k - 1]];
      if n.host.Some? then was
      else
        var best := OrElse(BestBelow(n, was.hosts, WeightMap(nodes), was.left, total), 0);
        Greedy(was.nodes[order[k - 1] := n.(host := Some(best))], was.hosts[n.id := best], Take(was.left, best))
  }

  /** Places the auto nodes in the given order; exact quotas are used up exactly. */
  method PlaceInOrder(nodes: seq<Node>, order: seq<nat>, total: nat, quota: map<nat, nat>) returns (out: seq<Node>)
    requires total > 0 && IsPermutation(order, |nodes|)
    ensures OnlyHostsFilled(nodes, out) && out == GreedyUpTo(nodes, order, total, quota, |order|).nodes
    ensures forall i :: i in AutoNodes(nodes) ==> out[i].host.Some? && out[i].host.value < total
    ensures WithinQuotas(nodes, out, total, quota)
  {
    out := nodes;
    var hosts: map<Id, nat> := HostsOf(nodes);
    var weights, left := WeightMap(nodes), quota;
    PlacingStart(nodes, order, total, quota);
    for k := 0 to |order|
      invariant Placing(nodes, out, order, k, total, quota, left)
      invariant GreedyUpTo(nodes, order, total, quota, k) == Greedy(out, hosts, left)
    {
      var idx := order[k];
      if nodes[idx].host.None? {
        var best := PickHost(nodes[idx], hosts, weights, left, total);
        PlacingStep(nodes, out, order, k, total, quota, left, best);
        out := out[idx := nodes[idx].(host := Some(best))];
        hosts := hosts[nodes[idx].id := best];
        left := Take(left, best);
      } else {
        PlacingSkip(nodes, out, order, k, total, quota, left);
      }
    }
    PlacingEnd(nodes, out, order, total, quota, left);
  }

  /** out is a placement of nodes: only missing hosts are filled, each in turn with the best host of its moment;
      all are real; every host stays within its quota, and gets exactly its quota when there is room for all. */
  ghost predicate IsPlacement(nodes: seq<Node>, total: nat, hints: Hints, cap: Option<nat>,
                              out: seq<Node>, quota: map<nat, nat>, order: seq<nat>)
    requires total > 0
  {
    && OnlyHostsFilled(nodes, out) && IsPermutation(order, |nodes|)
    && (Acyclic(Edges(nodes)) && DistinctIds(nodes) ==> DepsFirst(nodes, order))
    && (forall i :: i in AutoNodes(nodes) ==> out[i].host.Some? && out[i].host.value < total)
    && WithinQuotas(nodes, out, total, quota)
    && (AutoNodes(nodes) != {} ==>
          && QuotasFor(total, |AutoNodes(nodes)|, hints, cap, quota)
          && out == GreedyUpTo(nodes, order, total, quota, |order|).nodes)
    && (HasRoom(hints, cap, |AutoNodes(nodes)|, total) ==>
          && Sum(Quotas(quota, total)) == |AutoNodes(nodes)|
          && forall h :: 0 <= h < total ==> |PlacedOn(nodes, out, h)| == QuotaOf(quota, h))
  }

  /** Nothing is placed without machines. */
  method AssignNodes(nodes: seq<Node>, total: nat, hints: Hints, cap: Option<nat>)
    returns (out: seq<Node>, quota: map<nat, nat>, order: seq<nat>)
    requires NonNegativeHints(hints)
    ensures total == 0 ==> out == nodes
    ensures total > 0 ==> IsPlacement(nodes, total, hints, cap, out, quota, order)
  {
    out, quota := nodes, map[];
    if total == 0 {
      order := [];
      return;
    }
    order := TopoOrder(nodes);
    var auto := |AutoNodes(nodes)|;
    if auto == 0 {
      NothingPlaced(nodes, total);
      return;
    }
    quota := ComputeQuotas(total, auto, hints, cap);
    out := PlaceInOrder(nodes, order, total, quota);
  }

  lemma {:induction false} NothingPlaced(nodes: seq<Node>, total: nat)
    requires AutoNodes(nodes) == {}
    ensures WithinQuotas(nodes, nodes, total, map[]) && Sum(Quotas(map[], total)) == 0
  {
    ZeroQuotas(total);
    forall h | 0 <= h < total ensures PlacedOn(nodes, nodes, h) == {} {
      assert PlacedOn(nodes, nodes, h) <= AutoNodes(nodes);
    }
  }

  function HostsOf(nodes: seq<Node>): map<Id, nat> {
    if nodes == [] then map[]
    else
      var init, n := HostsOf(nodes[..|nodes| - 1]), nodes[|nodes| - 1];
      if n.host.Some? then init[n.id := n.host.value] else init
  }

  function WeightMap(nodes: seq<Node>): map<Id, real> {
    if nodes == [] then map[]
    else WeightMap(nodes[..|nodes| - 1])[nodes[|nodes| - 1].id := EdgeWeight(nodes[|nodes| - 1])]
  }
}
