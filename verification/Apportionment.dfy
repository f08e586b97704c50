/**
  Largest-remainder (Hamilton) apportionment, shared by the fan-out splitter and
  by the placer's quotas.  Capacities are exact reals.
 */
module Apportionment {
  import opened Sequences

  /** `r.floor() as usize`: a negative share saturates to zero. */
  function FloorOf(r: real): nat {
    if r >= 0.0 then r.Floor else 0
  }

  function CeilOf(r: real): int {
    -((-r).Floor)
  }

  function Fraction(raw: seq<real>, i: nat): real {
    if i < |raw| then raw[i] - FloorOf(raw[i]) as real else 0.0
  }

  function Floors(raw: seq<real>): (r: seq<nat>)
    ensures |r| == |raw|
  {
    seq(|raw|, i requires 0 <= i < |raw| => FloorOf(raw[i]))
  }

  /** Host indices by decreasing fractional part (stable). */
  function RemainderOrder(raw: seq<real>): seq<nat> {
    SortBy(Range(|raw|), (a, b) => Fraction(raw, b) <= Fraction(raw, a))
  }

  /** Adds one to each listed position, in order. */
  function Bump(counts: seq<nat>, at: seq<nat>): (r: seq<nat>)
    requires forall i :: 0 <= i < |at| ==> at[i] < |counts|
    ensures |r| == |counts|
  {
    if at == [] then counts
    else
      var k, prev := at[|at| - 1], Bump(counts, at[..|at| - 1]);
      prev[k := prev[k] + 1]
  }

  lemma {:induction false} BumpSum(counts: seq<nat>, at: seq<nat>)
    requires forall i :: 0 <= i < |at| ==> at[i] < |counts|
    ensures Sum(Bump(counts, at)) == Sum(counts) + |at|
  {
    if at != [] {
      var k, prev := at[|at| - 1], Bump(counts, at[..|at| - 1]);
      BumpSum(counts, at[..|at| - 1]);
      SumUpdate(prev, k, prev[k] + 1);
    }
  }

  lemma {:induction false} BumpAt(counts: seq<nat>, at: seq<nat>, i: nat)
    requires forall k :: 0 <= k < |at| ==> at[k] < |counts|
    requires forall j, k :: 0 <= j < k < |at| ==> at[j] != at[k]
    requires i < |counts|
    ensures Bump(counts, at)[i] == counts[i] + (if i in at then 1 else 0)
  {
    if at != [] {
      BumpAt(counts, at[..|at| - 1], i);
      assert at == at[..|at| - 1] + [at[|at| - 1]];
    }
  }

  lemma {:induction false} RemainderOrderCorrect(raw: seq<real>)
    ensures var o := RemainderOrder(raw);
            && IsPermutation(o, |raw|)
            && forall i, j :: 0 <= i < j < |o| ==> Fraction(raw, o[j]) <= Fraction(raw, o[i])
  {
    var le := (a: nat, b: nat) => Fraction(raw, b) <= Fraction(raw, a);
    SortByCorrect(Range(|raw|), le);
    PermutationOfRange(RemainderOrder(raw), |raw|);
    var o := RemainderOrder(raw);
    forall i, j | 0 <= i < j < |o| ensures Fraction(raw, o[j]) <= Fraction(raw, o[i]) {
      assert le(o[i], o[j]);
    }
  }

  ghost predicate NonNegative(raw: seq<real>) {
    forall i :: 0 <= i < |raw| ==> raw[i] >= 0.0
  }

  ghost function PositiveFractions(raw: seq<real>): set<nat> {
    set i: nat | i < |raw| && Fraction(raw, i) > 0.0
  }

  /** The shares exceed their floors by less than the number of fractional shares. */
  lemma {:induction false} FloorGap(raw: seq<real>)
    requires NonNegative(raw)
    ensures Sum(Floors(raw)) as real <= SumReal(raw) <= (Sum(Floors(raw)) + |PositiveFractions(raw)|) as real
  {
    if raw != [] {
      var n := |raw| - 1;
      var init := raw[..n];
      FloorGap(init);
      assert Floors(raw)[..n] == Floors(init);
      assert forall i :: 0 <= i < n ==> Fraction(raw, i) == Fraction(init, i);
      var more: set<nat> := if Fraction(raw, n) > 0.0 then {n} else {};
      assert PositiveFractions(raw) == PositiveFractions(init) + more;
    }
  }

  lemma {:induction false} ElemsBound<T>(xs: seq<T>)
    ensures |Elems(xs)| <= |xs|
  {
    if xs != [] {
      ElemsBound(xs[..|xs| - 1]);
      assert xs == xs[..|xs| - 1] + [xs[|xs| - 1]];
      assert Elems(xs) == Elems(xs[..|xs| - 1]) + {xs[|xs| - 1]};
    }
  }

  lemma {:induction false} SubsetSize<T>(s: set<T>, t: set<T>)
    requires s <= t
    ensures |s| <= |t|
  {
    assert t == s + (t - s);
  }

  /** A zero fraction at place k leaves at most k positive ones. */
  lemma {:induction false} ZeroFractionBound(raw: seq<real>, o: seq<nat>, k: nat)
    requires IsPermutation(o, |raw|) && k < |o|
    requires forall i, j :: 0 <= i < j < |o| ==> Fraction(raw, o[j]) <= Fraction(raw, o[i])
    requires Fraction(raw, o[k]) <= 0.0
    ensures |PositiveFractions(raw)| <= k
  {
    forall i | i in PositiveFractions(raw)
      ensures i in Elems(o[..k])
    {
      PermutationCovers(o, |raw|, i);
      var j :| 0 <= j < |o| && o[j] == i;
      assert o[..k][j] == i;
    }
    ElemsBound(o[..k]);
    SubsetSize(PositiveFractions(raw), Elems(o[..k]));
  }

  /** Only hosts with a fractional share are ever rounded up. */
  lemma {:induction false} LeftoverIsFractional(raw: seq<real>, n: nat)
    requires NonNegative(raw) && SumReal(raw) == n as real
    ensures Sum(Floors(raw)) <= n
    ensures n - Sum(Floors(raw)) <= |raw|
    ensures IsPermutation(RemainderOrder(raw), |raw|)
    ensures forall k :: 0 <= k < n - Sum(Floors(raw)) ==> Fraction(raw, RemainderOrder(raw)[k]) > 0.0
  {
    RemainderOrderCorrect(raw);
    FloorGap(raw);
    SetOfRange(PositiveFractions(raw), |raw|);
    var o := RemainderOrder(raw);
    forall k: nat | k < n - Sum(Floors(raw))
      ensures Fraction(raw, o[k]) > 0.0 || |PositiveFractions(raw)| <= k
    {
      if Fraction(raw, o[k]) <= 0.0 { ZeroFractionBound(raw, o, k); }
    }
  }

  /** Floors, plus one for each of the leftover units in remainder order. */
  function LargestRemainder(raw: seq<real>, n: nat): seq<nat>
    requires NonNegative(raw) && SumReal(raw) == n as real
  {
    LeftoverIsFractional(raw, n);
    Bump(Floors(raw), RemainderOrder(raw)[..n - Sum(Floors(raw))])
  }

  /** The parts sum to n exactly and each is the floor or the ceiling of its share. */
  lemma {:induction false} LargestRemainderQuota(raw: seq<real>, n: nat)
    requires NonNegative(raw) && SumReal(raw) == n as real
    ensures var c := LargestRemainder(raw, n);
            && |c| == |raw|
            && Sum(c) == n
            && forall i :: 0 <= i < |c| ==> FloorOf(raw[i]) <= c[i] <= CeilOf(raw[i])
  {
    LeftoverIsFractional(raw, n);
    var o, left := RemainderOrder(raw), n - Sum(Floors(raw));
    BumpSum(Floors(raw), o[..left]);
    forall i | 0 <= i < |raw|
      ensures FloorOf(raw[i]) <= LargestRemainder(raw, n)[i] <= CeilOf(raw[i])
    {
      BumpAt(Floors(raw), o[..left], i);
      if i in o[..left] {
        var k :| 0 <= k < left && o[k] == i;
        assert Fraction(raw, o[k]) > 0.0;
      }
    }
  }

  // ---------------------------------------------------------------------------
  // Scaling capacities to shares
  // ---------------------------------------------------------------------------

  function Share(cap: real, total: real, n: nat): real
    requires total > 0.0
  {
    cap / total * n as real
  }

  function Scale(caps: seq<real>, total: real, n: nat): (r: seq<real>)
    requires total > 0.0
    ensures |r| == |caps|
  {
    seq(|caps|, i requires 0 <= i < |caps| => Share(caps[i], total, n))
  }

  lemma {:induction false} ShareAdds(a: real, b: real, total: real, n: nat)
    requires total > 0.0
    ensures Share(a + b, total, n) == Share(a, total, n) + Share(b, total, n)
  {
    assert (a + b) / total == a / total + b / total;
  }

  lemma {:induction false} ScaleSum(caps: seq<real>, total: real, n: nat)
    requires total > 0.0
    ensures SumReal(Scale(caps, total, n)) == Share(SumReal(caps), total, n)
  {
    if caps != [] {
      var k := |caps| - 1;
      ScaleSum(caps[..k], total, n);
      assert Scale(caps, total, n)[..k] == Scale(caps[..k], total, n);
      ShareAdds(SumReal(caps[..k]), caps[k], total, n);
    }
  }

  lemma {:induction false} WholeShare(t: real, n: nat)
    requires t > 0.0
    ensures Share(t, t, n) == n as real
  {
    assert t / t == 1.0;
  }

  lemma {:induction false} ShareNonNegative(cap: real, t: real, n: nat)
    requires cap >= 0.0 && t > 0.0
    ensures Share(cap, t, n) >= 0.0
  {
    assert cap / t >= 0.0;
  }

  lemma {:induction false} ScaleToTotal(caps: seq<real>, n: nat)
    requires NonNegative(caps) && SumReal(caps) > 0.0
    ensures NonNegative(Scale(caps, SumReal(caps), n))
    ensures SumReal(Scale(caps, SumReal(caps), n)) == n as real
  {
    var t := SumReal(caps);
    ScaleSum(caps, t, n);
    WholeShare(t, n);
    forall i | 0 <= i < |caps| ensures Scale(caps, t, n)[i] >= 0.0 {
      ShareNonNegative(caps[i], t, n);
    }
  }
}
