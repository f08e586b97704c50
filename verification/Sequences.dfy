/** Sequence helpers: flat maps, sums, permutations and a stable comparison sort. */
module Sequences {
  function Min(a: nat, b: nat): nat {
    if a < b then a else b
  }

  function Max(a: nat, b: nat): nat {
    if a < b then b else a
  }

  // ---------------------------------------------------------------------------
  // Flat map
  // ---------------------------------------------------------------------------

  function FlatMap<A, B>(xs: seq<A>, f: A -> seq<B>): seq<B> {
    if xs == [] then [] else FlatMap(xs[..|xs| - 1], f) + f(xs[|xs| - 1])
  }

  lemma {:induction false} FlatMapStep<A, B>(xs: seq<A>, f: A -> seq<B>, i: nat)
    requires i < |xs|
    ensures FlatMap(xs[..i + 1], f) == FlatMap(xs[..i], f) + f(xs[i])
  {
    assert xs[..i + 1][..i] == xs[..i];
  }

  lemma {:induction false} InFlatMap<A(!new), B>(xs: seq<A>, f: A -> seq<B>, b: B)
    ensures b in FlatMap(xs, f) <==> exists a :: a in xs && b in f(a)
  {
    if xs != [] {
      var init, last := xs[..|xs| - 1], xs[|xs| - 1];
      assert xs == init + [last];
      InFlatMap(init, f, b);
    }
  }

  /** Distinct keys survive a flat map whose pieces have distinct, owner-tagged keys. */
  ghost predicate DistinctBy<A(!new), K(!new)>(xs: seq<A>, key: A -> K) {
    forall i, j :: 0 <= i < j < |xs| ==> key(xs[i]) != key(xs[j])
  }

  lemma {:induction false} FlatMapDistinct<A(!new), B(!new), K(!new), L(!new)>(
    xs: seq<A>, f: A -> seq<B>, key: A -> K, out: B -> L, owner: L -> K)
    requires DistinctBy(xs, key)
    requires forall a :: a in xs ==> DistinctBy(f(a), out)
    requires forall a, b :: a in xs && b in f(a) ==> owner(out(b)) == key(a)
    ensures DistinctBy(FlatMap(xs, f), out)
  {
    if xs != [] {
      var init, last := xs[..|xs| - 1], xs[|xs| - 1];
      assert forall a :: a in init ==> a in xs;
      FlatMapDistinct(init, f, key, out, owner);
      var p, q := FlatMap(init, f), f(last);
      forall i, j | 0 <= i < |p| && 0 <= j < |q|
        ensures out(p[i]) != out(q[j])
      {
        InFlatMap(init, f, p[i]);
        var a :| a in init && p[i] in f(a);
        var k :| 0 <= k < |init| && init[k] == a;
        assert xs[k] == a;
        assert q[j] in f(last);
      }
    }
  }

  // ---------------------------------------------------------------------------
  // Sums
  // ---------------------------------------------------------------------------

  function Sum(xs: seq<nat>): nat {
    if xs == [] then 0 else Sum(xs[..|xs| - 1]) + xs[|xs| - 1]
  }

  function SumReal(xs: seq<real>): real {
    if xs == [] then 0.0 else SumReal(xs[..|xs| - 1]) + xs[|xs| - 1]
  }

  lemma {:induction false} SumStep(xs: seq<nat>, i: nat)
    requires i < |xs|
    ensures Sum(xs[..i + 1]) == Sum(xs[..i]) + xs[i]
  {
    assert xs[..i + 1][..i] == xs[..i];
  }

  lemma {:induction false} SumUpdate(xs: seq<nat>, i: nat, v: nat)
    requires i < |xs|
    ensures Sum(xs[i := v]) == Sum(xs) - xs[i] + v
  {
    var n := |xs| - 1;
    if i == n {
      assert xs[i := v][..n] == xs[..n];
    } else {
      assert xs[i := v][..n] == xs[..n][i := v];
      SumUpdate(xs[..n], i, v);
    }
  }

  lemma {:induction false} SumConcat(xs: seq<nat>, ys: seq<nat>)
    ensures Sum(xs + ys) == Sum(xs) + Sum(ys)
  {
    if ys == [] {
      assert xs + ys == xs;
    } else {
      var n := |ys| - 1;
      assert (xs + ys)[..|xs + ys| - 1] == xs + ys[..n];
      SumConcat(xs, ys[..n]);
    }
  }

  lemma {:induction false} SumMonotone(xs: seq<nat>, ys: seq<nat>)
    requires |xs| == |ys| && forall i :: 0 <= i < |xs| ==> xs[i] <= ys[i]
    ensures Sum(xs) <= Sum(ys)
  {
    if xs != [] { SumMonotone(xs[..|xs| - 1], ys[..|ys| - 1]); }
  }

  lemma {:induction false} SumZero(xs: seq<nat>, i: nat)
    requires i < |xs|
    ensures Sum(xs) == 0 ==> xs[i] == 0
  {
    if i < |xs| - 1 { SumZero(xs[..|xs| - 1], i); }
  }

  lemma {:induction false} SumPositive(xs: seq<nat>) returns (i: nat)
    requires Sum(xs) > 0
    ensures i < |xs| && xs[i] > 0
  {
    var n := |xs| - 1;
    if xs[n] > 0 { i := n; } else { i := SumPositive(xs[..n]); }
  }

  // ---------------------------------------------------------------------------
  // Permutations of 0..n
  // ---------------------------------------------------------------------------

  function Range(n: nat): (r: seq<nat>)
    ensures |r| == n && forall i :: 0 <= i < n ==> r[i] == i
  {
    seq(n, i => i)
  }

  /** Every index below n occurs, and none twice. */
  ghost predicate IsPermutation(p: seq<nat>, n: nat) {
    |p| == n && (forall i :: 0 <= i < n ==> p[i] < n) && (forall i, j :: 0 <= i < j < n ==> p[i] != p[j])
  }

  lemma {:induction false} RangeMultiset(n: nat, x: nat)
    ensures multiset(Range(n))[x] == if x < n then 1 else 0
  {
    if n > 0 {
      assert Range(n) == Range(n - 1) + [n - 1];
      RangeMultiset(n - 1, x);
    }
  }

  lemma {:induction false} PermutationOfRange(p: seq<nat>, n: nat)
    requires multiset(p) == multiset(Range(n))
    ensures IsPermutation(p, n)
  {
    assert |p| == |multiset(p)| == |multiset(Range(n))| == n;
    forall i | 0 <= i < n ensures p[i] < n {
      RangeMultiset(n, p[i]);
      assert p[i] in multiset(p);
    }
    forall i, j | 0 <= i < j < n ensures p[i] != p[j] {
      RangeMultiset(n, p[i]);
      assert p == p[..i] + [p[i]] + p[i + 1..j] + [p[j]] + p[j + 1..];
    }
  }

  lemma {:induction false} SetOfRange(s: set<nat>, n: nat)
    requires forall x :: x in s ==> x < n
    ensures |s| <= n
    ensures |s| == n ==> forall x: nat :: x < n ==> x in s
  {
    if n > 0 {
      SetOfRange(s - {n - 1}, n - 1);
    }
  }

  function Elems<T>(xs: seq<T>): set<T> {
    set x | x in xs
  }

  lemma {:induction false} SetOfDistinct<T>(p: seq<T>)
    requires forall i, j :: 0 <= i < j < |p| ==> p[i] != p[j]
    ensures |Elems(p)| == |p|
  {
    if p != [] {
      var n := |p| - 1;
      SetOfDistinct(p[..n]);
      assert p == p[..n] + [p[n]];
      assert Elems(p) == Elems(p[..n]) + {p[n]};
    }
  }

  lemma {:induction false} PermutationCovers(p: seq<nat>, n: nat, x: nat)
    requires IsPermutation(p, n) && x < n
    ensures x in p
  {
    var s := Elems(p);
    SetOfDistinct(p);
    SetOfRange(s, n);
    assert x in s;
  }

  // ---------------------------------------------------------------------------
  // Comparison sort
  // ---------------------------------------------------------------------------

  ghost predicate TotalPreorder<T(!new)>(le: (T, T) -> bool) {
    (forall a, b :: le(a, b) || le(b, a)) && (forall a, b, c :: le(a, b) && le(b, c) ==> le(a, c))
  }

  ghost predicate SortedBy<T>(xs: seq<T>, le: (T, T) -> bool) {
    forall i, j :: 0 <= i < j < |xs| ==> le(xs[i], xs[j])
  }

  function InsertBy<T>(x: T, xs: seq<T>, le: (T, T) -> bool): (r: seq<T>)
    ensures |r| == |xs| + 1
  {
    if xs == [] then [x]
    else if le(x, xs[0]) then [x] + xs
    else [xs[0]] + InsertBy(x, xs[1..], le)
  }

  /** Stable sort: an element stays before the later ones it ties with. */
  function SortBy<T>(xs: seq<T>, le: (T, T) -> bool): (r: seq<T>)
    ensures |r| == |xs|
  {
    if xs == [] then [] else InsertBy(xs[0], SortBy(xs[1..], le), le)
  }

  lemma {:induction false} InsertByCorrect<T(!new)>(x: T, xs: seq<T>, le: (T, T) -> bool)
    requires TotalPreorder(le) && SortedBy(xs, le)
    ensures multiset(InsertBy(x, xs, le)) == multiset(xs) + multiset{x}
    ensures SortedBy(InsertBy(x, xs, le), le)
  {
    if xs != [] && !le(x, xs[0]) {
      var r := InsertBy(x, xs[1..], le);
      InsertByCorrect(x, xs[1..], le);
      assert xs == [xs[0]] + xs[1..];
      forall i | 0 <= i < |r| ensures le(xs[0], r[i]) {
        assert r[i] in multiset(r);
        assert r[i] == x || r[i] in xs[1..];
      }
    } else if xs != [] {
      forall i | 0 <= i < |xs| ensures le(x, xs[i]) {
        assert i == 0 || le(xs[0], xs[i]);
      }
    }
  }

  lemma {:induction false} SortByCorrect<T(!new)>(xs: seq<T>, le: (T, T) -> bool)
    requires TotalPreorder(le)
    ensures multiset(SortBy(xs, le)) == multiset(xs)
    ensures SortedBy(SortBy(xs, le), le)
  {
    if xs != [] {
      SortByCorrect(xs[1..], le);
      InsertByCorrect(xs[0], SortBy(xs[1..], le), le);
      assert xs == [xs[0]] + xs[1..];
    }
  }

  lemma {:induction false} MultisetMembers<T>(xs: seq<T>, ys: seq<T>)
    requires multiset(xs) == multiset(ys)
    ensures |xs| == |ys| && forall x :: x in xs <==> x in ys
  {
    assert |multiset(xs)| == |xs| && |multiset(ys)| == |ys|;
    forall x ensures x in xs <==> x in ys {
      assert x in multiset(xs) <==> x in xs;
      assert x in multiset(ys) <==> x in ys;
    }
  }
}
