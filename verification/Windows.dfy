/** Line-aligned byte windows for fractional slices (NodeAgent/agent/src/coordinator.rs). */
module Windows {
  import opened Sequences
  import opened Bytes

  const NEWLINE: Byte := 10

  function Clamp(f: real): real {
    if f < 0.0 then 0.0 else if f > 1.0 then 1.0 else f
  }

  /** floor(f * total) for a clamped fraction. */
  function ByteOffset(f: real, total: nat): (r: nat)
    ensures r <= total
  {
    ClampedProduct(Clamp(f), total);
    (Clamp(f) * total as real).Floor
  }

  lemma {:induction false} ClampedProduct(f: real, total: nat)
    requires 0.0 <= f <= 1.0
    ensures 0.0 <= f * total as real <= total as real
  {
  }

  /** Index of the first newline at or after p, or the length. */
  function FindNewline(data: seq<Byte>, p: nat): (r: nat)
    requires p <= |data|
    ensures p <= r <= |data|
    ensures r < |data| ==> data[r] == NEWLINE
    ensures forall i :: p <= i < r ==> data[i] != NEWLINE
    decreases |data| - p
  {
    if p == |data| || data[p] == NEWLINE then p else FindNewline(data, p + 1)
  }

  function NextLineStart(data: seq<Byte>, p: nat): (r: nat)
    ensures r <= |data|
  {
    if p == 0 then 0
    else if p >= |data| then |data|
    else
      var q := FindNewline(data, p);
      if q < |data| then q + 1 else |data|
  }

  /** The byte window of the fraction [lo, hi); (0, 0) when it is empty. */
  function LineAlignedWindow(data: seq<Byte>, lo: real, hi: real): (r: (nat, nat))
    ensures r.0 <= r.1 <= |data|
  {
    if |data| == 0 then (0, 0)
    else
      var rs, re := ByteOffset(lo, |data|), ByteOffset(hi, |data|);
      var start := NextLineStart(data, rs);
      var end := if re >= |data| then |data| else NextLineStart(data, re);
      if start >= end then (0, 0) else (start, end)
  }

  /** Where a fraction's cut falls once moved to a line start. */
  function Boundary(data: seq<Byte>, f: real): nat {
    NextLineStart(data, ByteOffset(f, |data|))
  }

  lemma {:induction false} WindowIsBetweenBoundaries(data: seq<Byte>, lo: real, hi: real)
    ensures var w := LineAlignedWindow(data, lo, hi);
            w == (Boundary(data, lo), Boundary(data, hi))
            || (w == (0, 0) && Boundary(data, lo) >= Boundary(data, hi))
  {
  }

  /** A line begins at p: the file start, the file end, or right after a newline. */
  ghost predicate IsLineStart(data: seq<Byte>, p: nat) {
    p <= |data| && (p == 0 || p == |data| || data[p - 1] == NEWLINE)
  }

  lemma {:induction false} BoundaryIsLineStart(data: seq<Byte>, f: real)
    ensures IsLineStart(data, Boundary(data, f))
  {
  }

  lemma {:induction false} NextLineMonotone(data: seq<Byte>, p: nat, q: nat)
    requires p <= q
    ensures NextLineStart(data, p) <= NextLineStart(data, q)
  {
    if 0 < p && q < |data| {
      var a, b := FindNewline(data, p), FindNewline(data, q);
      assert a <= b || q <= a;
    }
  }

  lemma {:induction false} ProductMonotone(a: real, b: real, n: real)
    requires a <= b && n >= 0.0
    ensures (a * n).Floor <= (b * n).Floor
  {
    assert a * n <= b * n;
  }

  lemma {:induction false} BoundaryMonotone(data: seq<Byte>, f: real, g: real)
    requires f <= g
    ensures Boundary(data, f) <= Boundary(data, g)
  {
    ProductMonotone(Clamp(f), Clamp(g), |data| as real);
    NextLineMonotone(data, ByteOffset(f, |data|), ByteOffset(g, |data|));
  }

  // ---------------------------------------------------------------------------
  // Tiling
  // ---------------------------------------------------------------------------

  /** Consecutive slices share endpoints and run from 0 to 1. */
  ghost predicate SlicesTile(slices: seq<(real, real)>) {
    && slices != [] && slices[0].0 == 0.0 && slices[|slices| - 1].1 == 1.0
    && (forall i :: 0 <= i < |slices| ==> slices[i].0 <= slices[i].1)
    && forall i, j :: 0 <= i && j == i + 1 && j < |slices| ==> slices[i].1 == slices[j].0
  }

  /** One line of the file, its newline included. */
  ghost predicate IsLine(data: seq<Byte>, s: nat, e: nat) {
    && s < e <= |data| && IsLineStart(data, s)
    && (forall i :: s <= i < e - 1 ==> data[i] != NEWLINE)
    && (e == |data| || data[e - 1] == NEWLINE)
  }

  function Window(data: seq<Byte>, slice: (real, real)): (nat, nat) {
    LineAlignedWindow(data, slice.0, slice.1)
  }

  function Piece(data: seq<Byte>, slice: (real, real)): seq<Byte> {
    var w := Window(data, slice);
    assert w.0 <= w.1 <= |data|;
    data[w.0..w.1]
  }

  lemma {:induction false} BoundaryEnds(data: seq<Byte>)
    ensures Boundary(data, 0.0) == 0 && Boundary(data, 1.0) == |data|
  {
    assert Clamp(1.0) * |data| as real == |data| as real;
    assert (|data| as real).Floor == |data|;
  }

  lemma {:induction false} PieceIs(data: seq<Byte>, slice: (real, real))
    requires slice.0 <= slice.1
    ensures Boundary(data, slice.0) <= Boundary(data, slice.1) <= |data|
    ensures Piece(data, slice) == data[Boundary(data, slice.0)..Boundary(data, slice.1)]
  {
    BoundaryMonotone(data, slice.0, slice.1);
    WindowIsBetweenBoundaries(data, slice.0, slice.1);
  }

  lemma {:induction false} PrefixTiles(data: seq<Byte>, slices: seq<(real, real)>, k: nat)
    requires SlicesTile(slices) && 1 <= k <= |slices|
    ensures Boundary(data, slices[k - 1].1) <= |data|
    ensures FlatMap(slices[..k], (s: (real, real)) => Piece(data, s)) == data[..Boundary(data, slices[k - 1].1)]
  {
    var f := (s: (real, real)) => Piece(data, s);
    var b := Boundary(data, slices[k - 1].1);
    PieceIs(data, slices[k - 1]);
    FlatMapStep(slices, f, k - 1);
    if k == 1 {
      BoundaryEnds(data);
      assert FlatMap(slices[..0], f) == [];
    } else {
      PrefixTiles(data, slices, k - 1);
      var a := Boundary(data, slices[k - 1].0);
      assert slices[k - 2].1 == slices[k - 1].0;
      assert data[..a] + data[a..b] == data[..b];
    }
  }

  /** The windows of tiling slices, in order, concatenate to the file. */
  lemma {:induction false} WindowsConcatenate(data: seq<Byte>, slices: seq<(real, real)>)
    requires SlicesTile(slices)
    ensures FlatMap(slices, (s: (real, real)) => Piece(data, s)) == data
  {
    PrefixTiles(data, slices, |slices|);
    BoundaryEnds(data);
    assert slices[..|slices|] == slices;
    assert data[..|data|] == data;
  }

  /** A line is whole in one window and absent from the others. */
  ghost predicate OwnsLine(data: seq<Byte>, slice: (real, real), s: nat, e: nat) {
    Window(data, slice).0 <= s && e <= Window(data, slice).1
  }

  ghost predicate MissesLine(data: seq<Byte>, slice: (real, real), s: nat, e: nat) {
    Window(data, slice).1 <= s || e <= Window(data, slice).0
  }

  lemma {:induction false} FindOwner(data: seq<Byte>, slices: seq<(real, real)>, s: nat, k: nat) returns (m: nat)
    requires SlicesTile(slices) && 1 <= k <= |slices| && s < Boundary(data, slices[k - 1].1)
    ensures m < k && Boundary(data, slices[m].0) <= s < Boundary(data, slices[m].1)
  {
    BoundaryEnds(data);
    if k == 1 || Boundary(data, slices[k - 1].0) <= s {
      m := k - 1;
    } else {
      assert slices[k - 2].1 == slices[k - 1].0;
      m := FindOwner(data, slices, s, k - 1);
    }
  }

  lemma {:induction false} SliceOrder(slices: seq<(real, real)>, i: nat, j: nat)
    requires SlicesTile(slices) && i < j < |slices|
    ensures slices[i].1 <= slices[j].0
    decreases j
  {
    assert slices[j - 1].1 == slices[j].0;
    if i < j - 1 { SliceOrder(slices, i, j - 1); }
  }

  /** No line start falls strictly inside a line. */
  lemma {:induction false} LineUnbroken(data: seq<Byte>, s: nat, e: nat, b: nat)
    requires IsLine(data, s, e) && IsLineStart(data, b)
    ensures b <= s || e <= b
  {
    if s < b {
      var last := data[b - 1];
    }
  }

  lemma {:induction false} OtherMisses(data: seq<Byte>, slices: seq<(real, real)>, s: nat, e: nat, m: nat, k: nat)
    requires SlicesTile(slices) && m < |slices| && k < |slices| && k != m && s < e
    requires Boundary(data, slices[m].0) <= s && e <= Boundary(data, slices[m].1)
    ensures MissesLine(data, slices[k], s, e)
  {
    PieceIs(data, slices[k]);
    WindowIsBetweenBoundaries(data, slices[k].0, slices[k].1);
    if k < m {
      SliceOrder(slices, k, m);
      BoundaryMonotone(data, slices[k].1, slices[m].0);
    } else {
      SliceOrder(slices, m, k);
      BoundaryMonotone(data, slices[m].1, slices[k].0);
    }
  }

  /** Every line lies whole in exactly one machine's window. */
  lemma {:induction false} EveryLineOnce(data: seq<Byte>, slices: seq<(real, real)>, s: nat, e: nat) returns (m: nat)
    requires SlicesTile(slices) && IsLine(data, s, e)
    ensures m < |slices| && OwnsLine(data, slices[m], s, e)
    ensures forall k :: 0 <= k < |slices| && k != m ==> MissesLine(data, slices[k], s, e)
  {
    BoundaryEnds(data);
    m := FindOwner(data, slices, s, |slices|);
    BoundaryIsLineStart(data, slices[m].1);
    LineUnbroken(data, s, e, Boundary(data, slices[m].1));
    WindowIsBetweenBoundaries(data, slices[m].0, slices[m].1);
    forall k | 0 <= k < |slices| && k != m ensures MissesLine(data, slices[k], s, e) {
      OtherMisses(data, slices, s, e, m, k);
    }
  }
}
