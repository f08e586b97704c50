/** Bytes and little-endian integers. */
module Bytes {
  type Byte = x: int | 0 <= x < 256 witness 0

  ghost function Pow256(n: nat): nat {
    if n == 0 then 1 else 256 * Pow256(n - 1)
  }

  /** The low n bytes of v, least significant first. */
  function ToLE(v: nat, n: nat): (r: seq<Byte>)
    ensures |r| == n
  {
    if n == 0 then [] else [v % 256] + ToLE(v / 256, n - 1)
  }

  function FromLE(b: seq<Byte>): nat {
    if b == [] then 0 else b[0] + 256 * FromLE(b[1..])
  }

  lemma {:induction false} LERoundTrip(v: nat, n: nat)
    requires v < Pow256(n)
    ensures FromLE(ToLE(v, n)) == v
  {
    if n > 0 {
      LERoundTrip(v / 256, n - 1);
      assert ToLE(v, n)[1..] == ToLE(v / 256, n - 1);
    }
  }

  lemma {:induction false} FromLEBound(b: seq<Byte>)
    ensures FromLE(b) < Pow256(|b|)
  {
    if b != [] { FromLEBound(b[1..]); }
  }

  const U32_LIMIT: nat := 0x1_0000_0000
  const U64_LIMIT: nat := 0x1_0000_0000_0000_0000

  lemma {:induction false} Pow256Values()
    ensures Pow256(4) == U32_LIMIT && Pow256(8) == U64_LIMIT
  {
    assert Pow256(2) == 65536;
    assert Pow256(4) == 256 * (256 * Pow256(2));
    assert Pow256(6) == 256 * (256 * Pow256(4));
    assert Pow256(8) == 256 * (256 * Pow256(6));
  }

  // ---------------------------------------------------------------------------
  // Ranges of a flat memory
  // ---------------------------------------------------------------------------

  function Get(mem: seq<Byte>, off: nat, n: nat): (r: seq<Byte>)
    requires off + n <= |mem|
    ensures |r| == n
  {
    mem[off..off + n]
  }

  function Put(mem: seq<Byte>, off: nat, b: seq<Byte>): (r: seq<Byte>)
    requires off + |b| <= |mem|
    ensures |r| == |mem|
  {
    mem[..off] + b + mem[off + |b|..]
  }

  lemma {:induction false} GetPutSame(mem: seq<Byte>, off: nat, b: seq<Byte>)
    requires off + |b| <= |mem|
    ensures Get(Put(mem, off, b), off, |b|) == b
  {
  }

  lemma {:induction false} GetGet(mem: seq<Byte>, off: nat, size: nat, at: nat, n: nat)
    requires off + size <= |mem| && at + n <= size
    ensures Get(Get(mem, off, size), at, n) == Get(mem, off + at, n)
  {
    var part := Get(mem, off, size);
    forall i | 0 <= i < n ensures Get(part, at, n)[i] == Get(mem, off + at, n)[i] {
      assert part[at + i] == mem[off + at + i];
    }
  }

  lemma {:induction false} GetPutOther(mem: seq<Byte>, off: nat, b: seq<Byte>, at: nat, n: nat)
    requires off + |b| <= |mem| && at + n <= |mem|
    requires at + n <= off || off + |b| <= at
    ensures Get(Put(mem, off, b), at, n) == Get(mem, at, n)
  {
  }

  /** A range that contains the written one changes just there. */
  lemma {:induction false} GetPutInside(mem: seq<Byte>, off: nat, b: seq<Byte>, at: nat, n: nat)
    requires at + n <= |mem| && at <= off && off + |b| <= at + n
    ensures Get(Put(mem, off, b), at, n) == Put(Get(mem, at, n), off - at, b)
  {
  }
}
