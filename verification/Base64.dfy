/** The base64 codec of the wire protocol (NodeAgent/agent/src/protocol.rs). */
module Base64 {
  import opened Prelude
  import opened Bytes

  type Sextet = x: int | 0 <= x < 64 witness 0

  // ---------------------------------------------------------------------------
  // Alphabet
  // ---------------------------------------------------------------------------

  const UPPER: string := "ABCDEFGHIJKLMNOPQRSTUVWXYZ"
  const LOWER: string := "abcdefghijklmnopqrstuvwxyz"
  const DIGITS: string := "0123456789"
  const TABLE: string := UPPER + LOWER + DIGITS + "+/"

  function Symbol(v: Sextet): char {
    if v < 26 then ('A' as int + v) as char
    else if v < 52 then ('a' as int + v - 26) as char
    else if v < 62 then ('0' as int + v - 52) as char
    else if v == 62 then '+'
    else '/'
  }

  function SextetOf(c: char): Option<Sextet> {
    if 'A' <= c <= 'Z' then Some(c as int - 'A' as int)
    else if 'a' <= c <= 'z' then Some(c as int - 'a' as int + 26)
    else if '0' <= c <= '9' then Some(c as int - '0' as int + 52)
    else if c == '+' then Some(62)
    else if c == '/' then Some(63)
    else None
  }

  /** Symbols decode to their index, and none is the padding character. */
  lemma {:induction false} SymbolRoundTrip(v: Sextet)
    ensures SextetOf(Symbol(v)) == Some(v) && Symbol(v) != '='
  {
  }

  lemma {:induction false} UpperAt(v: nat)
    requires v < 26
    ensures UPPER[v] as int == 'A' as int + v
  {
    assert v in {0, 1, 2, 3, 4, 5, 6, 7, 8, 9, 10, 11, 12} || v in {13, 14, 15, 16, 17, 18, 19, 20, 21, 22, 23, 24, 25};
  }

  lemma {:induction false} LowerAt(v: nat)
    requires v < 26
    ensures LOWER[v] as int == 'a' as int + v
  {
    assert v in {0, 1, 2, 3, 4, 5, 6, 7, 8, 9, 10, 11, 12} || v in {13, 14, 15, 16, 17, 18, 19, 20, 21, 22, 23, 24, 25};
  }

  lemma {:induction false} DigitAt(v: nat)
    requires v < 10
    ensures DIGITS[v] as int == '0' as int + v
  {
    assert v in {0, 1, 2, 3, 4, 5, 6, 7, 8, 9};
  }

  /** The encoder's table lists the symbols in order. */
  method TableEntry(v: Sextet) returns (c: char)
    ensures c == Symbol(v)
  {
    if v < 26 { UpperAt(v); } else if v < 52 { LowerAt(v - 26); } else if v < 62 { DigitAt(v - 52); }
    c := TABLE[v];
  }

  // ---------------------------------------------------------------------------
  // Bits
  // ---------------------------------------------------------------------------

  /** The sextets of a group of one to three bytes: one more than it has bytes. */
  function GroupSextets(g: seq<Byte>): (r: seq<Sextet>)
    requires 1 <= |g| <= 3
    ensures |r| == |g| + 1
  {
    var y: int := if |g| > 1 then g[1] else 0;
    var z: int := if |g| > 2 then g[2] else 0;
    var n: int := g[0] * 65536 + y * 256 + z;
    [n / 262144 % 64, n / 4096 % 64] + (if |g| > 1 then [n / 64 % 64] else []) + (if |g| > 2 then [n % 64] else [])
  }

  function Sextets(data: seq<Byte>): seq<Sextet> {
    if data == [] then []
    else if |data| <= 3 then GroupSextets(data)
    else GroupSextets(data[..3]) + Sextets(data[3..])
  }

  /** The decoder's accumulator: `buf` holds `bits` pending bits. */
  datatype Acc = Acc(out: seq<Byte>, buf: nat, bits: nat)

  function Pow2(n: nat): nat { if n == 0 then 1 else 2 * Pow2(n - 1) }

  lemma {:induction false} PowValues()
    ensures Pow2(0) == 1 && Pow2(2) == 4 && Pow2(4) == 16 && Pow2(6) == 64
  {
  }

  /** Fewer than a byte is pending, and the accumulator is below 2^bits. */
  predicate Small(a: Acc) {
    (a.bits == 0 || a.bits == 2 || a.bits == 4 || a.bits == 6) && a.buf < Pow2(a.bits)
  }

  /** Takes in one sextet and emits a byte once eight bits are pending. */
  function Push(a: Acc, v: Sextet): (r: Acc)
    requires Small(a)
    ensures Small(r)
  {
    PowValues();
    var buf, bits := a.buf * 64 + v, a.bits + 6;
    if bits >= 8 then Acc(a.out + [buf / Pow2(bits - 8) % 256], buf % Pow2(bits - 8), bits - 8)
    else Acc(a.out, buf, bits)
  }

  function Feed(a: Acc, vs: seq<Sextet>): (r: Acc)
    requires Small(a)
    ensures Small(r)
    decreases |vs|
  {
    if vs == [] then a else Feed(Push(a, vs[0]), vs[1..])
  }

  lemma {:induction false} FeedConcat(a: Acc, vs: seq<Sextet>, ws: seq<Sextet>)
    requires Small(a)
    ensures Feed(a, vs + ws) == Feed(Feed(a, vs), ws)
    decreases |vs|
  {
    if vs == [] {
      assert vs + ws == ws;
    } else {
      assert (vs + ws)[1..] == vs[1..] + ws;
      FeedConcat(Push(a, vs[0]), vs[1..], ws);
    }
  }

  /** Base-64 digits of a number given by its digits. */
  lemma {:induction false} Digits(a: nat, b: nat, c: nat, d: nat)
    requires a < 64 && b < 64 && c < 64 && d < 64
    ensures var n := a * 262144 + b * 4096 + c * 64 + d;
            n / 262144 % 64 == a && n / 4096 % 64 == b && n / 64 % 64 == c && n % 64 == d
  {
    var n := a * 262144 + b * 4096 + c * 64 + d;
    assert n / 262144 == a;
    assert n / 4096 == a * 64 + b;
    assert n / 64 == (a * 64 + b) * 64 + c;
  }

  /** The bits of the four sextets of a group. */
  lemma {:induction false} GroupBits(x: Byte, y: Byte, z: Byte)
    ensures var n := x * 65536 + y * 256 + z;
            && n / 262144 % 64 == x / 4 && n / 4096 % 64 == x % 4 * 16 + y / 16
            && n / 64 % 64 == y % 16 * 4 + z / 64 && n % 64 == z % 64
  {
    var n := x * 65536 + y * 256 + z;
    var a, b, c, d := x / 4, x % 4 * 16 + y / 16, y % 16 * 4 + z / 64, z % 64;
    assert x == 4 * (x / 4) + x % 4 && y == 16 * (y / 16) + y % 16 && z == 64 * (z / 64) + z % 64;
    assert n == a * 262144 + b * 4096 + c * 64 + d;
    Digits(a, b, c, d);
  }

  lemma {:induction false} EmptyAcc(out: seq<Byte>)
    ensures Small(Acc(out, 0, 0))
  {
    PowValues();
  }

  lemma {:induction false} FeedOne(out: seq<Byte>, x: Byte, low: nat)
    requires low < 16
    ensures Small(Acc(out, 0, 0))
    ensures Feed(Acc(out, 0, 0), [x / 4, x % 4 * 16 + low]) == Acc(out + [x], low, 4)
  {
    PowValues();
    var a := Acc(out, 0, 0);
    assert Push(a, x / 4) == Acc(out, x / 4, 6);
    var v := x % 4 * 16 + low;
    assert Push(Push(a, x / 4), v) == Acc(out + [x], low, 4);
    var vs: seq<Sextet> := [x / 4, v];
    assert vs[1..] == [v];
    var ws: seq<Sextet> := [v];
    assert ws[1..] == [];
    assert Feed(Push(a, x / 4), ws) == Push(Push(a, x / 4), v);
  }

  lemma {:induction false} FeedMore(out: seq<Byte>, y: Byte, low: nat)
    requires low < 4
    ensures Small(Acc(out, y / 16, 4))
    ensures Feed(Acc(out, y / 16, 4), [y % 16 * 4 + low]) == Acc(out + [y], low, 2)
  {
    PowValues();
    assert [y % 16 * 4 + low][1..] == [];
  }

  lemma {:induction false} FeedLast(out: seq<Byte>, z: Byte)
    ensures Small(Acc(out, z / 64, 2))
    ensures Feed(Acc(out, z / 64, 2), [z % 64]) == Acc(out + [z], 0, 0)
  {
    PowValues();
    assert [z % 64][1..] == [];
  }

  lemma {:induction false} FeedTwo(out: seq<Byte>, x: Byte, y: Byte, low: nat)
    requires low < 4
    ensures Small(Acc(out, 0, 0))
    ensures Feed(Acc(out, 0, 0), [x / 4, x % 4 * 16 + y / 16, y % 16 * 4 + low]) == Acc(out + [x, y], low, 2)
  {
    var first: seq<Sextet>, second: seq<Sextet> := [x / 4, x % 4 * 16 + y / 16], [y % 16 * 4 + low];
    FeedOne(out, x, y / 16);
    FeedMore(out + [x], y, low);
    FeedConcat(Acc(out, 0, 0), first, second);
    assert first + second == [x / 4, x % 4 * 16 + y / 16, y % 16 * 4 + low];
    assert out + [x] + [y] == out + [x, y];
  }

  lemma {:induction false} FeedThree(out: seq<Byte>, x: Byte, y: Byte, z: Byte)
    ensures Small(Acc(out, 0, 0))
    ensures Feed(Acc(out, 0, 0), [x / 4, x % 4 * 16 + y / 16, y % 16 * 4 + z / 64, z % 64])
         == Acc(out + [x, y, z], 0, 0)
  {
    var first: seq<Sextet>, last: seq<Sextet> := [x / 4, x % 4 * 16 + y / 16, y % 16 * 4 + z / 64], [z % 64];
    FeedTwo(out, x, y, z / 64);
    FeedLast(out + [x, y], z);
    FeedConcat(Acc(out, 0, 0), first, last);
    assert first + last == [x / 4, x % 4 * 16 + y / 16, y % 16 * 4 + z / 64, z % 64];
    assert out + [x, y] + [z] == out + [x, y, z];
  }

  lemma {:induction false} GroupIs(g: seq<Byte>)
    requires 1 <= |g| <= 3
    ensures |g| == 1 ==> GroupSextets(g) == [g[0] / 4, g[0] % 4 * 16]
    ensures |g| == 2 ==> GroupSextets(g) == [g[0] / 4, g[0] % 4 * 16 + g[1] / 16, g[1] % 16 * 4]
    ensures |g| == 3 ==> GroupSextets(g) == [g[0] / 4, g[0] % 4 * 16 + g[1] / 16, g[1] % 16 * 4 + g[2] / 64, g[2] % 64]
  {
    GroupBits(g[0], if |g| > 1 then g[1] else 0, if |g| > 2 then g[2] else 0);
  }

  /** A group feeds back to its bytes; a full one leaves no pending bits. */
  lemma {:induction false} FeedGroup(out: seq<Byte>, g: seq<Byte>)
    requires 1 <= |g| <= 3
    ensures Small(Acc(out, 0, 0))
    ensures Feed(Acc(out, 0, 0), GroupSextets(g)).out == out + g
    ensures |g| == 3 ==> Feed(Acc(out, 0, 0), GroupSextets(g)) == Acc(out + g, 0, 0)
  {
    EmptyAcc(out);
    GroupIs(g);
    if |g| == 1 {
      FeedOne(out, g[0], 0);
      assert g == [g[0]];
    } else if |g| == 2 {
      FeedTwo(out, g[0], g[1], 0);
      assert g == [g[0], g[1]];
    } else {
      FeedThree(out, g[0], g[1], g[2]);
      assert g == [g[0], g[1], g[2]];
    }
  }

  lemma {:induction false} FeedSextets(out: seq<Byte>, data: seq<Byte>)
    ensures Small(Acc(out, 0, 0))
    ensures Feed(Acc(out, 0, 0), Sextets(data)).out == out + data
    decreases |data|
  {
    EmptyAcc(out);
    if data == [] {
      assert out + data == out;
    } else if |data| <= 3 {
      FeedGroup(out, data);
    } else {
      var g, rest := data[..3], data[3..];
      FeedGroup(out, g);
      FeedConcat(Acc(out, 0, 0), GroupSextets(g), Sextets(rest));
      FeedSextets(out + g, rest);
      assert out + g + rest == out + data;
    }
  }

  // ---------------------------------------------------------------------------
  // Text
  // ---------------------------------------------------------------------------

  function Symbols(vs: seq<Sextet>): (r: string)
    ensures |r| == |vs|
  {
    if vs == [] then [] else [Symbol(vs[0])] + Symbols(vs[1..])
  }

  /** The sextets of a text; nothing when some character is not in the alphabet. */
  function ParseSymbols(s: string): Option<seq<Sextet>> {
    if s == [] then Some([])
    else
      match (SextetOf(s[0]), ParseSymbols(s[1..]))
      case (Some(v), Some(vs)) => Some([v] + vs)
      case _ => None
  }

  function Pads(n: nat): (r: string)
    ensures |r| == n && forall c :: c in r ==> c == '='
  {
    if n == 0 then [] else Pads(n - 1) + ['=']
  }

  function PaddingOf(n: nat): nat { (3 - n % 3) % 3 }

  function Encode(data: seq<Byte>): string {
    Symbols(Sextets(data)) + Pads(PaddingOf(|data|))
  }

  function DropPadding(s: string): string {
    if s != [] && s[|s| - 1] == '=' then DropPadding(s[..|s| - 1]) else s
  }

  function Decode(s: string): Option<seq<Byte>> {
    match ParseSymbols(DropPadding(s))
    case None => None
    case Some(vs) =>
      EmptyAcc([]);
      Some(Feed(Acc([], 0, 0), vs).out)
  }

  lemma {:induction false} SymbolsAt(vs: seq<Sextet>, i: nat)
    requires i < |vs|
    ensures Symbols(vs)[i] == Symbol(vs[i])
  {
    if i > 0 { SymbolsAt(vs[1..], i - 1); }
  }

  lemma {:induction false} ParseSymbolsBack(vs: seq<Sextet>)
    ensures ParseSymbols(Symbols(vs)) == Some(vs)
  {
    if vs != [] {
      ParseSymbolsBack(vs[1..]);
      SymbolRoundTrip(vs[0]);
      assert Symbols(vs)[1..] == Symbols(vs[1..]);
      assert [vs[0]] + vs[1..] == vs;
    }
  }

  lemma {:induction false} DropPads(vs: seq<Sextet>, n: nat)
    ensures DropPadding(Symbols(vs) + Pads(n)) == Symbols(vs)
  {
    var s := Symbols(vs) + Pads(n);
    if n > 0 {
      assert s[..|s| - 1] == Symbols(vs) + Pads(n - 1);
      DropPads(vs, n - 1);
    } else if vs != [] {
      SymbolsAt(vs, |vs| - 1);
      SymbolRoundTrip(vs[|vs| - 1]);
      assert s == Symbols(vs);
    }
  }

  /** Decoding an encoding gives the bytes back. */
  lemma {:induction false} RoundTrip(data: seq<Byte>)
    ensures Decode(Encode(data)) == Some(data)
  {
    var vs := Sextets(data);
    DropPads(vs, PaddingOf(|data|));
    ParseSymbolsBack(vs);
    FeedSextets([], data);
    assert [] + data == data;
  }

  // ---------------------------------------------------------------------------
  // Shape of the text (section 4 of RFC 4648)
  // ---------------------------------------------------------------------------

  /** Four characters per started group: alphabet symbols first, then the padding. */
  ghost predicate WellFormed(s: string, n: nat) {
    && |s| == (n + 2) / 3 * 4
    && PaddingOf(n) <= |s|
    && (forall i :: 0 <= i < |s| - PaddingOf(n) ==> SextetOf(s[i]).Some?)
    && (forall i :: |s| - PaddingOf(n) <= i < |s| ==> s[i] == '=')
  }

  lemma {:induction false} SextetCount(data: seq<Byte>)
    ensures |Sextets(data)| + PaddingOf(|data|) == (|data| + 2) / 3 * 4
  {
    if |data| > 3 {
      SextetCount(data[3..]);
      PaddingStep(|data|);
      assert (|data| + 2) / 3 == (|data| - 3 + 2) / 3 + 1;
    }
  }

  lemma {:induction false} EncodedWellFormed(data: seq<Byte>)
    ensures WellFormed(Encode(data), |data|)
  {
    var vs, s, p := Sextets(data), Encode(data), PaddingOf(|data|);
    SextetCount(data);
    forall i | 0 <= i < |vs| ensures SextetOf(s[i]).Some? {
      SymbolsAt(vs, i);
      SymbolRoundTrip(vs[i]);
    }
    forall i | |vs| <= i < |s| ensures s[i] == '=' {
      assert s[i] == Pads(p)[i - |vs|] && s[i] in Pads(p);
    }
  }

  // ---------------------------------------------------------------------------
  // The codec as it runs
  // ---------------------------------------------------------------------------

  lemma {:induction false} SymbolsConcat(vs: seq<Sextet>, ws: seq<Sextet>)
    ensures Symbols(vs + ws) == Symbols(vs) + Symbols(ws)
  {
    if vs == [] {
      assert vs + ws == ws;
    } else {
      assert (vs + ws)[1..] == vs[1..] + ws;
      SymbolsConcat(vs[1..], ws);
    }
  }

  lemma {:induction false} SextetsStep(data: seq<Byte>)
    requires |data| > 3
    ensures Sextets(data) == Sextets(data[..3]) + Sextets(data[3..])
  {
  }

  lemma {:induction false} PaddingStep(n: nat)
    requires n >= 3
    ensures PaddingOf(n - 3) == PaddingOf(n) && PaddingOf(3) == 0
  {
  }

  /** Cutting a full group off the front. */
  lemma {:induction false} EncodeStep(data: seq<Byte>)
    requires |data| > 3
    ensures Encode(data) == Encode(data[..3]) + Encode(data[3..])
  {
    var vs, ws := Sextets(data[..3]), Sextets(data[3..]);
    SextetsStep(data);
    SymbolsConcat(vs, ws);
    PaddingStep(|data|);
    var p := Pads(PaddingOf(|data|));
    assert Encode(data[..3]) == Symbols(vs) + [];
    assert Symbols(vs) + Symbols(ws) + p == Symbols(vs) + (Symbols(ws) + p);
  }

  lemma {:induction false} SymbolsOf(vs: seq<Sextet>)
    ensures |vs| == 2 ==> Symbols(vs) == [Symbol(vs[0]), Symbol(vs[1])]
    ensures |vs| == 3 ==> Symbols(vs) == [Symbol(vs[0]), Symbol(vs[1]), Symbol(vs[2])]
    ensures |vs| == 4 ==> Symbols(vs) == [Symbol(vs[0]), Symbol(vs[1]), Symbol(vs[2]), Symbol(vs[3])]
  {
    forall i | 0 <= i < |vs| ensures Symbols(vs)[i] == Symbol(vs[i]) { SymbolsAt(vs, i); }
  }

  lemma {:induction false} PadsOf()
    ensures Pads(0) == [] && Pads(1) == "=" && Pads(2) == "=="
  {
    assert Pads(1) == Pads(0) + ['='];
    assert Pads(2) == Pads(1) + ['='];
  }

  /** One group of one to three bytes: four characters. */
  method EncodeGroup(g: seq<Byte>) returns (out: string)
    requires 1 <= |g| <= 3
    ensures out == Encode(g)
  {
    var b1: Byte := if |g| > 1 then g[1] else 0;
    var b2: Byte := if |g| > 2 then g[2] else 0;
    var n := g[0] * 65536 + b1 * 256 + b2;
    var c0 := TableEntry(n / 262144 % 64);
    var c1 := TableEntry(n / 4096 % 64);
    out := [c0, c1];
    if |g| > 1 { var c2 := TableEntry(n / 64 % 64); out := out + [c2]; } else { out := out + ['=']; }
    if |g| > 2 { var c3 := TableEntry(n % 64); out := out + [c3]; } else { out := out + ['=']; }
    SymbolsOf(GroupSextets(g));
    PadsOf();
  }

  method EncodeBytes(data: seq<Byte>) returns (out: string)
    ensures out == Encode(data)
  {
    out := [];
    var rest := data;
    while rest != []
      invariant out + Encode(rest) == Encode(data)
      decreases |rest|
    {
      var n := if |rest| < 3 then |rest| else 3;
      var group := EncodeGroup(rest[..n]);
      EncodeCut(rest, n);
      out := out + group;
      rest := rest[n..];
    }
    EncodeNothing();
  }

  lemma {:induction false} EncodeNothing()
    ensures Encode([]) == []
  {
    PadsOf();
  }

  lemma {:induction false} EncodeCut(rest: seq<Byte>, n: nat)
    requires rest != [] && n == if |rest| < 3 then |rest| else 3
    ensures Encode(rest) == Encode(rest[..n]) + Encode(rest[n..])
  {
    if |rest| > 3 {
      EncodeStep(rest);
    } else {
      assert rest[..n] == rest && rest[n..] == [];
      EncodeNothing();
    }
  }

  /** What is left to decode, given the bits taken in so far. */
  function Remaining(s: string, a: Acc): Option<seq<Byte>>
    requires Small(a)
  {
    match ParseSymbols(s)
    case None => None
    case Some(vs) => Some(Feed(a, vs).out)
  }

  lemma {:induction false} RemainingStep(s: string, a: Acc)
    requires Small(a) && s != []
    ensures SextetOf(s[0]).None? ==> Remaining(s, a) == None
    ensures SextetOf(s[0]).Some? ==> Remaining(s, a) == Remaining(s[1..], Push(a, SextetOf(s[0]).value))
  {
    var v, vs := SextetOf(s[0]), ParseSymbols(s[1..]);
    if v.Some? && vs.Some? { assert ([v.value] + vs.value)[1..] == vs.value; }
  }

  /** Shifts one sextet into the accumulator. */
  method Shift(out: seq<Byte>, buf: nat, bits: nat, v: Sextet) returns (out': seq<Byte>, buf': nat, bits': nat)
    requires Small(Acc(out, buf, bits))
    ensures Small(Acc(out', buf', bits')) && Acc(out', buf', bits') == Push(Acc(out, buf, bits), v)
  {
    out', buf', bits' := out, buf * 64 + v, bits + 6;
    PowValues();
    if bits' >= 8 {
      bits' := bits' - 8;
      out' := out' + [buf' / Pow2(bits') % 256];
      buf' := buf' % Pow2(bits');
    }
  }

  method DecodeText(text: string) returns (r: Option<seq<Byte>>)
    ensures r == Decode(text)
  {
    var s := DropPadding(text);
    var out: seq<Byte>, buf: nat, bits: nat := [], 0, 0;
    EmptyAcc([]);
    ghost var goal := Remaining(s, Acc([], 0, 0));
    assert s[0..] == s;
    for i := 0 to |s|
      invariant Small(Acc(out, buf, bits)) && goal == Remaining(s[i..], Acc(out, buf, bits))
    {
      RemainingStep(s[i..], Acc(out, buf, bits));
      assert s[i..][1..] == s[i + 1..];
      var v := SextetOf(s[i]);
      if v.None? { return None; }
      out, buf, bits := Shift(out, buf, bits, v.value);
    }
    r := Some(out);
  }
}
