/** The record format of a page chain: length, origin, payload (Executor/py_guest/python/shm.py). */
module Records {
  import opened Bytes

  const MAX_PAYLOAD: nat := 67108864   // 64 MiB

  datatype Record = Record(origin: nat, payload: seq<Byte>)

  predicate IsRecord(r: Record) {
    r.origin < U32_LIMIT && |r.payload| <= MAX_PAYLOAD
  }

  function Encode(r: Record): (b: seq<Byte>)
    ensures |b| == 8 + |r.payload|
  {
    ToLE(|r.payload|, 4) + ToLE(r.origin, 4) + r.payload
  }

  function EncodeAll(rs: seq<Record>): seq<Byte> {
    if rs == [] then [] else Encode(rs[0]) + EncodeAll(rs[1..])
  }

  /** What a full read of the chain yields: whole records up to the first incomplete or oversized one. */
  function Decode(b: seq<Byte>): seq<Record> {
    if |b| < 4 || FromLE(b[..4]) > MAX_PAYLOAD || |b| < 8 + FromLE(b[..4]) then []
    else [Record(FromLE(b[4..8]), b[8..8 + FromLE(b[..4])])] + Decode(b[8 + FromLE(b[..4])..])
  }

  /** What a count-only walk yields: it skips payloads and has no size check. */
  function Count(b: seq<Byte>): nat {
    if |b| < 4 || |b| < 8 + FromLE(b[..4]) then 0 else 1 + Count(b[8 + FromLE(b[..4])..])
  }

  lemma {:induction false} EncodeAllAppend(rs: seq<Record>, r: Record)
    ensures EncodeAll(rs + [r]) == EncodeAll(rs) + Encode(r)
  {
    if rs == [] {
      assert [] + [r] == [r];
      assert [r][1..] == [];
    } else {
      assert (rs + [r])[1..] == rs[1..] + [r];
      EncodeAllAppend(rs[1..], r);
    }
  }

  /** The header fields of an encoded record, with anything behind it. */
  lemma {:induction false} Header(r: Record, rest: seq<Byte>)
    requires IsRecord(r)
    ensures var b := Encode(r) + rest;
            && FromLE(b[..4]) == |r.payload| && FromLE(b[4..8]) == r.origin
            && b[8..8 + |r.payload|] == r.payload && b[8 + |r.payload|..] == rest
  {
    Pow256Values();
    LERoundTrip(|r.payload|, 4);
    LERoundTrip(r.origin, 4);
    var b := Encode(r) + rest;
    assert b[..4] == ToLE(|r.payload|, 4);
    assert b[4..8] == ToLE(r.origin, 4);
  }

  lemma {:induction false} DecodeFirst(r: Record, rest: seq<Byte>)
    requires IsRecord(r)
    ensures Decode(Encode(r) + rest) == [r] + Decode(rest)
    ensures Count(Encode(r) + rest) == 1 + Count(rest)
  {
    Header(r, rest);
  }

  /** A record that was not completely written reads as nothing. */
  lemma {:induction false} DecodePartial(r: Record, k: nat)
    requires IsRecord(r) && k < |Encode(r)|
    ensures Decode(Encode(r)[..k]) == [] && Count(Encode(r)[..k]) == 0
  {
    if k >= 4 {
      Header(r, []);
      assert Encode(r) + [] == Encode(r);
      assert Encode(r)[..k][..4] == Encode(r)[..4];
    }
  }

  /** Reading and counting recover exactly the appended records, also behind a torn last record. */
  lemma {:induction false} RoundTrip(rs: seq<Record>, torn: seq<Byte>)
    requires forall r :: r in rs ==> IsRecord(r)
    requires Decode(torn) == [] && Count(torn) == 0
    ensures Decode(EncodeAll(rs) + torn) == rs && Count(EncodeAll(rs) + torn) == |rs|
  {
    if rs == [] {
      assert EncodeAll(rs) + torn == torn;
    } else {
      var rest := EncodeAll(rs[1..]) + torn;
      RoundTrip(rs[1..], torn);
      assert EncodeAll(rs) + torn == Encode(rs[0]) + rest;
      DecodeFirst(rs[0], rest);
    }
  }
}
