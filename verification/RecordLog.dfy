/** Histories of appends: what each slot reads as after any sequence of them. */
module RecordLog {
  import opened Prelude
  import opened Sequences
  import opened Bytes
  import opened Memory
  import opened Records
  import opened Chains
  import opened PageHeap

  datatype Op = Op(slot: Slot, record: Record)

  /** The records that ops append to slot s, in order. */
  function OfSlot(ops: seq<Op>, s: Slot): seq<Record> {
    if ops == [] then []
    else
      var last := ops[|ops| - 1];
      OfSlot(ops[..|ops| - 1], s) + (if last.slot == s then [last.record] else [])
  }

  predicate WellFormed(ops: seq<Op>) {
    forall op <- ops :: IsSlot(op.slot) && IsRecord(op.record)
  }

  lemma {:induction false} OfSlotRecords(ops: seq<Op>, s: Slot)
    requires WellFormed(ops)
    ensures forall r :: r in OfSlot(ops, s) ==> IsRecord(r)
  {
    if ops != [] { OfSlotRecords(ops[..|ops| - 1], s); }
  }

  /** Every slot stores exactly the encoding of its own records. */
  ghost predicate Logged(h: Heap, cs: Chains, ops: seq<Op>) {
    forall u :: Key(LogLock, u) ==> AllLogged(h, cs, ops)
  }

  ghost predicate AllLogged(h: Heap, cs: Chains, ops: seq<Op>) {
    forall s :: s in cs ==> Contents(h, cs[s]) == EncodeAll(OfSlot(ops, s))
  }

  lemma {:induction false} LoggedStep(h: Heap, cs: Chains, k: Heap, ds: Chains, ops: seq<Op>, op: Op)
    requires Logged(h, cs, ops) && Gained(h, cs, k, ds, op.slot, Encode(op.record))
    ensures Logged(k, ds, ops + [op])
  {
    assert Key(LogLock, 0);
    assert (ops + [op])[..|ops|] == ops;
    forall s | s in ds ensures Contents(k, ds[s]) == EncodeAll(OfSlot(ops + [op], s)) {
      if s == op.slot {
        EncodeAllAppend(OfSlot(ops, s), op.record);
      } else {
        assert OfSlot(ops, s) + [] == OfSlot(ops, s);
      }
    }
  }

  /** Reading and counting slot s return its own records, whole, in order. */
  ghost predicate Readable(h: Heap, cs: Chains, ops: seq<Op>) {
    forall u :: Key(LogLock, u) ==> AllReadable(h, cs, ops)
  }

  ghost predicate AllReadable(h: Heap, cs: Chains, ops: seq<Op>) {
    forall s :: s in cs ==> && Decode(Contents(h, cs[s])) == OfSlot(ops, s)
                            && Count(Contents(h, cs[s])) == |OfSlot(ops, s)|
  }

  lemma {:induction false} ReadableLog(h: Heap, cs: Chains, ops: seq<Op>)
    requires Logged(h, cs, ops) && WellFormed(ops)
    ensures Readable(h, cs, ops)
  {
    assert Key(LogLock, 0);
    forall s | s in cs
      ensures Decode(Contents(h, cs[s])) == OfSlot(ops, s) && Count(Contents(h, cs[s])) == |OfSlot(ops, s)|
    {
      OfSlotRecords(ops, s);
      RoundTrip(OfSlot(ops, s), []);
      assert EncodeAll(OfSlot(ops, s)) + [] == EncodeAll(OfSlot(ops, s));
    }
  }

  /** An append that ran out of memory half way shows up nowhere. */
  lemma {:induction false} ReadableTorn(h: Heap, cs: Chains, k: Heap, ds: Chains, ops: seq<Op>, op: Op, n: nat)
    requires Logged(h, cs, ops) && WellFormed(ops) && IsRecord(op.record) && n < |Encode(op.record)|
    requires Gained(h, cs, k, ds, op.slot, Encode(op.record)[..n])
    ensures Readable(k, ds, ops)
  {
    assert Key(LogLock, 0);
    ReadableLog(h, cs, ops);
    forall s | s in ds
      ensures Decode(Contents(k, ds[s])) == OfSlot(ops, s) && Count(Contents(k, ds[s])) == |OfSlot(ops, s)|
    {
      if s == op.slot {
        OfSlotRecords(ops, s);
        DecodePartial(op.record, n);
        RoundTrip(OfSlot(ops, s), Encode(op.record)[..n]);
      }
    }
  }

  // ---------------------------------------------------------------------------
  // How many pages a history takes
  // ---------------------------------------------------------------------------

  function PagesFor(bytes: nat): nat {
    (bytes + PAGE_DATA_SIZE - 1) / PAGE_DATA_SIZE
  }

  /** The pages of every slot after ops: its encoded bytes, rounded up to whole pages. */
  function SlotPages(ops: seq<Op>): (r: seq<nat>)
    ensures |r| == SLOTS
  {
    seq(SLOTS, i requires 0 <= i < SLOTS => PagesFor(|EncodeAll(OfSlot(ops, SlotAt(i)))|))
  }

  function PagesNeeded(ops: seq<Op>): nat { Sum(SlotPages(ops)) }

  /** The superblock and the pages of every slot lie within size bytes. */
  predicate Fits(ops: seq<Op>, size: nat) {
    BUMP_START + PAGE_SIZE * PagesNeeded(ops) <= size
  }

  lemma {:induction false} RoundedUp(bytes: nat, pages: nat, cursor: nat)
    requires pages >= 1 && bytes == PAGE_DATA_SIZE * (pages - 1) + cursor && 1 <= cursor <= PAGE_DATA_SIZE
    ensures PagesFor(bytes) == pages
    ensures cursor == PAGE_DATA_SIZE ==> forall more :: more > bytes ==> PagesFor(more) >= pages + 1
  {
    assert bytes + PAGE_DATA_SIZE - 1 == PAGE_DATA_SIZE * pages + (cursor - 1);
  }

  /** Between operations a chain has as many pages as its bytes need; a slot without room needs one
      more for any more. */
  lemma {:induction false} ChainPages(h: Heap, cs: Chains, s: Slot)
    requires Kept(h, cs) && AllUsed(h, cs) && s in cs
    ensures |cs[s]| == PagesFor(|Contents(h, cs[s])|)
    ensures NoRoom(h, cs[s]) ==> forall more :: more > |Contents(h, cs[s])| ==> PagesFor(more) >= |cs[s]| + 1
  {
    Unfolded(h, cs);
    AllUsedBut(h, cs, s);
    assert Holds(h, s, cs[s]) && FullBut(h, cs[s]);
    if cs[s] != [] {
      FullLength(h, cs[s]);
      RoundedUp(|Contents(h, cs[s])|, |cs[s]|, h.pages[Last(cs[s])].cursor);
    }
  }

  /** The bump pointer of a log is a function of its history. */
  lemma {:induction false} LogPages(h: Heap, cs: Chains, ops: seq<Op>)
    requires Kept(h, cs) && AllUsed(h, cs) && Logged(h, cs, ops)
    ensures h.bump == BUMP_START + PAGE_SIZE * PagesNeeded(ops)
  {
    Unfolded(h, cs);
    assert Key(LogLock, 0);
    forall i | 0 <= i < SLOTS ensures Lengths(cs)[i] == SlotPages(ops)[i] {
      ChainPages(h, cs, SlotAt(i));
    }
    assert Lengths(cs) == SlotPages(ops);
  }

  lemma {:induction false} OfSlotStep(ops: seq<Op>, op: Op, s: Slot)
    ensures s != op.slot ==> OfSlot(ops + [op], s) == OfSlot(ops, s)
    ensures |EncodeAll(OfSlot(ops + [op], op.slot))| == |EncodeAll(OfSlot(ops, op.slot))| + |Encode(op.record)|
  {
    assert (ops + [op])[..|ops|] == ops;
    EncodeAllAppend(OfSlot(ops, op.slot), op.record);
  }

  /** After a torn append every slot has at most the pages the next history needs, and the torn slot has fewer. */
  lemma {:induction false} TornPages(h: Heap, cs: Chains, k: Heap, ds: Chains, ops: seq<Op>, op: Op, n: nat, i: nat)
    requires Logged(h, cs, ops) && n < |Encode(op.record)| && Gained(h, cs, k, ds, op.slot, Encode(op.record)[..n])
    requires Kept(k, ds) && AllUsed(k, ds) && ds.Keys == AllSlots() && NoRoom(k, ds[op.slot]) && i < SLOTS
    ensures |ds[SlotAt(i)]| + (if SlotAt(i) == op.slot then 1 else 0) <= SlotPages(ops + [op])[i]
  {
    assert Key(LogLock, 0);
    ChainPages(k, ds, SlotAt(i));
    OfSlotStep(ops, op, SlotAt(i));
  }

  /** An append that found no page did not fit. */
  lemma {:induction false} TornDoesNotFit(h: Heap, cs: Chains, k: Heap, ds: Chains, ops: seq<Op>, op: Op, n: nat,
                                          size: nat)
    requires Logged(h, cs, ops) && n < |Encode(op.record)| && Gained(h, cs, k, ds, op.slot, Encode(op.record)[..n])
    requires Kept(k, ds) && AllUsed(k, ds) && op.slot in ds && NoRoom(k, ds[op.slot]) && k.bump + PAGE_SIZE > size
    ensures !Fits(ops + [op], size)
  {
    Unfolded(k, ds);
    var j, lengths := SlotNumber(op.slot), Lengths(ds);
    var least := lengths[j := lengths[j] + 1];
    forall i | 0 <= i < SLOTS ensures least[i] <= SlotPages(ops + [op])[i] {
      TornPages(h, cs, k, ds, ops, op, n, i);
    }
    SumUpdate(lengths, j, lengths[j] + 1);
    SumMonotone(least, SlotPages(ops + [op]));
  }

  lemma {:induction false} MorePages(ops: seq<Op>, op: Op)
    ensures PagesNeeded(ops) <= PagesNeeded(ops + [op])
  {
    forall i | 0 <= i < SLOTS ensures SlotPages(ops)[i] <= SlotPages(ops + [op])[i] {
      OfSlotStep(ops, op, SlotAt(i));
    }
    SumMonotone(SlotPages(ops), SlotPages(ops + [op]));
  }

  /** A history that fits has only beginnings that fit. */
  lemma {:induction false} FitsPrefix(ops: seq<Op>, n: nat, size: nat)
    requires n <= |ops| && Fits(ops, size)
    ensures Fits(ops[..n], size)
    decreases |ops| - n
  {
    if n < |ops| {
      FitsPrefix(ops, n + 1, size);
      assert ops[..n + 1] == ops[..n] + [ops[n]];
      MorePages(ops[..n], ops[n]);
    } else {
      assert ops[..n] == ops;
    }
  }

  /** n is the length of the longest beginning of ops that fits into size bytes. */
  ghost predicate Longest(ops: seq<Op>, n: nat, size: nat) {
    && n <= |ops| && Fits(ops[..n], size)
    && (n < |ops| ==> !Fits(ops[..n + 1], size))
    && (n == |ops| <==> Fits(ops, size))
  }

  lemma {:induction false} LongestUnique(ops: seq<Op>, n: nat, m: nat, size: nat)
    requires Longest(ops, n, size) && Longest(ops, m, size)
    ensures n == m
  {
    if n != m {
      var a, b := Min(n, m), Max(n, m);
      assert ops[..b][..a + 1] == ops[..a + 1];
      FitsPrefix(ops[..b], a + 1, size);
    }
  }

  lemma {:induction false} LongestIntro(ops: seq<Op>, n: nat, size: nat)
    requires n <= |ops| && Fits(ops[..n], size) && (n < |ops| ==> !Fits(ops[..n + 1], size))
    ensures Longest(ops, n, size)
  {
    assert n == |ops| ==> ops[..n] == ops;
    if n < |ops| && Fits(ops, size) { FitsPrefix(ops, n + 1, size); }
  }

  // ---------------------------------------------------------------------------
  // The operations
  // ---------------------------------------------------------------------------

  lemma {:induction false} EverySlot(h: Heap, cs: Chains)
    requires Kept(h, cs)
    ensures cs.Keys == AllSlots()
  {
    Unfolded(h, cs);
  }

  /** One more append to a log: it succeeds when the longer log fits; a failing one leaves what can be
      read unchanged. */
  method AppendOne(shm: Shm, op: Op, ghost ops: seq<Op>) returns (ok: bool)
    requires shm.Tidy() && op.slot in shm.chains && Logged(shm.heap, shm.chains, ops)
    requires WellFormed(ops) && IsRecord(op.record)
    modifies shm
    ensures shm.Tidy() && |shm.mem| == old(|shm.mem|) && shm.chains.Keys == old(shm.chains).Keys
    ensures ok ==> Logged(shm.heap, shm.chains, ops + [op])
    ensures !ok ==> Readable(shm.heap, shm.chains, ops)
    ensures ok <==> Fits(ops + [op], |shm.mem|)
  {
    ghost var h, cs := shm.heap, shm.chains;
    ghost var written;
    ok, written := shm.Append(op.slot, op.record);
    AppendedIs(h, cs, shm.heap, shm.chains, op.slot, Encode(op.record)[..written]);
    if ok {
      assert Encode(op.record)[..written] == Encode(op.record);
      LoggedStep(h, cs, shm.heap, shm.chains, ops, op);
      LogPages(shm.heap, shm.chains, ops + [op]);
    } else {
      ReadableTorn(h, cs, shm.heap, shm.chains, ops, op, written);
      TornDoesNotFit(h, cs, shm.heap, shm.chains, ops, op, written, |shm.mem|);
    }
  }

  /**
    Any sequence of appends to any slots: exactly the longest beginning that fits the memory
    is stored, and reading a slot returns exactly its records of that beginning.
   */
  method RunAppends(shm: Shm, ops: seq<Op>) returns (n: nat)
    requires shm.Tidy() && Logged(shm.heap, shm.chains, []) && WellFormed(ops)
    modifies shm
    ensures shm.Tidy() && |shm.mem| == old(|shm.mem|) && Longest(ops, n, |shm.mem|)
    ensures Readable(shm.heap, shm.chains, ops[..n])
  {
    n := 0;
    ghost var done: seq<Op> := [];
    EverySlot(shm.heap, shm.chains);
    LogPages(shm.heap, shm.chains, done);
    while n < |ops|
      invariant n <= |ops| && shm.Tidy() && |shm.mem| == old(|shm.mem|) && shm.chains.Keys == AllSlots()
      invariant done == ops[..n] && WellFormed(done) && Logged(shm.heap, shm.chains, done) && Fits(done, |shm.mem|)
      decreases |ops| - n
    {
      assert ops[n] in ops && ops[..n + 1] == done + [ops[n]];
      var ok := AppendOne(shm, ops[n], done);
      if !ok {
        LongestIntro(ops, n, |shm.mem|);
        return;
      }
      done := done + [ops[n]];
      n := n + 1;
    }
    ReadableLog(shm.heap, shm.chains, done);
    LongestIntro(ops, n, |shm.mem|);
  }

  /** Reads and counts slot s after any history. */
  method ReadSlot(shm: Shm, s: Slot, ghost ops: seq<Op>) returns (records: seq<Record>, count: nat)
    requires shm.Valid() && s in shm.chains && Readable(shm.heap, shm.chains, ops)
    ensures records == OfSlot(ops, s) && count == |records|
  {
    assert Key(LogLock, 0);
    Unfolded(shm.heap, shm.chains);
    assert Holds(shm.heap, s, shm.chains[s]);
    var head := shm.GetHead(s);
    records := shm.ReadChain(head, shm.chains[s]);
    count := shm.CountChain(head, shm.chains[s]);
  }

  lemma {:induction false} FormattedLog(h: Heap)
    ensures Logged(h, Empty(), [])
  {
    forall s | s in Empty() ensures Contents(h, Empty()[s]) == EncodeAll(OfSlot([], s)) {}
  }

  /** From a formatted memory: run any appends, then read and count any slot. */
  method AppendsThenRead(size: nat, ops: seq<Op>, s: Slot) returns (n: nat, records: seq<Record>, count: nat)
    requires BUMP_START <= size < U32_LIMIT && WellFormed(ops) && IsSlot(s)
    ensures Longest(ops, n, size) && records == OfSlot(ops[..n], s) && count == |records|
  {
    var shm := new Shm.Format(size);
    FormattedLog(shm.heap);
    n := RunAppends(shm, ops);
    EverySlot(shm.heap, shm.chains);
    records, count := ReadSlot(shm, s, ops[..n]);
  }

  lemma {:induction false} EncodeAllConcat(a: seq<Record>, b: seq<Record>)
    ensures EncodeAll(a + b) == EncodeAll(a) + EncodeAll(b)
  {
    if a == [] {
      assert a + b == b;
    } else {
      assert (a + b)[1..] == a[1..] + b;
      EncodeAllConcat(a[1..], b);
    }
  }

  /** Zero-copy delivery of src to dst, then reading both. */
  method SpliceThenRead(shm: Shm, dst: Slot, src: Slot, ghost ops: seq<Op>)
    returns (received: seq<Record>, sent: seq<Record>)
    requires shm.Valid() && Logged(shm.heap, shm.chains, ops) && WellFormed(ops)
    requires dst in shm.chains && src in shm.chains && dst != src
    modifies shm
    ensures received == OfSlot(ops, dst) + OfSlot(ops, src) && sent == OfSlot(ops, src)
  {
    assert Key(LogLock, 0);
    ghost var h, ps, qs := shm.heap, shm.chains[dst], shm.chains[src];
    Unfolded(shm.heap, shm.chains);
    assert Holds(h, dst, ps) && Holds(h, src, qs);
    shm.ChainOnto(dst, src, ps, qs);
    var head := shm.GetHead(dst);
    received := shm.ReadChain(head, ps + qs);
    head := shm.GetHead(src);
    sent := shm.ReadChain(head, qs);
    ghost var a, b := OfSlot(ops, dst), OfSlot(ops, src);
    OfSlotRecords(ops, dst);
    OfSlotRecords(ops, src);
    EncodeAllConcat(a, b);
    WholeLog(a + b);
    WholeLog(b);
  }

  lemma {:induction false} WholeLog(rs: seq<Record>)
    requires forall r :: r in rs ==> IsRecord(r)
    ensures Decode(EncodeAll(rs)) == rs
  {
    RoundTrip(rs, []);
    assert EncodeAll(rs) + [] == EncodeAll(rs);
  }
}
