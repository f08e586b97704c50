/**
  The flat shared-memory heap, changed in place: page allocation, record append, splice and
  the chain readers (Executor/py_guest/python/shm.py, Executor/connect/examples/shm_statesync.rs).
 */
module PageHeap {
  import opened Prelude
  import opened Sequences
  import opened Bytes
  import opened Memory
  import opened Records
  import opened Chains

  /** A reader at offset c of the first page of the chain suffix ps has the bytes b before it. */
  ghost predicate Reading(h: Heap, ps: seq<nat>, page: nat, c: nat, b: seq<Byte>) {
    forall u :: Key(ReadLock, u) ==> At(h, ps, page, c) && b == Contents(h, ps)[c..]
  }

  ghost predicate At(h: Heap, ps: seq<nat>, page: nat, c: nat) {
    && Linked(h, ps) && page == First(ps) && c <= |Contents(h, ps)|
    && c <= (if ps == [] then 0 else |Content(h, ps[0])|)
  }

  lemma {:induction false} StartReading(h: Heap, ps: seq<nat>)
    requires Linked(h, ps)
    ensures Reading(h, ps, First(ps), 0, Contents(h, ps))
  {
  }

  lemma {:induction false} ReadingHere(h: Heap, ps: seq<nat>, page: nat, c: nat, b: seq<Byte>)
    requires Reading(h, ps, page, c, b)
    ensures page == 0 <==> ps == []
    ensures page == 0 ==> b == []
    ensures page != 0 ==> && ValidPage(h, page) && |Content(h, page)| == h.pages[page].cursor
                          && c <= h.pages[page].cursor
  {
    assert Key(ReadLock, 0);
  }

  /** A drained page hands over to its successor. */
  lemma {:induction false} ReadingNext(h: Heap, ps: seq<nat>, page: nat, c: nat, b: seq<Byte>)
    requires Reading(h, ps, page, c, b) && ps != [] && c == |Content(h, page)| && page in h.pages
    ensures Reading(h, ps[1..], h.pages[page].next, 0, b)
    ensures h.pages[page].next == 0 ==> b == []
  {
    assert Key(ReadLock, 0);
    var qs := ps[1..];
    forall i | 0 <= i < |qs| ensures qs[i] == ps[i + 1] {}
    if qs != [] { assert h.pages[ps[0]].next == ps[1]; }
    assert b == Contents(h, qs);
  }

  lemma {:induction false} Window(d: seq<Byte>, end: nat, c: nat, take: nat)
    requires c + take <= end <= |d|
    ensures d[..end][c..][..take] == Get(d, c, take)
  {
  }

  /** Taking bytes from the current page. */
  lemma {:induction false} ReadingTake(h: Heap, ps: seq<nat>, page: nat, c: nat, b: seq<Byte>, take: nat)
    requires Reading(h, ps, page, c, b) && ps != [] && ValidPage(h, page) && c + take <= |Content(h, page)|
    ensures take <= |b| && b[..take] == Get(h.pages[page].data, c, take)
    ensures Reading(h, ps, page, c + take, b[take..])
  {
    assert Key(ReadLock, 0);
    var here, all := Content(h, page), Contents(h, ps);
    assert all == here + Contents(h, ps[1..]);
    Window(h.pages[page].data, h.pages[page].cursor, c, take);
    assert b[..take] == here[c..][..take];
    assert b[take..] == all[c + take..];
  }

  /** heap is the structured view of mem; guarded by Key so that proofs unfold it only on demand. */
  ghost predicate Shows(mem: seq<Byte>, heap: Memory.Heap) {
    BUMP_START <= |mem| < U32_LIMIT && forall u :: Key(ViewLock, u) ==> heap == View(mem)
  }

  lemma {:induction false} Viewed(mem: seq<Byte>, heap: Memory.Heap)
    requires Shows(mem, heap)
    ensures heap == View(mem)
  {
    assert Key(ViewLock, 0);
  }

  lemma {:induction false} PageCells(mem: seq<Byte>, heap: Memory.Heap, p: nat)
    requires Shows(mem, heap)
    ensures p in heap.pages <==> IsPage(p, |mem|)
    ensures p in heap.pages ==> heap.pages[p] == PageAt(mem, p)
  {
    Viewed(mem, heap);
  }

  lemma {:induction false} SlotCells(mem: seq<Byte>, heap: Memory.Heap, s: Slot)
    requires Shows(mem, heap)
    ensures s in heap.heads <==> IsSlot(s)
    ensures s in heap.tails <==> IsSlot(s)
    ensures IsSlot(s) ==> heap.heads[s] == U64At(mem, HeadAt(s)) && heap.tails[s] == U64At(mem, TailAt(s))
  {
    Viewed(mem, heap);
  }

  lemma {:induction false} BumpCell(mem: seq<Byte>, heap: Memory.Heap)
    requires Shows(mem, heap)
    ensures heap.bump == U32At(mem, BUMP_AT)
  {
    Viewed(mem, heap);
  }

  lemma {:induction false} Fits4(v: nat)
    requires v < U32_LIMIT
    ensures FromLE(ToLE(v, 4)) == v
  {
    Pow256Values();
    LERoundTrip(v, 4);
  }

  lemma {:induction false} Fits8(v: nat)
    requires v < U64_LIMIT
    ensures FromLE(ToLE(v, 8)) == v
  {
    Pow256Values();
    LERoundTrip(v, 8);
  }

  lemma {:induction false} ZeroLE(b: seq<Byte>)
    requires forall i :: 0 <= i < |b| ==> b[i] == 0
    ensures FromLE(b) == 0
  {
    if b != [] { ZeroLE(b[1..]); }
  }

  /** A formatted memory: every slot empty, the bump pointer at the first page. */
  ghost function Empty(): Chains {
    map s | s in AllSlots() :: []
  }

  lemma {:induction false} ZeroCells(zeros: seq<Byte>, s: Slot)
    requires BUMP_START <= |zeros| && IsSlot(s) && forall i :: 0 <= i < |zeros| ==> zeros[i] == 0
    ensures U64At(zeros, HeadAt(s)) == 0 && U64At(zeros, TailAt(s)) == 0
  {
    ZeroLE(Get(zeros, HeadAt(s), 8));
    ZeroLE(Get(zeros, TailAt(s), 8));
  }

  lemma {:induction false} ZeroView(zeros: seq<Byte>)
    requires BUMP_START <= |zeros| && forall i :: 0 <= i < |zeros| ==> zeros[i] == 0
    ensures forall s :: IsSlot(s) ==> View(zeros).heads[s] == 0 && View(zeros).tails[s] == 0
  {
    forall s | IsSlot(s) ensures View(zeros).heads[s] == 0 && View(zeros).tails[s] == 0 {
      ZeroCells(zeros, s);
    }
  }

  lemma {:induction false} FormattedView(mem: seq<Byte>, zeros: seq<Byte>)
    requires BUMP_START <= |zeros| && forall i :: 0 <= i < |zeros| ==> zeros[i] == 0
    requires mem == Put(zeros, BUMP_AT, ToLE(BUMP_START, 4))
    ensures View(mem).bump == BUMP_START
    ensures forall s :: IsSlot(s) ==> View(mem).heads[s] == 0 && View(mem).tails[s] == 0
  {
    Fits4(BUMP_START);
    WriteBump(zeros, ToLE(BUMP_START, 4), mem);
    ZeroView(zeros);
  }

  lemma {:induction false} NoPages(n: nat)
    ensures Sum(seq(n, i => 0)) == 0
  {
    if n > 0 {
      NoPages(n - 1);
      assert seq(n, i => 0)[..n - 1] == seq(n - 1, i => 0);
    }
  }

  lemma {:induction false} EmptyCounted()
    ensures Counted(BUMP_START, Empty())
  {
    NoPages(SLOTS);
    assert Lengths(Empty()) == seq(SLOTS, i => 0);
  }

  lemma {:induction false} FormattedInv(h: Memory.Heap)
    requires h.bump == BUMP_START
    requires forall s :: IsSlot(s) ==> s in h.heads && s in h.tails && h.heads[s] == 0 && h.tails[s] == 0
    ensures Inv(h, Empty()) && AllUsed(h, Empty())
  {
    EmptyCounted();
    forall s | s in Empty() ensures Holds(h, s, []) {}
  }

  class Shm {
    var mem: seq<Byte>
    ghost var heap: Memory.Heap
    ghost var chains: Chains

    /** A zeroed memory of the given size with a formatted superblock. */
    constructor Format(size: nat)
      requires BUMP_START <= size < U32_LIMIT
      ensures Tidy() && |mem| == size && chains == Empty()
    {
      var zeros: seq<Byte> := seq(size, i => 0);
      mem := Put(zeros, BUMP_AT, ToLE(BUMP_START, 4));
      heap := View(Put(zeros, BUMP_AT, ToLE(BUMP_START, 4)));
      chains := Empty();
      new;
      FormattedView(mem, zeros);
      FormattedInv(heap);
    }

    ghost predicate Valid()
      reads this
    {
      Shows(mem, heap) && Kept(heap, chains) && heap.bump <= |mem|
    }

    /** Between operations every chain is in use to its last page. */
    ghost predicate Tidy()
      reads this
    {
      Valid() && AllUsed(heap, chains)
    }

    /** No room for another page. */
    ghost predicate Full()
      reads this
    {
      heap.bump + PAGE_SIZE > |mem|
    }

    // -------------------------------------------------------------------------
    // Cells
    // -------------------------------------------------------------------------

    method SetBump(v: nat)
      requires Shows(mem, heap) && v < U32_LIMIT
      modifies this`mem, this`heap
      ensures Shows(mem, heap) && |mem| == old(|mem|) && heap == old(heap).(bump := v)
    {
      ghost var was := mem;
      mem := Put(mem, BUMP_AT, ToLE(v, 4));
      heap := heap.(bump := v);
      Fits4(v);
      Viewed(was, old(heap));
      WriteBump(was, ToLE(v, 4), mem);
    }

    method SetHead(s: Slot, v: nat)
      requires Shows(mem, heap) && s in heap.heads && v < U64_LIMIT
      modifies this`mem, this`heap
      ensures Shows(mem, heap) && |mem| == old(|mem|) && heap == old(heap).(heads := old(heap).heads[s := v])
    {
      ghost var was := mem;
      SlotCells(mem, heap, s);
      mem := Put(mem, HeadAt(s), ToLE(v, 8));
      heap := heap.(heads := heap.heads[s := v]);
      Fits8(v);
      Viewed(was, old(heap));
      WriteHead(was, s, ToLE(v, 8), mem);
    }

    method SetTail(s: Slot, v: nat)
      requires Shows(mem, heap) && s in heap.tails && v < U64_LIMIT
      modifies this`mem, this`heap
      ensures Shows(mem, heap) && |mem| == old(|mem|) && heap == old(heap).(tails := old(heap).tails[s := v])
    {
      ghost var was := mem;
      SlotCells(mem, heap, s);
      mem := Put(mem, TailAt(s), ToLE(v, 8));
      heap := heap.(tails := heap.tails[s := v]);
      Fits8(v);
      Viewed(was, old(heap));
      WriteTail(was, s, ToLE(v, 8), mem);
    }

    method SetNext(p: nat, v: nat)
      requires Shows(mem, heap) && p in heap.pages && v < U64_LIMIT
      modifies this`mem, this`heap
      ensures Shows(mem, heap) && |mem| == old(|mem|)
      ensures heap == old(heap).(pages := old(heap).pages[p := old(heap).pages[p].(next := v)])
    {
      ghost var was := mem;
      PageCells(mem, heap, p);
      mem := Put(mem, p, ToLE(v, 8));
      heap := heap.(pages := heap.pages[p := heap.pages[p].(next := v)]);
      Fits8(v);
      Viewed(was, old(heap));
      WriteNext(was, p, ToLE(v, 8), mem, PageAt(was, p));
    }

    method SetCursor(p: nat, v: nat)
      requires Shows(mem, heap) && p in heap.pages && v < U32_LIMIT
      modifies this`mem, this`heap
      ensures Shows(mem, heap) && |mem| == old(|mem|)
      ensures heap == old(heap).(pages := old(heap).pages[p := old(heap).pages[p].(cursor := v)])
    {
      ghost var was := mem;
      PageCells(mem, heap, p);
      mem := Put(mem, p + 8, ToLE(v, 4));
      heap := heap.(pages := heap.pages[p := heap.pages[p].(cursor := v)]);
      Fits4(v);
      Viewed(was, old(heap));
      WriteCursor(was, p, ToLE(v, 4), mem, PageAt(was, p));
    }

    method SetData(p: nat, at: nat, b: seq<Byte>)
      requires Shows(mem, heap) && p in heap.pages && at + |b| <= PAGE_DATA_SIZE
      modifies this`mem, this`heap
      ensures Shows(mem, heap) && |mem| == old(|mem|)
      ensures at + |b| <= |old(heap).pages[p].data|
      ensures var was := old(heap).pages;
              heap == old(heap).(pages := was[p := was[p].(data := Put(was[p].data, at, b))])
    {
      ghost var was := mem;
      PageCells(mem, heap, p);
      mem := Put(mem, p + PAGE_DATA_OFFSET + at, b);
      heap := heap.(pages := heap.pages[p := heap.pages[p].(data := Put(heap.pages[p].data, at, b))]);
      Viewed(was, old(heap));
      WriteData(was, p, at, b, mem, PageAt(was, p));
    }

    method GetBump() returns (v: nat)
      requires Shows(mem, heap)
      ensures v == heap.bump
    {
      BumpCell(mem, heap);
      v := U32At(mem, BUMP_AT);
    }

    method GetHead(s: Slot) returns (v: nat)
      requires Shows(mem, heap) && s in heap.heads
      ensures v == heap.heads[s] < U64_LIMIT
    {
      SlotCells(mem, heap, s);
      v := U64At(mem, HeadAt(s));
      FromLEBound(Get(mem, HeadAt(s), 8));
      Pow256Values();
    }

    method GetTail(s: Slot) returns (v: nat)
      requires Shows(mem, heap) && s in heap.tails
      ensures v == heap.tails[s] < U64_LIMIT
    {
      SlotCells(mem, heap, s);
      v := U64At(mem, TailAt(s));
      FromLEBound(Get(mem, TailAt(s), 8));
      Pow256Values();
    }

    method GetNext(p: nat) returns (v: nat)
      requires Shows(mem, heap) && p in heap.pages
      ensures v == heap.pages[p].next
    {
      PageCells(mem, heap, p);
      v := U64At(mem, p);
    }

    method GetCursor(p: nat) returns (v: nat)
      requires Shows(mem, heap) && p in heap.pages
      ensures v == heap.pages[p].cursor
    {
      PageCells(mem, heap, p);
      v := U32At(mem, p + 8);
    }

    method GetData(p: nat, at: nat, n: nat) returns (b: seq<Byte>)
      requires Shows(mem, heap) && p in heap.pages && at + n <= |heap.pages[p].data|
      ensures b == Get(heap.pages[p].data, at, n)
    {
      PageCells(mem, heap, p);
      b := Get(mem, p + PAGE_DATA_OFFSET + at, n);
      GetGet(mem, p + PAGE_DATA_OFFSET, PAGE_DATA_SIZE, at, n);
    }

    // -------------------------------------------------------------------------
    // Writers
    // -------------------------------------------------------------------------

    /** Bump-allocates one empty page; refuses, changing nothing, when it does not fit. */
    method AllocPage() returns (r: Option<nat>)
      requires Shows(mem, heap) && OnGrid(heap.bump)
      modifies this`mem, this`heap
      ensures Shows(mem, heap) && |mem| == old(|mem|)
      ensures r == if old(heap).bump + PAGE_SIZE <= |mem| then Some(old(heap).bump) else None
      ensures r.None? ==> mem == old(mem) && heap == old(heap)
      ensures r.Some? ==> && r.value in old(heap).pages
                          && |old(heap).pages[r.value].data| == PAGE_DATA_SIZE
                          && heap == Fresh(old(heap), old(heap).pages[r.value].data)
    {
      var bump := GetBump();
      if bump + PAGE_SIZE > |mem| { return None; }
      PageCells(mem, heap, bump);
      SetBump(bump + PAGE_SIZE);
      SetNext(bump, 0);
      SetCursor(bump, 0);
      r := Some(bump);
    }

    /** Allocates a page and links it behind slot s, whose tail is `tail`. */
    method AllocAttach(s: Slot, tail: nat) returns (r: Option<nat>, ghost data: seq<Byte>)
      requires Shows(mem, heap) && OnGrid(heap.bump) && s in heap.heads && s in heap.tails
      requires tail == heap.tails[s] && (tail == 0 || tail in heap.pages) && tail < heap.bump
      modifies this`mem, this`heap
      ensures Shows(mem, heap) && |mem| == old(|mem|) && |data| == PAGE_DATA_SIZE
      ensures r.None? ==> mem == old(mem) && heap == old(heap) && Full()
      ensures r.Some? ==> && r.value == old(heap).bump && r.value in old(heap).pages
                          && r.value + PAGE_SIZE <= |mem| && heap == Grow(old(heap), s, data)
    {
      data := seq(PAGE_DATA_SIZE, i => 0);
      r := AllocPage();
      if r.None? { return; }
      data := heap.pages[r.value].data;
      if tail == 0 {
        SetHead(s, r.value);
      } else {
        SetNext(tail, r.value);
      }
      SetTail(s, r.value);
    }

    /** Gives slot s one more page; what was appended since (h0, cs0) stays the same. */
    method Extend(s: Slot, tail: nat, ghost h0: Memory.Heap, ghost cs0: Chains, ghost done: seq<Byte>)
      returns (r: Option<nat>)
      requires Valid() && s in chains && tail == Last(chains[s]) && Appended(h0, cs0, heap, chains, s, done)
      requires NoRoom(heap, chains[s]) && UsedBut(heap, chains, s)
      modifies this
      ensures Valid() && |mem| == old(|mem|) && Appended(h0, cs0, heap, chains, s, done)
      ensures UsedBut(heap, chains, s)
      ensures r.None? ==> mem == old(mem) && heap == old(heap) && chains == old(chains) && Full()
      ensures r.Some? ==> && s in chains && chains[s] != [] && Last(chains[s]) == r.value
                          && First(chains[s]) == (if old(chains[s]) == [] then r.value else First(old(chains[s])))
                          && heap.bump == old(heap.bump) + PAGE_SIZE <= |mem| && r.value < |mem|
    {
      ghost var was, cs := heap, chains;
      TailFacts(was, cs, s, tail);
      ghost var data;
      r, data := AllocAttach(s, tail);
      if r.Some? {
        chains := cs[s := cs[s] + [r.value]];
        GrowFacts(was, cs, s, data, heap, chains);
        AppendedTwice(h0, cs0, was, cs, heap, chains, s, done, [], done);
      }
    }

    /** Writes b behind the tail page's cursor: data first, then the cursor. */
    method FillTail(s: Slot, tail: nat, cursor: nat, b: seq<Byte>,
                    ghost h0: Memory.Heap, ghost cs0: Chains, ghost done: seq<Byte>)
      requires Valid() && s in chains && chains[s] != [] && tail == Last(chains[s]) && ValidPage(heap, tail)
      requires Appended(h0, cs0, heap, chains, s, done)
      requires cursor == heap.pages[tail].cursor && cursor + |b| <= PAGE_DATA_SIZE && b != []
      requires UsedBut(heap, chains, s)
      modifies this`mem, this`heap
      ensures UsedBut(heap, chains, s) && Used(heap, chains[s])
      ensures Valid() && |mem| == old(|mem|) && heap.bump == old(heap.bump)
      ensures Appended(h0, cs0, heap, chains, s, done + b)
    {
      ghost var was := heap;
      SetData(tail, cursor, b);
      SetCursor(tail, cursor + |b|);
      assert heap == Fill(was, tail, b);
      FillAppends(was, chains, s, b, tail, heap);
      AppendedTwice(h0, cs0, was, chains, heap, chains, s, done, b, done + b);
    }

    /** Appends raw bytes to slot s, page by page; on exhaustion a prefix of them is left behind. */
    method WriteBytes(s: Slot, data: seq<Byte>) returns (ok: bool, ghost written: nat)
      requires Tidy() && s in chains
      modifies this
      ensures !ok ==> s in chains && NoRoom(heap, chains[s])
      ensures Tidy() && |mem| == old(|mem|) && s in chains && written <= |data|
              && (ok <==> written == |data|) && (ok || Full())
      ensures Appended(old(heap), old(chains), heap, chains, s, data[..written])
    {
      ghost var h0, cs0 := heap, chains;
      AppendedNothing(h0, cs0, h0, cs0, s);
      if data == [] { return true, 0; }
      AllUsedBut(heap, chains, s);
      TailFacts(heap, chains, s, Last(chains[s]));
      var tail := GetTail(s);
      if tail == 0 {
        var first := Extend(s, tail, h0, cs0, []);
        if first.None? { return false, 0; }
        tail := first.value;
      }
      ok, written := WriteFrom(s, tail, data, h0, cs0);
    }

    method WriteFrom(s: Slot, first: nat, data: seq<Byte>, ghost h0: Memory.Heap, ghost cs0: Chains)
      returns (ok: bool, ghost written: nat)
      requires Valid() && s in chains && chains[s] != [] && first == Last(chains[s]) && data != []
      requires Appended(h0, cs0, heap, chains, s, []) && UsedBut(heap, chains, s)
      modifies this
      ensures !ok ==> s in chains && NoRoom(heap, chains[s])
      ensures Tidy() && |mem| == old(|mem|) && s in chains && written <= |data|
              && (ok <==> written == |data|) && (ok || Full())
      ensures Appended(h0, cs0, heap, chains, s, data[..written])
    {
      var tail, rem := first, data;
      ghost var done: seq<Byte> := [];
      while rem != []
        invariant Valid() && |mem| == old(|mem|) && s in chains && chains[s] != [] && tail == Last(chains[s])
        invariant data == done + rem && UsedBut(heap, chains, s) && (rem == [] ==> Used(heap, chains[s]))
        invariant Appended(h0, cs0, heap, chains, s, done)
        decreases |rem|, |mem| - heap.bump
      {
        TailFacts(heap, chains, s, tail);
        var cursor := GetCursor(tail);
        var space := PAGE_DATA_SIZE - cursor;
        if space == 0 {
          var next := Extend(s, tail, h0, cs0, done);
          if next.None? {
            NoRoomUsed(heap, chains, s);
            return false, |done|;
          }
          tail := next.value;
          continue;
        }
        var n := if space < |rem| then space else |rem|;
        FillTail(s, tail, cursor, rem[..n], h0, cs0, done);
        done := done + rem[..n];
        rem := rem[n..];
      }
      assert done == data;
      AllUsedBut(heap, chains, s);
      ok, written := true, |data|;
    }

    /** Appends one record to slot s; an unencodable record changes nothing. */
    method Append(s: Slot, r: Record) returns (ok: bool, ghost written: nat)
      requires Tidy() && s in chains
      modifies this
      ensures !ok && |r.payload| < U32_LIMIT && r.origin < U32_LIMIT ==> s in chains && NoRoom(heap, chains[s])
      ensures Tidy() && |mem| == old(|mem|) && written <= |Encode(r)| && (ok <==> written == |Encode(r)|)
      ensures ok || Full() || |r.payload| >= U32_LIMIT || r.origin >= U32_LIMIT
      ensures Appended(old(heap), old(chains), heap, chains, s, Encode(r)[..written])
      ensures ok ==> |r.payload| < U32_LIMIT && r.origin < U32_LIMIT
    {
      AppendedNothing(heap, chains, heap, chains, s);
      if |r.payload| >= U32_LIMIT || r.origin >= U32_LIMIT { return false, 0; }
      ok, written := AppendEncoded(s, Encode(r));
    }

    /** An empty slot gets its first page. */
    method FirstPage(s: Slot, head: nat, tail: nat, ghost h0: Memory.Heap, ghost cs0: Chains, ghost done: seq<Byte>)
      returns (ok: bool, head': nat, tail': nat)
      requires Valid() && s in chains && head == First(chains[s]) && tail == Last(chains[s]) && UsedBut(heap, chains, s)
      requires head < U64_LIMIT && tail < U64_LIMIT && Appended(h0, cs0, heap, chains, s, done)
      modifies this
      ensures s in chains && UsedBut(heap, chains, s) && (!ok ==> NoRoom(heap, chains[s]))
      ensures Valid() && |mem| == old(|mem|) && Appended(h0, cs0, heap, chains, s, done) && s in chains
      ensures head' == First(chains[s]) && tail' == Last(chains[s]) && head' < U64_LIMIT && tail' < U64_LIMIT
      ensures if ok then chains[s] != [] && ValidPage(heap, tail') else Full()
      ensures ok ==> heap.bump == old(heap.bump) || (old(heap.bump) < heap.bump <= |mem|)
    {
      head', tail', ok := head, tail, true;
      TailFacts(heap, chains, s, tail);
      if tail == 0 {
        var first := Extend(s, tail, h0, cs0, done);
        if first.None? { return false, head, tail; }
        head', tail' := first.value, first.value;
        TailFacts(heap, chains, s, tail');
      }
    }

    method AppendEncoded(s: Slot, record: seq<Byte>) returns (ok: bool, ghost written: nat)
      requires Tidy() && s in chains && record != []
      modifies this
      ensures !ok ==> s in chains && NoRoom(heap, chains[s])
      ensures Tidy() && |mem| == old(|mem|) && written <= |record| && (ok <==> written == |record|) && (ok || Full())
      ensures Appended(old(heap), old(chains), heap, chains, s, record[..written])
    {
      AppendedNothing(heap, chains, heap, chains, s);
      AllUsedBut(heap, chains, s);
      TailFacts(heap, chains, s, Last(chains[s]));
      var head := GetHead(s);
      var tail := GetTail(s);
      ok, head, tail, written := AppendLoop(s, head, tail, record, heap, chains);
      if ok { RewriteCells(s, head, tail); }
    }

    method AppendLoop(s: Slot, head: nat, tail: nat, record: seq<Byte>, ghost h0: Memory.Heap, ghost cs0: Chains)
      returns (ok: bool, head': nat, tail': nat, ghost written: nat)
      requires Valid() && s in chains && head == First(chains[s]) && tail == Last(chains[s]) && UsedBut(heap, chains, s)
      requires head < U64_LIMIT && tail < U64_LIMIT && Appended(h0, cs0, heap, chains, s, []) && record != []
      modifies this
      ensures !ok ==> s in chains && NoRoom(heap, chains[s])
      ensures Tidy() && |mem| == old(|mem|) && s in chains
      ensures ok ==> head' == First(chains[s]) && tail' == Last(chains[s]) && head' < U64_LIMIT && tail' < U64_LIMIT
      ensures written <= |record| && (ok <==> written == |record|) && (ok || Full())
      ensures Appended(h0, cs0, heap, chains, s, record[..written])
    {
      head', tail' := head, tail;
      var rem := record;
      ghost var done: seq<Byte> := [];
      while rem != []
        invariant Valid() && |mem| == old(|mem|) && s in chains
        invariant head' == First(chains[s]) && tail' == Last(chains[s]) && head' < U64_LIMIT && tail' < U64_LIMIT
        invariant record == done + rem && UsedBut(heap, chains, s) && (rem == [] ==> Used(heap, chains[s]))
        invariant Appended(h0, cs0, heap, chains, s, done)
        decreases |rem|, |mem| - heap.bump
      {
        var paged;
        paged, head', tail' := FirstPage(s, head', tail', h0, cs0, done);
        if !paged {
          NoRoomUsed(heap, chains, s);
          return false, head', tail', |done|;
        }
        var cursor := GetCursor(tail');
        var space := PAGE_DATA_SIZE - cursor;
        if space == 0 {
          var next := Extend(s, tail', h0, cs0, done);
          if next.None? {
            NoRoomUsed(heap, chains, s);
            return false, head', tail', |done|;
          }
          tail' := next.value;
          continue;
        }
        var take := if space < |rem| then space else |rem|;
        FillTail(s, tail', cursor, rem[..take], h0, cs0, done);
        done := done + rem[..take];
        rem := rem[take..];
      }
      assert done == record;
      AllUsedBut(heap, chains, s);
      ok, written := true, |record|;
    }

    /** Stores the slot's head and tail once more. */
    method RewriteCells(s: Slot, head: nat, tail: nat)
      requires Valid() && s in chains && head == First(chains[s]) && tail == Last(chains[s])
      requires head < U64_LIMIT && tail < U64_LIMIT
      modifies this`mem, this`heap
      ensures Valid() && |mem| == old(|mem|) && heap == old(heap)
    {
      TailFacts(heap, chains, s, tail);
      SetHead(s, head);
      SetTail(s, tail);
    }

    /** Appends a record whose origin is the slot number, in three writes. */
    method PutRecord(s: Slot, payload: seq<Byte>) returns (ok: bool, ghost written: nat)
      requires Tidy() && s in chains
      modifies this
      ensures var r := Record(s.index, payload);
              && Tidy() && |mem| == old(|mem|) && written <= |Encode(r)| && (ok <==> written == |Encode(r)|)
              && (ok || Full())
              && Appended(old(heap), old(chains), heap, chains, s, Encode(r)[..written])
    {
      ghost var h0, cs0, all := heap, chains, Encode(Record(s.index, payload));
      ok, written := WriteBytes(s, ToLE(|payload|, 4));
      assert all[..4] == ToLE(|payload|, 4);
      assert ToLE(|payload|, 4)[..written] == all[..written];
      if !ok { return; }
      ghost var h1, cs1 := heap, chains;
      ghost var n;
      ok, n := WriteBytes(s, ToLE(s.index, 4));
      assert all[4..8] == ToLE(s.index, 4);
      written := 4 + n;
      AppendedTwice(h0, cs0, h1, cs1, heap, chains, s, all[..4], ToLE(s.index, 4)[..n], all[..written]);
      if !ok { return; }
      ghost var h2, cs2 := heap, chains;
      ok, n := WriteBytes(s, payload);
      assert all[8..] == payload;
      written := 8 + n;
      AppendedTwice(h0, cs0, h2, cs2, heap, chains, s, all[..8], payload[..n], all[..written]);
    }

    // -------------------------------------------------------------------------
    // Splice
    // -------------------------------------------------------------------------

    /** Delivers src's chain to dst without copying. */
    method ChainOnto(dst: Slot, src: Slot, ghost ps: seq<nat>, ghost qs: seq<nat>)
      requires Shows(mem, heap) && Holds(heap, dst, ps) && Holds(heap, src, qs) && NoShared(ps, qs) && dst != src
      modifies this`mem, this`heap
      ensures Shows(mem, heap) && |mem| == old(|mem|)
      ensures Holds(heap, dst, ps + qs) && Contents(heap, ps + qs) == Contents(old(heap), ps) + Contents(old(heap), qs)
      ensures Holds(heap, src, qs) && Contents(heap, qs) == Contents(old(heap), qs)
      ensures forall o, os :: o != dst && Holds(old(heap), o, os) && NoShared(ps, os) ==>
                                Holds(heap, o, os) && Contents(heap, os) == Contents(old(heap), os)
    {
      ghost var was := heap;
      SpliceReads(was, dst, src, ps, qs, Splice(was, dst, src));
      forall o, os | o != dst && Holds(was, o, os) && NoShared(ps, os)
        ensures Holds(Splice(was, dst, src), o, os) && Contents(Splice(was, dst, src), os) == Contents(was, os)
      {
        SpliceOthers(was, dst, src, ps, qs, o, os);
      }
      var src_head := GetHead(src);
      if src_head == 0 { return; }
      var src_tail := GetTail(src);
      var dst_tail := GetTail(dst);
      if dst_tail == 0 {
        SetHead(dst, src_head);
      } else {
        SetNext(dst_tail, src_head);
      }
      SetTail(dst, src_tail);
      assert heap == Splice(was, dst, src);
    }

    // -------------------------------------------------------------------------
    // Readers
    // -------------------------------------------------------------------------

    /** The next n bytes behind the read position, across pages; None when the chain ends first. */
    method ReadN(page: nat, c: nat, n: nat, ghost ps: seq<nat>, ghost b: seq<Byte>)
      returns (r: Option<seq<Byte>>, page': nat, c': nat, ghost ps': seq<nat>)
      requires Shows(mem, heap) && Reading(heap, ps, page, c, b)
      ensures r == if n <= |b| then Some(b[..n]) else None
      ensures n <= |b| ==> Reading(heap, ps', page', c', b[n..])
    {
      page', c', ps' := page, c, ps;
      var buf := [];
      ghost var rest := b;
      while |buf| < n
        invariant |buf| <= n && b == buf + rest
        invariant Reading(heap, ps', page', c', rest)
        decreases |ps'|, n - |buf|
      {
        ReadingHere(heap, ps', page', c', rest);
        if page' == 0 { return None, page', c', ps'; }
        var written := GetCursor(page');
        var avail := written - c';
        if avail == 0 {
          ReadingNext(heap, ps', page', c', rest);
          page' := GetNext(page');
          c', ps' := 0, ps'[1..];
          continue;
        }
        var take := if avail < n - |buf| then avail else n - |buf|;
        ReadingTake(heap, ps', page', c', rest, take);
        var piece := GetData(page', c', take);
        buf := buf + piece;
        rest := rest[take..];
        c' := c' + take;
      }
      assert rest == b[n..];
      r := Some(buf);
    }

    /** All records of a chain. */
    method ReadChain(head: nat, ghost ps: seq<nat>) returns (records: seq<Record>)
      requires Shows(mem, heap) && Linked(heap, ps) && head == First(ps)
      ensures records == Decode(Contents(heap, ps))
    {
      StartReading(heap, ps);
      records := ReadFrom(head, ps, Contents(heap, ps));
    }

    method ReadFrom(head: nat, ghost ps: seq<nat>, ghost all: seq<Byte>) returns (records: seq<Record>)
      requires Shows(mem, heap) && Reading(heap, ps, head, 0, all)
      ensures records == Decode(all)
    {
      records := [];
      var page, c := head, 0;
      ghost var qs, b := ps, all;
      while true
        invariant Reading(heap, qs, page, c, b)
        invariant records + Decode(b) == Decode(all)
        decreases |b|
      {
        var lb: Option<seq<Byte>>;
        lb, page, c, qs := ReadN(page, c, 4, qs, b);
        if lb.None? { break; }
        var plen := FromLE(lb.value);
        if plen > MAX_PAYLOAD { break; }
        var ob: Option<seq<Byte>>;
        ob, page, c, qs := ReadN(page, c, 4, qs, b[4..]);
        if ob.None? { break; }
        assert b[4..][4..] == b[8..] && b[4..][..4] == b[4..8];
        var payload: Option<seq<Byte>>;
        payload, page, c, qs := ReadN(page, c, plen, qs, b[8..]);
        if payload.None? { break; }
        assert b[8..][plen..] == b[8 + plen..] && b[8..][..plen] == b[8..8 + plen];
        records := records + [Record(FromLE(ob.value), payload.value)];
        b := b[8 + plen..];
      }
    }

    /** Moves the read position n bytes on without reading; false when the chain ends first. */
    method Skip(page: nat, c: nat, n: nat, ghost ps: seq<nat>, ghost b: seq<Byte>)
      returns (ok: bool, page': nat, c': nat, ghost ps': seq<nat>)
      requires Shows(mem, heap) && Reading(heap, ps, page, c, b)
      ensures ok <==> n <= |b|
      ensures ok ==> Reading(heap, ps', page', c', b[n..])
    {
      page', c', ps' := page, c, ps;
      var rem := n;
      ghost var rest := b;
      while rem > 0
        invariant 0 <= rem <= n && n - rem <= |b| && rest == b[n - rem..]
        invariant Reading(heap, ps', page', c', rest)
        decreases |ps'|, rem
      {
        ReadingHere(heap, ps', page', c', rest);
        if page' == 0 { return false, page', c', ps'; }
        var written := GetCursor(page');
        var avail := written - c';
        if avail == 0 {
          ReadingNext(heap, ps', page', c', rest);
          var next := GetNext(page');
          if next == 0 { return false, page', c', ps'; }
          page', c', ps' := next, 0, ps'[1..];
          continue;
        }
        var take := if avail < rem then avail else rem;
        ReadingTake(heap, ps', page', c', rest, take);
        c' := c' + take;
        rest := rest[take..];
        rem := rem - take;
      }
      assert rest == b[n..];
      ok := true;
    }

    /** The number of records of a chain, reading only the length fields. */
    method CountChain(head: nat, ghost ps: seq<nat>) returns (count: nat)
      requires Shows(mem, heap) && Linked(heap, ps) && head == First(ps)
      ensures count == Count(Contents(heap, ps))
    {
      StartReading(heap, ps);
      count := CountFrom(head, ps, Contents(heap, ps));
    }

    method CountFrom(head: nat, ghost ps: seq<nat>, ghost all: seq<Byte>) returns (count: nat)
      requires Shows(mem, heap) && Reading(heap, ps, head, 0, all)
      ensures count == Count(all)
    {
      count := 0;
      var page, c := head, 0;
      ghost var qs, b := ps, all;
      while true
        invariant Reading(heap, qs, page, c, b)
        invariant count + Count(b) == Count(all)
        decreases |b|
      {
        var lb: Option<seq<Byte>>;
        lb, page, c, qs := ReadN(page, c, 4, qs, b);
        if lb.None? { break; }
        var plen := FromLE(lb.value);
        var ok;
        ok, page, c, qs := Skip(page, c, 4 + plen, qs, b[4..]);
        if !ok { break; }
        assert b[4..][4 + plen..] == b[8 + plen..];
        b := b[8 + plen..];
        count := count + 1;
      }
    }
  }
}
