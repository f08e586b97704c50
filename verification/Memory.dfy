/**
  The shared-memory file as flat bytes, and its structured view: bump pointer, slot
  heads and tails, and pages (Executor/py_guest/python/shm.py).
 */
module Memory {
  import opened Bytes

  const PAGE_SIZE: nat := 4096
  const PAGE_DATA_OFFSET: nat := 12
  const PAGE_DATA_SIZE: nat := 4084
  const STREAM_SLOTS: nat := 2048
  const IO_SLOTS: nat := 512
  const BUMP_AT: nat := 4
  const WRITER_HEADS: nat := 160
  const WRITER_TAILS: nat := 16544
  const IO_HEADS: nat := 32928
  const IO_TAILS: nat := 37024
  const BUMP_START: nat := 18927616

  datatype Slot = Stream(index: nat) | Io(index: nat)

  predicate IsSlot(s: Slot) {
    s.index < (if s.Stream? then STREAM_SLOTS else IO_SLOTS)
  }

  function HeadAt(s: Slot): nat {
    (if s.Stream? then WRITER_HEADS else IO_HEADS) + 8 * s.index
  }

  function TailAt(s: Slot): nat {
    (if s.Stream? then WRITER_TAILS else IO_TAILS) + 8 * s.index
  }

  /** A page lies on the page grid above the superblock and arenas, inside the memory. */
  predicate IsPage(p: nat, size: nat) {
    p >= BUMP_START && (p - BUMP_START) % PAGE_SIZE == 0 && p + PAGE_SIZE <= size
  }

  lemma {:induction false} PagesApart(p: nat, q: nat, size: nat)
    requires IsPage(p, size) && IsPage(q, size) && p != q
    ensures p + PAGE_SIZE <= q || q + PAGE_SIZE <= p
  {
    var i, j := (p - BUMP_START) / PAGE_SIZE, (q - BUMP_START) / PAGE_SIZE;
    assert p == BUMP_START + i * PAGE_SIZE && q == BUMP_START + j * PAGE_SIZE;
    if i < j { assert (j - i) * PAGE_SIZE >= PAGE_SIZE; } else { assert (i - j) * PAGE_SIZE >= PAGE_SIZE; }
  }

  // ---------------------------------------------------------------------------
  // View
  // ---------------------------------------------------------------------------

  datatype Page = Page(next: nat, cursor: nat, data: seq<Byte>)

  datatype Heap = Heap(bump: nat, heads: map<Slot, nat>, tails: map<Slot, nat>, pages: map<nat, Page>)

  function U32At(mem: seq<Byte>, off: nat): nat
    requires off + 4 <= |mem|
  {
    FromLE(Get(mem, off, 4))
  }

  function U64At(mem: seq<Byte>, off: nat): nat
    requires off + 8 <= |mem|
  {
    FromLE(Get(mem, off, 8))
  }

  function PageAt(mem: seq<Byte>, p: nat): Page
    requires IsPage(p, |mem|)
  {
    Page(U64At(mem, p), U32At(mem, p + 8), Get(mem, p + PAGE_DATA_OFFSET, PAGE_DATA_SIZE))
  }

  ghost function AllSlots(): (r: set<Slot>)
    ensures forall s :: s in r <==> IsSlot(s)
  {
    (set i: nat | i < STREAM_SLOTS :: Stream(i)) + (set i: nat | i < IO_SLOTS :: Io(i))
  }

  ghost function AllPages(size: nat): (r: set<nat>)
    ensures forall p :: p in r <==> IsPage(p, size)
  {
    set p: nat | p < size && IsPage(p, size)
  }

  ghost function Heads(mem: seq<Byte>): map<Slot, nat>
    requires |mem| >= BUMP_START
  {
    map s | s in AllSlots() :: U64At(mem, HeadAt(s))
  }

  ghost function Tails(mem: seq<Byte>): map<Slot, nat>
    requires |mem| >= BUMP_START
  {
    map s | s in AllSlots() :: U64At(mem, TailAt(s))
  }

  ghost function Pages(mem: seq<Byte>): map<nat, Page> {
    map p | p in AllPages(|mem|) :: PageAt(mem, p)
  }

  ghost function View(mem: seq<Byte>): Heap
    requires |mem| >= BUMP_START
  {
    Heap(U32At(mem, BUMP_AT), Heads(mem), Tails(mem), Pages(mem))
  }

  // ---------------------------------------------------------------------------
  // What a write leaves alone
  // ---------------------------------------------------------------------------

  lemma {:induction false} HeadCellFrame(mem: seq<Byte>, off: nat, b: seq<Byte>, s: Slot)
    requires |mem| >= BUMP_START && off + |b| <= |mem| && IsSlot(s)
    requires HeadAt(s) + 8 <= off || off + |b| <= HeadAt(s)
    ensures U64At(Put(mem, off, b), HeadAt(s)) == U64At(mem, HeadAt(s))
  {
    GetPutOther(mem, off, b, HeadAt(s), 8);
  }

  lemma {:induction false} TailCellFrame(mem: seq<Byte>, off: nat, b: seq<Byte>, s: Slot)
    requires |mem| >= BUMP_START && off + |b| <= |mem| && IsSlot(s)
    requires TailAt(s) + 8 <= off || off + |b| <= TailAt(s)
    ensures U64At(Put(mem, off, b), TailAt(s)) == U64At(mem, TailAt(s))
  {
    GetPutOther(mem, off, b, TailAt(s), 8);
  }

  lemma {:induction false} PageFrame(mem: seq<Byte>, off: nat, b: seq<Byte>, p: nat)
    requires off + |b| <= |mem| && IsPage(p, |mem|)
    requires p + PAGE_SIZE <= off || off + |b| <= p
    ensures PageAt(Put(mem, off, b), p) == PageAt(mem, p)
  {
    GetPutOther(mem, off, b, p, 8);
    GetPutOther(mem, off, b, p + 8, 4);
    GetPutOther(mem, off, b, p + PAGE_DATA_OFFSET, PAGE_DATA_SIZE);
  }

  /** A write that touches no head cell. */
  lemma {:induction false} HeadsFrame(mem: seq<Byte>, off: nat, b: seq<Byte>)
    requires |mem| >= BUMP_START && off + |b| <= |mem|
    requires off + |b| <= WRITER_HEADS || (WRITER_TAILS <= off && off + |b| <= IO_HEADS) || IO_TAILS <= off
    ensures Heads(Put(mem, off, b)) == Heads(mem)
  {
    forall s | s in AllSlots() ensures U64At(Put(mem, off, b), HeadAt(s)) == U64At(mem, HeadAt(s)) {
      HeadCellFrame(mem, off, b, s);
    }
  }

  /** A write that touches no tail cell. */
  lemma {:induction false} TailsFrame(mem: seq<Byte>, off: nat, b: seq<Byte>)
    requires |mem| >= BUMP_START && off + |b| <= |mem|
    requires off + |b| <= WRITER_TAILS || (IO_HEADS <= off && off + |b| <= IO_TAILS) || IO_TAILS + 8 * IO_SLOTS <= off
    ensures Tails(Put(mem, off, b)) == Tails(mem)
  {
    forall s | s in AllSlots() ensures U64At(Put(mem, off, b), TailAt(s)) == U64At(mem, TailAt(s)) {
      TailCellFrame(mem, off, b, s);
    }
  }

  /** A write below the page area. */
  lemma {:induction false} PagesFrame(mem: seq<Byte>, off: nat, b: seq<Byte>)
    requires off + |b| <= |mem| && off + |b| <= BUMP_START
    ensures Pages(Put(mem, off, b)) == Pages(mem)
  {
    forall p | p in AllPages(|mem|) ensures PageAt(Put(mem, off, b), p) == PageAt(mem, p) {
      PageFrame(mem, off, b, p);
    }
  }

  // ---------------------------------------------------------------------------
  // Each primitive write changes one component of the view
  // ---------------------------------------------------------------------------

  lemma {:induction false} ReadBack8(mem: seq<Byte>, off: nat, b: seq<Byte>)
    requires off + 8 <= |mem| && |b| == 8
    ensures U64At(Put(mem, off, b), off) == FromLE(b)
  {
    GetPutSame(mem, off, b);
  }

  lemma {:induction false} ReadBack4(mem: seq<Byte>, off: nat, b: seq<Byte>)
    requires off + 4 <= |mem| && |b| == 4
    ensures U32At(Put(mem, off, b), off) == FromLE(b)
  {
    GetPutSame(mem, off, b);
  }

  lemma {:induction false} U64Frame(mem: seq<Byte>, off: nat, b: seq<Byte>, at: nat)
    requires off + |b| <= |mem| && at + 8 <= |mem| && (at + 8 <= off || off + |b| <= at)
    ensures U64At(Put(mem, off, b), at) == U64At(mem, at)
  {
    GetPutOther(mem, off, b, at, 8);
  }

  lemma {:induction false} U32Frame(mem: seq<Byte>, off: nat, b: seq<Byte>, at: nat)
    requires off + |b| <= |mem| && at + 4 <= |mem| && (at + 4 <= off || off + |b| <= at)
    ensures U32At(Put(mem, off, b), at) == U32At(mem, at)
  {
    GetPutOther(mem, off, b, at, 4);
  }

  lemma {:induction false} WriteBump(mem: seq<Byte>, b: seq<Byte>, m: seq<Byte>)
    requires |mem| >= BUMP_START && |b| == 4 && m == Put(mem, BUMP_AT, b)
    ensures View(m) == View(mem).(bump := FromLE(b))
  {
    ReadBack4(mem, BUMP_AT, b);
    HeadsFrame(mem, BUMP_AT, b);
    TailsFrame(mem, BUMP_AT, b);
    PagesFrame(mem, BUMP_AT, b);
  }

  lemma {:induction false} HeadCellsApart(s: Slot, t: Slot)
    requires IsSlot(s) && IsSlot(t) && s != t
    ensures HeadAt(s) + 8 <= HeadAt(t) || HeadAt(t) + 8 <= HeadAt(s)
  {
  }

  lemma {:induction false} HeadStays(mem: seq<Byte>, s: Slot, b: seq<Byte>, t: Slot)
    requires |mem| >= BUMP_START && IsSlot(s) && IsSlot(t) && |b| == 8
    ensures t == s || U64At(Put(mem, HeadAt(s), b), HeadAt(t)) == U64At(mem, HeadAt(t))
  {
    if t != s {
      HeadCellsApart(s, t);
      HeadCellFrame(mem, HeadAt(s), b, t);
    }
  }

  lemma {:induction false} HeadsUpdate(mem: seq<Byte>, s: Slot, b: seq<Byte>, m: seq<Byte>)
    requires |mem| >= BUMP_START && IsSlot(s) && |b| == 8 && m == Put(mem, HeadAt(s), b)
    ensures Heads(m) == Heads(mem)[s := FromLE(b)]
  {
    ReadBack8(mem, HeadAt(s), b);
    forall t | t in AllSlots() ensures t == s || U64At(m, HeadAt(t)) == U64At(mem, HeadAt(t)) {
      HeadStays(mem, s, b, t);
    }
  }

  lemma {:induction false} WriteHead(mem: seq<Byte>, s: Slot, b: seq<Byte>, m: seq<Byte>)
    requires |mem| >= BUMP_START && IsSlot(s) && |b| == 8 && m == Put(mem, HeadAt(s), b)
    ensures View(m) == View(mem).(heads := View(mem).heads[s := FromLE(b)])
  {
    U32Frame(mem, HeadAt(s), b, BUMP_AT);
    HeadsUpdate(mem, s, b, m);
    TailsFrame(mem, HeadAt(s), b);
    PagesFrame(mem, HeadAt(s), b);
  }

  lemma {:induction false} TailCellsApart(s: Slot, t: Slot)
    requires IsSlot(s) && IsSlot(t) && s != t
    ensures TailAt(s) + 8 <= TailAt(t) || TailAt(t) + 8 <= TailAt(s)
  {
  }

  lemma {:induction false} TailStays(mem: seq<Byte>, s: Slot, b: seq<Byte>, t: Slot)
    requires |mem| >= BUMP_START && IsSlot(s) && IsSlot(t) && |b| == 8
    ensures t == s || U64At(Put(mem, TailAt(s), b), TailAt(t)) == U64At(mem, TailAt(t))
  {
    if t != s {
      TailCellsApart(s, t);
      TailCellFrame(mem, TailAt(s), b, t);
    }
  }

  lemma {:induction false} TailsUpdate(mem: seq<Byte>, s: Slot, b: seq<Byte>, m: seq<Byte>)
    requires |mem| >= BUMP_START && IsSlot(s) && |b| == 8 && m == Put(mem, TailAt(s), b)
    ensures Tails(m) == Tails(mem)[s := FromLE(b)]
  {
    ReadBack8(mem, TailAt(s), b);
    forall t | t in AllSlots() ensures t == s || U64At(m, TailAt(t)) == U64At(mem, TailAt(t)) {
      TailStays(mem, s, b, t);
    }
  }

  lemma {:induction false} WriteTail(mem: seq<Byte>, s: Slot, b: seq<Byte>, m: seq<Byte>)
    requires |mem| >= BUMP_START && IsSlot(s) && |b| == 8 && m == Put(mem, TailAt(s), b)
    ensures View(m) == View(mem).(tails := View(mem).tails[s := FromLE(b)])
  {
    U32Frame(mem, TailAt(s), b, BUMP_AT);
    TailsUpdate(mem, s, b, m);
    HeadsFrame(mem, TailAt(s), b);
    PagesFrame(mem, TailAt(s), b);
  }

  /** A write inside page p, given what it does to that page. */
  lemma {:induction false} WriteInPage(mem: seq<Byte>, p: nat, off: nat, b: seq<Byte>, page: Page)
    requires |mem| >= BUMP_START && IsPage(p, |mem|) && p <= off && off + |b| <= p + PAGE_SIZE
    requires PageAt(Put(mem, off, b), p) == page
    ensures View(Put(mem, off, b)) == View(mem).(pages := View(mem).pages[p := page])
  {
    GetPutOther(mem, off, b, BUMP_AT, 4);
    HeadsFrame(mem, off, b);
    TailsFrame(mem, off, b);
    forall q | q in AllPages(|mem|) && q != p ensures PageAt(Put(mem, off, b), q) == PageAt(mem, q) {
      PagesApart(p, q, |mem|);
      PageFrame(mem, off, b, q);
    }
    assert Pages(Put(mem, off, b)) == Pages(mem)[p := page];
  }

  lemma {:induction false} NextWritten(mem: seq<Byte>, p: nat, b: seq<Byte>)
    requires IsPage(p, |mem|) && |b| == 8
    ensures PageAt(Put(mem, p, b), p) == PageAt(mem, p).(next := FromLE(b))
  {
    ReadBack8(mem, p, b);
    U32Frame(mem, p, b, p + 8);
    GetPutOther(mem, p, b, p + PAGE_DATA_OFFSET, PAGE_DATA_SIZE);
  }

  lemma {:induction false} CursorWritten(mem: seq<Byte>, p: nat, b: seq<Byte>)
    requires IsPage(p, |mem|) && |b| == 4
    ensures PageAt(Put(mem, p + 8, b), p) == PageAt(mem, p).(cursor := FromLE(b))
  {
    ReadBack4(mem, p + 8, b);
    U64Frame(mem, p + 8, b, p);
    GetPutOther(mem, p + 8, b, p + PAGE_DATA_OFFSET, PAGE_DATA_SIZE);
  }

  lemma {:induction false} DataWritten(mem: seq<Byte>, p: nat, at: nat, b: seq<Byte>)
    requires IsPage(p, |mem|) && at + |b| <= PAGE_DATA_SIZE
    ensures PageAt(Put(mem, p + PAGE_DATA_OFFSET + at, b), p)
         == PageAt(mem, p).(data := Put(PageAt(mem, p).data, at, b))
  {
    var off := p + PAGE_DATA_OFFSET + at;
    U64Frame(mem, off, b, p);
    U32Frame(mem, off, b, p + 8);
    GetPutInside(mem, off, b, p + PAGE_DATA_OFFSET, PAGE_DATA_SIZE);
  }

  lemma {:induction false} WriteNext(mem: seq<Byte>, p: nat, b: seq<Byte>, m: seq<Byte>, page: Page)
    requires |mem| >= BUMP_START && IsPage(p, |mem|) && |b| == 8
    requires m == Put(mem, p, b) && page == PageAt(mem, p)
    ensures View(m) == View(mem).(pages := View(mem).pages[p := page.(next := FromLE(b))])
  {
    NextWritten(mem, p, b);
    WriteInPage(mem, p, p, b, page.(next := FromLE(b)));
  }

  lemma {:induction false} WriteCursor(mem: seq<Byte>, p: nat, b: seq<Byte>, m: seq<Byte>, page: Page)
    requires |mem| >= BUMP_START && IsPage(p, |mem|) && |b| == 4
    requires m == Put(mem, p + 8, b) && page == PageAt(mem, p)
    ensures View(m) == View(mem).(pages := View(mem).pages[p := page.(cursor := FromLE(b))])
  {
    CursorWritten(mem, p, b);
    WriteInPage(mem, p, p + 8, b, page.(cursor := FromLE(b)));
  }

  lemma {:induction false} WriteData(mem: seq<Byte>, p: nat, at: nat, b: seq<Byte>, m: seq<Byte>, page: Page)
    requires |mem| >= BUMP_START && IsPage(p, |mem|) && at + |b| <= PAGE_DATA_SIZE
    requires m == Put(mem, p + PAGE_DATA_OFFSET + at, b) && page == PageAt(mem, p)
    ensures View(m) == View(mem).(pages := View(mem).pages[p := page.(data := Put(page.data, at, b))])
  {
    DataWritten(mem, p, at, b);
    WriteInPage(mem, p, p + PAGE_DATA_OFFSET + at, b, page.(data := Put(page.data, at, b)));
  }
}
