/** Page chains over the heap view: linkage, contents, growth and splicing. */
module Chains {
  import opened Prelude
  import opened Sequences
  import opened Bytes
  import opened Memory

  predicate ValidPage(h: Heap, p: nat) {
    p in h.pages && h.pages[p].cursor <= PAGE_DATA_SIZE && |h.pages[p].data| == PAGE_DATA_SIZE
  }

  function Content(h: Heap, p: nat): seq<Byte> {
    if ValidPage(h, p) then h.pages[p].data[..h.pages[p].cursor] else []
  }

  /** All bytes of a list of pages, in order. */
  function Contents(h: Heap, ps: seq<nat>): seq<Byte> {
    if ps == [] then [] else Content(h, ps[0]) + Contents(h, ps[1..])
  }

  lemma {:induction false} ContentsConcat(h: Heap, ps: seq<nat>, qs: seq<nat>)
    ensures Contents(h, ps + qs) == Contents(h, ps) + Contents(h, qs)
  {
    if ps == [] {
      assert ps + qs == qs;
    } else {
      assert (ps + qs)[1..] == ps[1..] + qs;
      ContentsConcat(h, ps[1..], qs);
    }
  }

  lemma {:induction false} ContentsFrame(h: Heap, k: Heap, ps: seq<nat>)
    requires forall p :: p in ps ==> Content(h, p) == Content(k, p)
    ensures Contents(h, ps) == Contents(k, ps)
  {
    if ps != [] { ContentsFrame(h, k, ps[1..]); }
  }

  /** ps are valid, pairwise distinct pages, each pointing to the next and the last to nothing. */
  ghost predicate Linked(h: Heap, ps: seq<nat>) {
    && (forall i :: 0 <= i < |ps| ==> ps[i] != 0 && ValidPage(h, ps[i]))
    && (forall i, j :: 0 <= i < j < |ps| ==> ps[i] != ps[j])
    && (forall i, j :: 0 <= i && j == i + 1 && j < |ps| ==> h.pages[ps[i]].next == ps[j])
    && (ps != [] ==> h.pages[ps[|ps| - 1]].next == 0)
  }

  function First(ps: seq<nat>): nat { if ps == [] then 0 else ps[0] }

  function Last(ps: seq<nat>): nat { if ps == [] then 0 else ps[|ps| - 1] }

  /** The slot's head and tail cells delimit the chain ps. */
  ghost predicate Holds(h: Heap, s: Slot, ps: seq<nat>) {
    && Linked(h, ps) && s in h.heads && s in h.tails
    && h.heads[s] == First(ps) && h.tails[s] == Last(ps)
  }

  lemma {:induction false} LinkedFrame(h: Heap, k: Heap, ps: seq<nat>)
    requires Linked(h, ps)
    requires forall p :: p in ps ==> p in k.pages && k.pages[p] == h.pages[p]
    ensures Linked(k, ps) && Contents(k, ps) == Contents(h, ps)
  {
    forall i | 0 <= i < |ps| ensures ps[i] in k.pages && k.pages[ps[i]] == h.pages[ps[i]] {
      assert ps[i] in ps;
    }
    ContentsFrame(h, k, ps);
  }

  // ---------------------------------------------------------------------------
  // The whole heap: one disjoint chain per slot
  // ---------------------------------------------------------------------------

  type Chains = map<Slot, seq<nat>>

  ghost predicate Disjoint(cs: Chains) {
    forall s, t, p :: s in cs && t in cs && p in cs[s] && p in cs[t] ==> s == t
  }

  ghost predicate Below(cs: Chains, bound: nat) {
    forall s, p :: s in cs && p in cs[s] ==> p < bound
  }

  ghost predicate AllHold(h: Heap, cs: Chains) {
    forall s :: s in cs ==> Holds(h, s, cs[s])
  }

  predicate OnGrid(bump: nat) {
    bump >= BUMP_START && (bump - BUMP_START) % PAGE_SIZE == 0
  }

  // ---------------------------------------------------------------------------
  // How many pages the chains take
  // ---------------------------------------------------------------------------

  const SLOTS: nat := 2560

  function SlotAt(i: nat): (s: Slot)
    ensures i < SLOTS ==> IsSlot(s)
  {
    if i < STREAM_SLOTS then Stream(i) else Io(i - STREAM_SLOTS)
  }

  function SlotNumber(s: Slot): (i: nat)
    ensures IsSlot(s) ==> i < SLOTS && SlotAt(i) == s
  {
    if s.Stream? then s.index else STREAM_SLOTS + s.index
  }

  /** The length of every slot's chain. */
  ghost function Lengths(cs: Chains): (r: seq<nat>)
    requires cs.Keys == AllSlots()
    ensures |r| == SLOTS
  {
    seq(SLOTS, i requires 0 <= i < SLOTS => |cs[SlotAt(i)]|)
  }

  ghost predicate Counted(bump: nat, cs: Chains) {
    cs.Keys == AllSlots() && bump == BUMP_START + PAGE_SIZE * Sum(Lengths(cs))
  }

  lemma {:induction false} OneLonger(cs: Chains, s: Slot, n: nat, ds: Chains)
    requires cs.Keys == AllSlots() && IsSlot(s) && ds == cs[s := cs[s] + [n]]
    ensures ds.Keys == AllSlots() && Sum(Lengths(ds)) == Sum(Lengths(cs)) + 1
  {
    var i := SlotNumber(s);
    assert forall j :: 0 <= j < SLOTS && j != i ==> SlotAt(j) != s;
    assert Lengths(ds) == Lengths(cs)[i := |cs[s]| + 1];
    SumUpdate(Lengths(cs), i, |cs[s]| + 1);
  }

  /** Every page but the last is full. */
  ghost predicate FullBut(h: Heap, ps: seq<nat>) {
    forall i :: 0 <= i < |ps| - 1 ==> ValidPage(h, ps[i]) && h.pages[ps[i]].cursor == PAGE_DATA_SIZE
  }

  ghost predicate AllFullBut(h: Heap, cs: Chains) {
    forall s :: s in cs ==> FullBut(h, cs[s])
  }

  /** A chain of pages, all full but the last, holds that many bytes. */
  lemma {:induction false} FullLength(h: Heap, ps: seq<nat>)
    requires Linked(h, ps) && FullBut(h, ps) && ps != []
    ensures |Contents(h, ps)| == PAGE_DATA_SIZE * (|ps| - 1) + h.pages[Last(ps)].cursor
  {
    if |ps| > 1 {
      var qs := ps[1..];
      forall i | 0 <= i < |qs| ensures qs[i] == ps[i + 1] {}
      LinkedTail(h, ps);
      FullLength(h, qs);
      assert |Content(h, ps[0])| == PAGE_DATA_SIZE;
    } else {
      assert ps[1..] == [];
    }
  }

  lemma {:induction false} LinkedTail(h: Heap, ps: seq<nat>)
    requires Linked(h, ps) && ps != []
    ensures Linked(h, ps[1..])
  {
    var qs := ps[1..];
    forall i | 0 <= i < |qs| ensures qs[i] == ps[i + 1] {}
  }

  /** Every slot holds its chain, chains share no page, only last pages have room, all pages lie below the bump
      pointer, and the bump pointer counts them. */
  ghost predicate Inv(h: Heap, cs: Chains) {
    && cs.Keys == AllSlots()
    && AllHold(h, cs) && Disjoint(cs) && Below(cs, h.bump) && OnGrid(h.bump)
    && AllFullBut(h, cs) && Counted(h.bump, cs)
  }

  /** A fresh, empty page at the bump pointer. */
  function Fresh(h: Heap, data: seq<Byte>): Heap {
    h.(bump := h.bump + PAGE_SIZE, pages := h.pages[h.bump := Page(0, 0, data)])
  }

  /** The fresh page becomes the tail of slot s (and its head, if the chain was empty). */
  function Grow(h: Heap, s: Slot, data: seq<Byte>): Heap
    requires s in h.tails && s in h.heads
  {
    var new_, f := h.bump, Fresh(h, data);
    if h.tails[s] == 0 then f.(heads := f.heads[s := new_], tails := f.tails[s := new_])
    else if h.tails[s] in f.pages then
      f.(pages := f.pages[h.tails[s] := f.pages[h.tails[s]].(next := new_)], tails := f.tails[s := new_])
    else f
  }

  /** Appending page n to a linked chain, given how the pages changed. */
  lemma {:induction false} GrowLinks(h: Heap, k: Heap, ps: seq<nat>, n: nat, data: seq<Byte>)
    requires Linked(h, ps) && n !in ps && n != 0 && |data| == PAGE_DATA_SIZE
    requires n in k.pages && k.pages[n] == Page(0, 0, data)
    requires forall p :: p in ps && p != Last(ps) ==> p in k.pages && k.pages[p] == h.pages[p]
    requires ps != [] ==> Last(ps) in k.pages && k.pages[Last(ps)] == h.pages[Last(ps)].(next := n)
    ensures Linked(k, ps + [n])
  {
    var qs := ps + [n];
    forall i | 0 <= i < |ps| ensures ps[i] in ps && ValidPage(k, ps[i]) {}
    forall i, j | 0 <= i && j == i + 1 && j < |qs| ensures k.pages[qs[i]].next == qs[j] {
      if j < |ps| { assert ps[i] != ps[|ps| - 1]; }
    }
  }

  lemma {:induction false} GrowContents(h: Heap, k: Heap, ps: seq<nat>, n: nat, data: seq<Byte>)
    requires n in k.pages && k.pages[n] == Page(0, 0, data)
    requires forall p :: p in ps ==> Content(k, p) == Content(h, p)
    ensures Contents(k, ps + [n]) == Contents(h, ps)
  {
    ContentsConcat(k, ps, [n]);
    assert Contents(k, [n]) == [] by { assert [n][1..] == []; }
    ContentsFrame(h, k, ps);
  }

  lemma {:induction false} GrowOne(h: Heap, cs: Chains, s: Slot, data: seq<Byte>, ps: seq<nat>, k: Heap)
    requires Inv(h, cs) && s in cs && h.bump in h.pages && |data| == PAGE_DATA_SIZE && ps == cs[s]
    requires s in h.heads && s in h.tails && k == Grow(h, s, data)
    ensures Holds(k, s, ps + [h.bump])
    ensures Contents(k, ps + [h.bump]) == Contents(h, ps)
  {
    assert Holds(h, s, ps);
    assert ps != [] ==> Last(ps) in ps && ps[|ps| - 1] != 0;
    GrowLinks(h, k, ps, h.bump, data);
    forall p | p in ps ensures Content(k, p) == Content(h, p) {}
    GrowContents(h, k, ps, h.bump, data);
  }

  lemma {:induction false} GrowOther(h: Heap, cs: Chains, s: Slot, data: seq<Byte>, t: Slot)
    requires Inv(h, cs) && s in cs && t in cs && t != s && h.bump in h.pages
    ensures Holds(Grow(h, s, data), t, cs[t]) && Contents(Grow(h, s, data), cs[t]) == Contents(h, cs[t])
  {
    var ps, k := cs[s], Grow(h, s, data);
    assert Holds(h, s, ps) && Holds(h, t, cs[t]);
    forall p | p in cs[t] ensures p in k.pages && k.pages[p] == h.pages[p] {
      if ps != [] { assert ps[|ps| - 1] in ps; }
    }
    LinkedFrame(h, k, cs[t]);
  }

  lemma {:induction false} GrowDisjoint(cs: Chains, s: Slot, n: nat, ds: Chains)
    requires Disjoint(cs) && s in cs && Below(cs, n) && ds == cs[s := cs[s] + [n]]
    ensures Disjoint(ds) && Below(ds, n + PAGE_SIZE)
  {
    forall t, p | t in ds && p in ds[t] ensures p in cs[t] || (t == s && p == n) {}
  }

  lemma {:induction false} GrowAll(h: Heap, cs: Chains, s: Slot, data: seq<Byte>, k: Heap, ds: Chains, t: Slot)
    requires Inv(h, cs) && s in cs && h.bump in h.pages && |data| == PAGE_DATA_SIZE && t in cs
    requires s in h.heads && s in h.tails && k == Grow(h, s, data) && ds == cs[s := cs[s] + [h.bump]]
    ensures Holds(k, t, ds[t]) && Contents(k, ds[t]) == Contents(h, cs[t])
  {
    if t == s { GrowOne(h, cs, s, data, cs[s], k); } else { GrowOther(h, cs, s, data, t); }
  }

  lemma {:induction false} GrowBump(h: Heap, s: Slot, data: seq<Byte>, k: Heap)
    requires s in h.heads && s in h.tails && k == Grow(h, s, data) && OnGrid(h.bump)
    ensures k.bump == h.bump + PAGE_SIZE && OnGrid(k.bump)
  {
  }

  ghost predicate SameContents(h: Heap, cs: Chains, k: Heap, ds: Chains) {
    forall t :: t in cs && t in ds ==> Contents(k, ds[t]) == Contents(h, cs[t])
  }

  lemma {:induction false} GrowHolds(h: Heap, cs: Chains, s: Slot, data: seq<Byte>, k: Heap, ds: Chains)
    requires Inv(h, cs) && s in cs && h.bump in h.pages && |data| == PAGE_DATA_SIZE
    requires s in h.heads && s in h.tails && k == Grow(h, s, data) && ds == cs[s := cs[s] + [h.bump]]
    ensures AllHold(k, ds) && SameContents(h, cs, k, ds)
  {
    forall t | t in ds ensures Holds(k, t, ds[t]) && Contents(k, ds[t]) == Contents(h, cs[t]) {
      GrowAll(h, cs, s, data, k, ds, t);
    }
  }

  lemma {:induction false} InvIntro(k: Heap, ds: Chains)
    requires ds.Keys == AllSlots() && AllHold(k, ds) && Disjoint(ds) && Below(ds, k.bump) && OnGrid(k.bump)
    requires AllFullBut(k, ds) && Counted(k.bump, ds)
    ensures Inv(k, ds)
  {
  }

  /** The chain is empty or its last page is full. */
  ghost predicate NoRoom(h: Heap, ps: seq<nat>) {
    ps != [] ==> ValidPage(h, Last(ps)) && h.pages[Last(ps)].cursor == PAGE_DATA_SIZE
  }

  /** The chain is empty or its last page is in use. */
  ghost predicate Used(h: Heap, ps: seq<nat>) {
    ps != [] ==> ValidPage(h, Last(ps)) && h.pages[Last(ps)].cursor >= 1
  }

  /** A heap change that touches cursors at page p at most. */
  ghost predicate CursorsKept(h: Heap, k: Heap, p: nat) {
    forall q :: q in h.pages && q != p ==> ValidPage(h, q) ==> ValidPage(k, q) && k.pages[q].cursor == h.pages[q].cursor
  }

  lemma {:induction false} FullButKept(h: Heap, k: Heap, ps: seq<nat>, p: nat)
    requires FullBut(h, ps) && CursorsKept(h, k, p) && forall i :: 0 <= i < |ps| - 1 ==> ps[i] != p
    ensures FullBut(k, ps)
  {
  }

  lemma {:induction false} UsedKept(h: Heap, k: Heap, ps: seq<nat>, p: nat)
    requires Used(h, ps) && CursorsKept(h, k, p) && p !in ps
    ensures Used(k, ps)
  {
    if ps != [] { assert Last(ps) in ps; }
  }

  lemma {:induction false} GrowCursors(h: Heap, s: Slot, data: seq<Byte>, k: Heap)
    requires s in h.heads && s in h.tails && k == Grow(h, s, data)
    ensures CursorsKept(h, k, h.bump)
  {
  }

  lemma {:induction false} GrowFullBut(h: Heap, cs: Chains, s: Slot, data: seq<Byte>, k: Heap, ds: Chains, t: Slot)
    requires Inv(h, cs) && s in cs && t in cs && NoRoom(h, cs[s])
    requires s in h.heads && s in h.tails && k == Grow(h, s, data) && ds == cs[s := cs[s] + [h.bump]]
    ensures FullBut(k, ds[t])
  {
    GrowCursors(h, s, data, k);
    assert forall p :: p in cs[t] ==> p < h.bump;
    assert forall i :: 0 <= i < |cs[t]| ==> cs[t][i] in cs[t];
    assert FullBut(h, cs[t]) && Holds(h, t, cs[t]);
    FullButKept(h, k, cs[t], h.bump);
    if t == s {
      var ps := cs[s];
      forall i | 0 <= i < |ps + [h.bump]| - 1
        ensures ValidPage(k, (ps + [h.bump])[i]) && k.pages[(ps + [h.bump])[i]].cursor == PAGE_DATA_SIZE
      {
        assert i == |ps| - 1 ==> ps[i] == Last(ps);
      }
    }
  }

  /** Growing one chain keeps everyone's bytes and the invariant. */
  lemma {:induction false} GrowKeeps(h: Heap, cs: Chains, s: Slot, data: seq<Byte>, k: Heap, ds: Chains)
    requires Inv(h, cs) && s in cs && h.bump in h.pages && |data| == PAGE_DATA_SIZE && NoRoom(h, cs[s])
    requires s in h.heads && s in h.tails && k == Grow(h, s, data) && ds == cs[s := cs[s] + [h.bump]]
    ensures Inv(k, ds) && SameContents(h, cs, k, ds)
  {
    forall t | t in ds ensures FullBut(k, ds[t]) { GrowFullBut(h, cs, s, data, k, ds, t); }
    OneLonger(cs, s, h.bump, ds);
    GrowHolds(h, cs, s, data, k, ds);
    GrowBump(h, s, data, k);
    GrowDisjoint(cs, s, h.bump, ds);
    assert ds.Keys == AllSlots();
    InvIntro(k, ds);
  }

  lemma {:induction false} TailFacts(h: Heap, cs: Chains, s: Slot, tail: nat)
    requires Kept(h, cs) && s in cs && tail == Last(cs[s])
    ensures s in h.tails && s in h.heads && h.tails[s] == tail && h.heads[s] == First(cs[s])
    ensures tail < h.bump && OnGrid(h.bump) && (tail == 0 || ValidPage(h, tail)) && (tail == 0 <==> cs[s] == [])
  {
    Unfolded(h, cs);
    assert Holds(h, s, cs[s]);
    assert cs[s] != [] ==> tail in cs[s];
  }

  /** Every chain but that of s is in use to its last page; unfolded only on demand. */
  ghost predicate UsedBut(h: Heap, cs: Chains, s: Slot) {
    forall u :: Key(UseLock, u) ==> forall t :: t in cs && t != s ==> Used(h, cs[t])
  }

  ghost predicate AllUsed(h: Heap, cs: Chains) {
    forall u :: Key(UseLock, u) ==> forall t :: t in cs ==> Used(h, cs[t])
  }

  lemma {:induction false} AllUsedBut(h: Heap, cs: Chains, s: Slot)
    requires s in cs
    ensures AllUsed(h, cs) ==> UsedBut(h, cs, s) && Used(h, cs[s])
    ensures UsedBut(h, cs, s) && Used(h, cs[s]) ==> AllUsed(h, cs)
  {
    assert Key(UseLock, 0);
  }

  lemma {:induction false} NoRoomUsed(h: Heap, cs: Chains, s: Slot)
    requires s in cs && UsedBut(h, cs, s) && NoRoom(h, cs[s])
    ensures AllUsed(h, cs)
  {
    AllUsedBut(h, cs, s);
  }

  lemma {:induction false} GrowUsed(h: Heap, cs: Chains, s: Slot, data: seq<Byte>, k: Heap, ds: Chains)
    requires Inv(h, cs) && s in cs && UsedBut(h, cs, s)
    requires s in h.heads && s in h.tails && k == Grow(h, s, data) && ds == cs[s := cs[s] + [h.bump]]
    ensures UsedBut(k, ds, s)
  {
    assert Key(UseLock, 0);
    GrowCursors(h, s, data, k);
    forall t | t in ds && t != s ensures Used(k, ds[t]) {
      assert h.bump !in cs[t];
      UsedKept(h, k, cs[t], h.bump);
    }
  }

  lemma {:induction false} GrowFacts(h: Heap, cs: Chains, s: Slot, data: seq<Byte>, k: Heap, ds: Chains)
    requires Kept(h, cs) && s in cs && h.bump in h.pages && |data| == PAGE_DATA_SIZE
    requires NoRoom(h, cs[s]) && UsedBut(h, cs, s)
    requires s in h.heads && s in h.tails && k == Grow(h, s, data) && ds == cs[s := cs[s] + [h.bump]]
    ensures Kept(k, ds) && Appended(h, cs, k, ds, s, []) && k.bump == h.bump + PAGE_SIZE && UsedBut(k, ds, s)
  {
    Unfolded(h, cs);
    GrowUsed(h, cs, s, data, k, ds);
    GrowKeeps(h, cs, s, data, k, ds);
    GrowBump(h, s, data, k);
    AppendedNothing(h, cs, k, ds, s);
  }

  /** Writes b behind the cursor of page p. */
  function Fill(h: Heap, p: nat, b: seq<Byte>): Heap
    requires ValidPage(h, p) && h.pages[p].cursor + |b| <= PAGE_DATA_SIZE
  {
    var pg := h.pages[p];
    h.(pages := h.pages[p := pg.(cursor := pg.cursor + |b|, data := Put(pg.data, pg.cursor, b))])
  }

  lemma {:induction false} FillCursors(h: Heap, p: nat, b: seq<Byte>, k: Heap)
    requires ValidPage(h, p) && h.pages[p].cursor + |b| <= PAGE_DATA_SIZE && k == Fill(h, p, b)
    ensures CursorsKept(h, k, p) && ValidPage(k, p) && k.pages[p].cursor == h.pages[p].cursor + |b|
  {
  }

  lemma {:induction false} FillFullBut(h: Heap, cs: Chains, s: Slot, b: seq<Byte>, p: nat, k: Heap, t: Slot)
    requires Inv(h, cs) && s in cs && t in cs && cs[s] != [] && p == Last(cs[s])
    requires ValidPage(h, p) && h.pages[p].cursor + |b| <= PAGE_DATA_SIZE && k == Fill(h, p, b)
    ensures FullBut(k, cs[t])
  {
    FillCursors(h, p, b, k);
    assert p in cs[s] && Holds(h, t, cs[t]) && FullBut(h, cs[t]);
    forall i | 0 <= i < |cs[t]| - 1 ensures cs[t][i] != p { assert cs[t][i] in cs[t]; }
    FullButKept(h, k, cs[t], p);
  }

  lemma {:induction false} FillOther(h: Heap, cs: Chains, s: Slot, p: nat, b: seq<Byte>, k: Heap, t: Slot)
    requires Inv(h, cs) && s in cs && t in cs && t != s && p in cs[s]
    requires ValidPage(h, p) && h.pages[p].cursor + |b| <= PAGE_DATA_SIZE && k == Fill(h, p, b)
    ensures Holds(k, t, cs[t]) && Contents(k, cs[t]) == Contents(h, cs[t])
  {
    assert Holds(h, t, cs[t]);
    LinkedFrame(h, k, cs[t]);
  }

  /** Filling the tail page appends to that slot's bytes and to nothing else. */
  lemma {:induction false} FillKeeps(h: Heap, cs: Chains, s: Slot, b: seq<Byte>, p: nat, k: Heap)
    requires Inv(h, cs) && s in cs && cs[s] != [] && p == Last(cs[s])
    requires ValidPage(h, p) && h.pages[p].cursor + |b| <= PAGE_DATA_SIZE && k == Fill(h, p, b)
    ensures Inv(k, cs) && Contents(k, cs[s]) == Contents(h, cs[s]) + b
    ensures forall t :: t in cs && t != s ==> Contents(k, cs[t]) == Contents(h, cs[t])
  {
    assert Holds(h, s, cs[s]) && p in cs[s];
    forall t | t in cs && t != s ensures Holds(k, t, cs[t]) && Contents(k, cs[t]) == Contents(h, cs[t]) {
      FillOther(h, cs, s, p, b, k, t);
    }
    FillOne(h, cs[s], b);
    assert Holds(k, s, cs[s]);
    forall t | t in cs ensures FullBut(k, cs[t]) { FillFullBut(h, cs, s, b, p, k, t); }
    InvIntro(k, cs);
  }

  lemma {:induction false} FillUsed(h: Heap, cs: Chains, s: Slot, b: seq<Byte>, p: nat, k: Heap)
    requires Inv(h, cs) && s in cs && cs[s] != [] && p == Last(cs[s]) && UsedBut(h, cs, s)
    requires ValidPage(h, p) && h.pages[p].cursor + |b| <= PAGE_DATA_SIZE && k == Fill(h, p, b)
    ensures UsedBut(k, cs, s) && (b != [] ==> Used(k, cs[s]))
  {
    assert Key(UseLock, 0);
    FillCursors(h, p, b, k);
    assert p in cs[s];
    forall t | t in cs && t != s ensures Used(k, cs[t]) { UsedKept(h, k, cs[t], p); }
  }

  lemma {:induction false} FillOne(h: Heap, ps: seq<nat>, b: seq<Byte>)
    requires Linked(h, ps) && ps != [] && ValidPage(h, Last(ps)) && h.pages[Last(ps)].cursor + |b| <= PAGE_DATA_SIZE
    ensures Linked(Fill(h, Last(ps), b), ps) && Contents(Fill(h, Last(ps), b), ps) == Contents(h, ps) + b
  {
    var k, init := Fill(h, Last(ps), b), ps[..|ps| - 1];
    assert Content(k, Last(ps)) == Content(h, Last(ps)) + b;
    forall q | q in init ensures Content(k, q) == Content(h, q) {}
    assert ps == init + [Last(ps)];
    ContentsFrame(h, k, init);
    ContentsLast(h, k, init, Last(ps), b, Contents(h, init));
  }

  lemma {:induction false} ContentsSnoc(h: Heap, init: seq<nat>, p: nat)
    ensures Contents(h, init + [p]) == Contents(h, init) + Content(h, p)
  {
    ContentsConcat(h, init, [p]);
    assert Contents(h, [p]) == Content(h, p) + Contents(h, []) by { assert [p][1..] == []; }
  }

  /** Only the last page changed, and it gained b. */
  lemma {:induction false} ContentsLast(h: Heap, k: Heap, init: seq<nat>, p: nat, b: seq<Byte>, before: seq<Byte>)
    requires Content(k, p) == Content(h, p) + b && before == Contents(h, init) == Contents(k, init)
    ensures Contents(k, init + [p]) == Contents(h, init + [p]) + b
  {
    ContentsSnoc(h, init, p);
    ContentsSnoc(k, init, p);
    Associates(before, Content(h, p), b);
  }

  lemma {:induction false} Associates(a: seq<Byte>, b: seq<Byte>, c: seq<Byte>)
    ensures a + b + c == a + (b + c)
  {
  }

  ghost predicate Gained(h: Heap, cs: Chains, k: Heap, ds: Chains, s: Slot, b: seq<Byte>) {
    && s in cs && ds.Keys == cs.Keys
    && Contents(k, ds[s]) == Contents(h, cs[s]) + b
    && forall t :: t in cs && t != s ==> Contents(k, ds[t]) == Contents(h, cs[t])
  }

  /** Slot s gained the bytes b at its end; no other slot changed. */
  ghost predicate Appended(h: Heap, cs: Chains, k: Heap, ds: Chains, s: Slot, b: seq<Byte>) {
    forall u :: Key(AppendLock, u) ==> Gained(h, cs, k, ds, s, b)
  }

  lemma {:induction false} AppendedIs(h: Heap, cs: Chains, k: Heap, ds: Chains, s: Slot, b: seq<Byte>)
    requires Appended(h, cs, k, ds, s, b)
    ensures Gained(h, cs, k, ds, s, b)
  {
    assert Key(AppendLock, 0);
  }

  lemma {:induction false} AppendedNothing(h: Heap, cs: Chains, k: Heap, ds: Chains, s: Slot)
    requires SameContents(h, cs, k, ds) && s in cs && ds.Keys == cs.Keys
    ensures Appended(h, cs, k, ds, s, [])
  {
  }

  lemma {:induction false} AppendedTwice(h: Heap, cs: Chains, k: Heap, ds: Chains, l: Heap, es: Chains, s: Slot,
                                         b: seq<Byte>, c: seq<Byte>, bc: seq<Byte>)
    requires Appended(h, cs, k, ds, s, b) && Appended(k, ds, l, es, s, c) && bc == b + c
    ensures Appended(h, cs, l, es, s, bc)
  {
    AppendedIs(h, cs, k, ds, s, b);
    AppendedIs(k, ds, l, es, s, c);
    assert Contents(l, es[s]) == Contents(h, cs[s]) + b + c;
  }

  /** The invariant, unfolded only on demand. */
  ghost predicate Kept(h: Heap, cs: Chains) {
    forall u :: Key(ChainLock, u) ==> Inv(h, cs)
  }

  lemma {:induction false} Unfolded(h: Heap, cs: Chains)
    requires Kept(h, cs)
    ensures Inv(h, cs)
  {
    assert Key(ChainLock, 0);
  }

  lemma {:induction false} FillAppends(h: Heap, cs: Chains, s: Slot, b: seq<Byte>, tail: nat, k: Heap)
    requires Kept(h, cs) && s in cs && cs[s] != [] && tail == Last(cs[s]) && UsedBut(h, cs, s)
    requires ValidPage(h, tail) && h.pages[tail].cursor + |b| <= PAGE_DATA_SIZE && k == Fill(h, tail, b)
    ensures Kept(k, cs) && Appended(h, cs, k, cs, s, b) && k.bump == h.bump
    ensures UsedBut(k, cs, s) && (b != [] ==> Used(k, cs[s]))
  {
    Unfolded(h, cs);
    FillKeeps(h, cs, s, b, tail, k);
    FillUsed(h, cs, s, b, tail, k);
  }

  // ---------------------------------------------------------------------------
  // Splicing
  // ---------------------------------------------------------------------------

  /** Links the chain of src behind the chain of dst: one next pointer, one head or tail cell. */
  function Splice(h: Heap, dst: Slot, src: Slot): Heap
    requires dst in h.heads && dst in h.tails && src in h.heads && src in h.tails
  {
    if h.heads[src] == 0 then h
    else
      var linked := if h.tails[dst] == 0 then h.(heads := h.heads[dst := h.heads[src]])
                    else if h.tails[dst] in h.pages
                    then h.(pages := h.pages[h.tails[dst] := h.pages[h.tails[dst]].(next := h.heads[src])])
                    else h;
      linked.(tails := linked.tails[dst := h.tails[src]])
  }

  ghost predicate NoShared(ps: seq<nat>, qs: seq<nat>) {
    forall p :: p in ps ==> p !in qs
  }

  lemma {:induction false} SplicePages(h: Heap, k: Heap, ps: seq<nat>, qs: seq<nat>, i: nat)
    requires Linked(h, ps) && Linked(h, qs) && NoShared(ps, qs) && ps != [] && qs != [] && i < |ps + qs|
    requires k.pages == h.pages[Last(ps) := h.pages[Last(ps)].(next := First(qs))]
    ensures var all := ps + qs;
            && all[i] != 0 && ValidPage(k, all[i])
            && k.pages[all[i]].next == if i + 1 < |all| then all[i + 1] else 0
  {
    var all, n := ps + qs, |ps|;
    if i < n {
      assert all[i] == ps[i] && (i < n - 1 ==> ps[i] != Last(ps) && h.pages[ps[i]].next == ps[i + 1]);
    } else {
      assert all[i] == qs[i - n] && qs[i - n] in qs && Last(ps) in ps;
      assert i + 1 < |all| ==> h.pages[qs[i - n]].next == qs[i - n + 1];
    }
  }

  lemma {:induction false} SpliceDistinct(ps: seq<nat>, qs: seq<nat>, i: nat, j: nat)
    requires forall a, b :: 0 <= a < b < |ps| ==> ps[a] != ps[b]
    requires forall a, b :: 0 <= a < b < |qs| ==> qs[a] != qs[b]
    requires NoShared(ps, qs) && i < j < |ps + qs|
    ensures (ps + qs)[i] != (ps + qs)[j]
  {
    if i < |ps| <= j { assert ps[i] in ps && qs[j - |ps|] in qs; }
  }

  lemma {:induction false} SpliceLinks(h: Heap, k: Heap, ps: seq<nat>, qs: seq<nat>)
    requires Linked(h, ps) && Linked(h, qs) && NoShared(ps, qs) && ps != [] && qs != []
    requires k.pages == h.pages[Last(ps) := h.pages[Last(ps)].(next := First(qs))]
    ensures Linked(k, ps + qs)
  {
    var all := ps + qs;
    forall i | 0 <= i < |all|
      ensures all[i] != 0 && ValidPage(k, all[i]) && k.pages[all[i]].next == if i + 1 < |all| then all[i + 1] else 0
    {
      SplicePages(h, k, ps, qs, i);
    }
    forall i, j | 0 <= i < j < |all| ensures all[i] != all[j] {
      SpliceDistinct(ps, qs, i, j);
    }
    SplicePages(h, k, ps, qs, |all| - 1);
  }

  lemma {:induction false} SpliceContents(h: Heap, k: Heap, ps: seq<nat>, qs: seq<nat>)
    requires Linked(h, ps) && ps != []
    requires k.pages == h.pages[Last(ps) := h.pages[Last(ps)].(next := First(qs))]
    ensures Contents(k, ps + qs) == Contents(h, ps) + Contents(h, qs)
  {
    ContentsConcat(k, ps, qs);
    forall p | p in ps || p in qs ensures Content(k, p) == Content(h, p) {}
    ContentsFrame(h, k, ps);
    ContentsFrame(h, k, qs);
  }

  /** The non-empty case: one next pointer and one tail cell change. */
  lemma {:induction false} SpliceBoth(h: Heap, dst: Slot, src: Slot, ps: seq<nat>, qs: seq<nat>, k: Heap)
    requires Holds(h, dst, ps) && Holds(h, src, qs) && NoShared(ps, qs) && dst != src && ps != [] && qs != []
    requires k == Splice(h, dst, src)
    ensures Holds(k, dst, ps + qs) && Contents(k, ps + qs) == Contents(h, ps) + Contents(h, qs)
    ensures Holds(k, src, qs) && Contents(k, qs) == Contents(h, qs)
  {
    assert Last(ps) in ps && First(qs) != 0 && Last(ps) != 0;
    SpliceLinks(h, k, ps, qs);
    SpliceContents(h, k, ps, qs);
    LinkedFrame(h, k, qs);
  }

  lemma {:induction false} SpliceEmptySource(h: Heap, dst: Slot, src: Slot, ps: seq<nat>, qs: seq<nat>)
    requires Holds(h, dst, ps) && Holds(h, src, qs) && qs == []
    ensures Splice(h, dst, src) == h && ps + qs == ps && Contents(h, ps) + Contents(h, qs) == Contents(h, ps)
  {
    assert Contents(h, []) == [];
  }

  lemma {:induction false} SpliceEmptyTarget(h: Heap, dst: Slot, src: Slot, ps: seq<nat>, qs: seq<nat>, k: Heap)
    requires Holds(h, dst, ps) && Holds(h, src, qs) && dst != src && ps == [] && qs != []
    requires k == Splice(h, dst, src)
    ensures Holds(k, dst, qs) && Holds(k, src, qs) && Contents(k, qs) == Contents(h, qs)
    ensures ps + qs == qs && Contents(h, ps) + Contents(h, qs) == Contents(h, qs)
  {
    assert Contents(h, []) == [];
    assert k.pages == h.pages;
    LinkedFrame(h, k, qs);
  }

  /** dst reads as its old bytes followed by src's, src reads as before, and the joined chain has no cycle. */
  lemma {:induction false} SpliceReads(h: Heap, dst: Slot, src: Slot, ps: seq<nat>, qs: seq<nat>, k: Heap)
    requires Holds(h, dst, ps) && Holds(h, src, qs) && NoShared(ps, qs) && dst != src
    requires k == Splice(h, dst, src)
    ensures Holds(k, dst, ps + qs) && Contents(k, ps + qs) == Contents(h, ps) + Contents(h, qs)
    ensures Holds(k, src, qs) && Contents(k, qs) == Contents(h, qs)
  {
    if qs == [] {
      SpliceEmptySource(h, dst, src, ps, qs);
    } else if ps == [] {
      SpliceEmptyTarget(h, dst, src, ps, qs, k);
    } else {
      SpliceBoth(h, dst, src, ps, qs, k);
    }
  }

  /** Every other slot whose chain avoids dst's last page reads as before. */
  lemma {:induction false} SpliceOthers(
    h: Heap, dst: Slot, src: Slot, ps: seq<nat>, qs: seq<nat>, o: Slot, os: seq<nat>)
    requires Holds(h, dst, ps) && Holds(h, src, qs) && Holds(h, o, os) && o != dst && NoShared(ps, os)
    ensures Holds(Splice(h, dst, src), o, os) && Contents(Splice(h, dst, src), os) == Contents(h, os)
  {
    var k := Splice(h, dst, src);
    forall p | p in os ensures p in k.pages && k.pages[p] == h.pages[p] {
      if ps != [] { assert Last(ps) in ps; }
    }
    LinkedFrame(h, k, os);
  }
}
