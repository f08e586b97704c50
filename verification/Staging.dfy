/**
  Staging of shared input windows: the per-worker plan, the chunked writes into the worker's
  compact receive buffer, and the extraction on the worker
  (NodeAgent/agent/src/coordinator.rs, NodeAgent/agent/src/worker.rs).
 */
module Staging {
  import opened Prelude
  import opened Bytes
  import opened Windows

  const WRITE_CHUNK: nat := 0x4000_0000   // 1 GiB
  const MAX_SOURCE: nat := 0xFFFF_FFFF

  datatype File = File(path: string, data: seq<Byte>)
  datatype Entry = Entry(path: string, offset: nat, len: nat)
  datatype Planned = Planned(path: string, globalOff: nat, localOff: nat, len: nat)

  type Slices = map<string, (real, real)>

  // ---------------------------------------------------------------------------
  // What a worker should receive
  // ---------------------------------------------------------------------------

  function SliceOf(slices: Slices, path: string): (real, real) {
    if path in slices then slices[path] else (0.0, 1.0)
  }

  /** The worker's window of one file; nothing when it does not need the file or the window is empty. */
  function Share(f: File, want: set<string>, slices: Slices): seq<File> {
    var piece := Piece(f.data, SliceOf(slices, f.path));
    if f.path in want && piece != [] then [File(f.path, piece)] else []
  }

  function Shares(files: seq<File>, want: set<string>, slices: Slices): seq<File> {
    if files == [] then []
    else Shares(files[..|files| - 1], want, slices) + Share(files[|files| - 1], want, slices)
  }

  /** The contents of the files, one after the other. */
  function Joined(files: seq<File>): seq<Byte> {
    if files == [] then [] else Joined(files[..|files| - 1]) + files[|files| - 1].data
  }

  lemma {:induction false} JoinedStep(files: seq<File>, i: nat)
    requires i < |files|
    ensures Joined(files[..i + 1]) == Joined(files[..i]) + files[i].data
  {
    assert files[..i + 1][..i] == files[..i];
  }

  lemma {:induction false} JoinedSnoc(files: seq<File>, f: File)
    ensures Joined(files + [f]) == Joined(files) + f.data
  {
    assert (files + [f])[..|files|] == files;
  }

  // ---------------------------------------------------------------------------
  // The source buffer
  // ---------------------------------------------------------------------------

  /** Entry i locates file i in the flat buffer. */
  ghost predicate Located(flat: seq<Byte>, entries: seq<Entry>, files: seq<File>) {
    && |entries| == |files|
    && forall i :: 0 <= i < |files| ==>
                     && entries[i].path == files[i].path && entries[i].offset + entries[i].len <= |flat|
                     && Get(flat, entries[i].offset, entries[i].len) == files[i].data
  }

  lemma {:induction false} LocatedGrows(flat: seq<Byte>, entries: seq<Entry>, files: seq<File>, f: File, e: Entry)
    requires Located(flat, entries, files) && e == Entry(f.path, |flat|, |f.data|)
    ensures Located(flat + f.data, entries + [e], files + [f])
  {
    var all := flat + f.data;
    forall i | 0 <= i < |entries| ensures Get(all, entries[i].offset, entries[i].len) == files[i].data {
      assert Get(all, entries[i].offset, entries[i].len) == Get(flat, entries[i].offset, entries[i].len);
    }
    assert Get(all, |flat|, |f.data|) == f.data;
  }

  method BuildSource(files: seq<File>) returns (flat: seq<Byte>, entries: seq<Entry>)
    ensures flat == Joined(files) && Located(flat, entries, files)
  {
    flat, entries := [], [];
    for i := 0 to |files|
      invariant flat == Joined(files[..i]) && Located(flat, entries, files[..i])
    {
      JoinedStep(files, i);
      var e := Entry(files[i].path, |flat|, |files[i].data|);
      LocatedGrows(flat, entries, files[..i], files[i], e);
      assert files[..i] + [files[i]] == files[..i + 1];
      entries := entries + [e];
      flat := flat + files[i].data;
    }
    assert files[..|files|] == files;
  }

  // ---------------------------------------------------------------------------
  // The plan
  // ---------------------------------------------------------------------------

  /** Planned entry i copies share i from the source to its place in the compact buffer. */
  ghost predicate Copies(flat: seq<Byte>, p: Planned, shares: seq<File>, i: nat)
    requires i < |shares|
  {
    && p.path == shares[i].path && p.len == |shares[i].data| > 0 && p.globalOff + p.len <= |flat|
    && Get(flat, p.globalOff, p.len) == shares[i].data
    && p.localOff == |Joined(shares[..i])|
  }

  ghost predicate Plans(flat: seq<Byte>, plan: seq<Planned>, shares: seq<File>) {
    |plan| == |shares| && forall i :: 0 <= i < |plan| ==> Copies(flat, plan[i], shares, i)
  }

  lemma {:induction false} PlanGrows(flat: seq<Byte>, plan: seq<Planned>, shares: seq<File>, p: Planned, f: File)
    requires Plans(flat, plan, shares) && p.path == f.path && p.len == |f.data| > 0
    requires p.globalOff + p.len <= |flat| && Get(flat, p.globalOff, p.len) == f.data
    requires p.localOff == |Joined(shares)|
    ensures Plans(flat, plan + [p], shares + [f])
  {
    var more, all := plan + [p], shares + [f];
    forall i | 0 <= i < |more| ensures Copies(flat, more[i], all, i) {
      if i < |plan| {
        assert Copies(flat, plan[i], shares, i);
        assert all[..i] == shares[..i];
      } else {
        assert all[..i] == shares;
      }
    }
  }

  /** A window of a located file is a range of the flat buffer. */
  lemma {:induction false} WindowInFlat(flat: seq<Byte>, e: Entry, data: seq<Byte>, slice: (real, real))
    requires e.offset + e.len <= |flat| && Get(flat, e.offset, e.len) == data
    ensures var w := Window(data, slice);
            && w.0 <= w.1 <= e.len && Piece(data, slice) == Get(flat, e.offset + w.0, w.1 - w.0)
  {
    var w := Window(data, slice);
    GetGet(flat, e.offset, e.len, w.0, w.1 - w.0);
  }

  method BuildPlan(flat: seq<Byte>, entries: seq<Entry>, want: set<string>, slices: Slices, ghost files: seq<File>)
    returns (plan: seq<Planned>, total: nat)
    requires Located(flat, entries, files)
    ensures Plans(flat, plan, Shares(files, want, slices)) && total == |Joined(Shares(files, want, slices))|
  {
    plan, total := [], 0;
    ghost var shares: seq<File> := [];
    for i := 0 to |entries|
      invariant shares == Shares(files[..i], want, slices)
      invariant Plans(flat, plan, shares) && total == |Joined(shares)|
    {
      SharesStep(files, want, slices, i);
      plan, total := PlanEntry(flat, entries[i], want, slices, plan, total, files[i], shares);
      shares := shares + Share(files[i], want, slices);
    }
    assert files[..|entries|] == files;
  }

  lemma {:induction false} SharesStep(files: seq<File>, want: set<string>, slices: Slices, i: nat)
    requires i < |files|
    ensures Shares(files[..i + 1], want, slices) == Shares(files[..i], want, slices) + Share(files[i], want, slices)
  {
    assert files[..i + 1][..i] == files[..i];
  }

  /** Plans one file, unless the worker does not need it or its window is empty. */
  method PlanEntry(flat: seq<Byte>, e: Entry, want: set<string>, slices: Slices, plan: seq<Planned>, total: nat,
                   ghost f: File, ghost shares: seq<File>)
    returns (plan': seq<Planned>, total': nat)
    requires e.path == f.path && e.offset + e.len <= |flat| && Get(flat, e.offset, e.len) == f.data
    requires Plans(flat, plan, shares) && total == |Joined(shares)|
    ensures Plans(flat, plan', shares + Share(f, want, slices))
    ensures total' == |Joined(shares + Share(f, want, slices))|
  {
    plan', total' := plan, total;
    assert shares + [] == shares;
    if e.path !in want { return; }
    var slice := SliceOf(slices, e.path);
    var (s, en) := Window(Get(flat, e.offset, e.len), slice);
    WindowInFlat(flat, e, f.data, slice);
    if en - s == 0 { return; }
    var p := Planned(e.path, e.offset + s, total, en - s);
    ghost var share := File(e.path, Piece(f.data, slice));
    assert Share(f, want, slices) == [share];
    PlanGrows(flat, plan, shares, p, share);
    JoinedSnoc(shares, share);
    plan', total' := plan + [p], total + p.len;
  }

  // ---------------------------------------------------------------------------
  // The chunked writes
  // ---------------------------------------------------------------------------

  datatype Write = Write(offset: nat, len: nat)

  /** The writes cover [0, end) one after the other, each non-empty and within the chunk limit. */
  ghost predicate Tiles(writes: seq<Write>, end: nat) {
    if writes == [] then end == 0
    else
      var w := writes[|writes| - 1];
      0 < w.len <= WRITE_CHUNK && w.offset + w.len == end && Tiles(writes[..|writes| - 1], w.offset)
  }

  lemma {:induction false} TilesGrow(writes: seq<Write>, end: nat, len: nat)
    requires Tiles(writes, end) && 0 < len <= WRITE_CHUNK
    ensures Tiles(writes + [Write(end, len)], end + len)
  {
    assert (writes + [Write(end, len)])[..|writes|] == writes;
  }

  /** One remote write of flat[src..src + len] to the receive buffer. */
  method PostWrite(flat: seq<Byte>, src: nat, len: nat, recv: array<Byte>, dst: nat)
    requires src + len <= |flat| && dst + len <= recv.Length
    modifies recv
    ensures recv[..] == Put(old(recv[..]), dst, Get(flat, src, len))
  {
    forall k | 0 <= k < len { recv[dst + k] := flat[src + k]; }
  }

  lemma {:induction false} PrefixExtended(before: seq<Byte>, after: seq<Byte>, dst: nat, b: seq<Byte>, done: seq<Byte>)
    requires dst + |b| <= |before| && after == Put(before, dst, b) && dst == |done| && before[..dst] == done
    ensures after[..dst + |b|] == done + b
  {
  }

  /** One chunk at the end of the filled prefix. */
  method WriteChunk(flat: seq<Byte>, src: nat, len: nat, recv: array<Byte>, dst: nat, ghost done: seq<Byte>)
    requires src + len <= |flat| && dst + len <= recv.Length && |done| == dst && recv[..dst] == done
    modifies recv
    ensures recv[..dst + len] == done + Get(flat, src, len)
  {
    ghost var before := recv[..];
    PostWrite(flat, src, len, recv, dst);
    PrefixExtended(before, recv[..], dst, Get(flat, src, len), done);
  }

  lemma {:induction false} GetMore(flat: seq<Byte>, at: nat, o: nat, len: nat, done: seq<Byte>)
    requires at + o + len <= |flat|
    ensures done + Get(flat, at, o) + Get(flat, at + o, len) == done + Get(flat, at, o + len)
  {
    assert Get(flat, at, o) + Get(flat, at + o, len) == Get(flat, at, o + len);
  }

  /** One file in chunks: the buffer's filled prefix grows by exactly its bytes. */
  method WriteFile(flat: seq<Byte>, p: Planned, recv: array<Byte>, writes0: seq<Write>, ghost done: seq<Byte>)
    returns (writes: seq<Write>)
    requires p.globalOff + p.len <= |flat| && p.localOff + p.len <= recv.Length
    requires |done| == p.localOff && recv[..p.localOff] == done && Tiles(writes0, p.localOff)
    modifies recv
    ensures recv[..p.localOff + p.len] == done + Get(flat, p.globalOff, p.len)
    ensures Tiles(writes, p.localOff + p.len)
  {
    var o: nat := 0;
    writes := writes0;
    ghost var filled := done;
    assert filled == done + Get(flat, p.globalOff, 0);
    while o < p.len
      invariant o <= p.len && Tiles(writes, p.localOff + o)
      invariant filled == done + Get(flat, p.globalOff, o) && recv[..p.localOff + o] == filled
    {
      var len := if WRITE_CHUNK < p.len - o then WRITE_CHUNK else p.len - o;
      WriteChunk(flat, p.globalOff + o, len, recv, p.localOff + o, filled);
      GetMore(flat, p.globalOff, o, len, done);
      TilesGrow(writes, p.localOff + o, len);
      filled := done + Get(flat, p.globalOff, o + len);
      writes := writes + [Write(p.localOff + o, len)];
      o := o + len;
    }
  }

  /** All files: the compact buffer ends up as the worker's shares, with no gap and no overlap. */
  method WritePlan(flat: seq<Byte>, plan: seq<Planned>, recv: array<Byte>, ghost shares: seq<File>)
    returns (writes: seq<Write>)
    requires Plans(flat, plan, shares) && recv.Length == |Joined(shares)|
    modifies recv
    ensures recv[..] == Joined(shares) && Tiles(writes, recv.Length)
  {
    writes := [];
    for i := 0 to |plan|
      invariant |Joined(shares[..i])| <= recv.Length && recv[..|Joined(shares[..i])|] == Joined(shares[..i])
      invariant Tiles(writes, |Joined(shares[..i])|)
    {
      assert Copies(flat, plan[i], shares, i);
      JoinedStep(shares, i);
      JoinedPrefix(shares, i + 1);
      writes := WriteFile(flat, plan[i], recv, writes, Joined(shares[..i]));
    }
    assert shares[..|plan|] == shares;
  }

  lemma {:induction false} JoinedPrefix(files: seq<File>, i: nat)
    requires i <= |files|
    ensures Joined(files[..i]) <= Joined(files)
  {
    if i == |files| {
      assert files[..i] == files;
    } else {
      JoinedPrefix(files[..|files| - 1], i);
      assert files[..|files| - 1][..i] == files[..i];
    }
  }

  // ---------------------------------------------------------------------------
  // The worker
  // ---------------------------------------------------------------------------

  /** Cuts the received buffer back into files. */
  method Extract(recv: seq<Byte>, plan: seq<Planned>, ghost flat: seq<Byte>, ghost shares: seq<File>)
    returns (out: seq<File>)
    requires Plans(flat, plan, shares) && recv == Joined(shares)
    ensures out == shares
  {
    out := [];
    for i := 0 to |plan|
      invariant out == shares[..i]
    {
      assert Copies(flat, plan[i], shares, i);
      JoinedStep(shares, i);
      JoinedPrefix(shares, i + 1);
      var start := plan[i].localOff;
      var end := start + plan[i].len;
      assert recv[..end] == Joined(shares[..i]) + shares[i].data;
      assert recv[start..end] == recv[..end][start..];
      out := out + [File(plan[i].path, recv[start..end])];
    }
  }

  /** End to end for one worker: it writes exactly its windows of the files it needs. */
  method StageWorker(files: seq<File>, want: set<string>, slices: Slices) returns (r: Result<seq<File>>)
    ensures r.Err? <==> |Joined(files)| > MAX_SOURCE
    ensures r.Ok? ==> r.value == Shares(files, want, slices)
  {
    var flat, entries := BuildSource(files);
    if |flat| > MAX_SOURCE { return Err("shared input total size exceeds 4 GiB"); }
    var plan, total := BuildPlan(flat, entries, want, slices, files);
    ghost var shares := Shares(files, want, slices);
    var recv := new Byte[total];
    var _ := WritePlan(flat, plan, recv, shares);
    var out := Extract(recv[..], plan, flat, shares);
    r := Ok(out);
  }
}
