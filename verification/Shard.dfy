/** Splitting a file into byte-balanced shards of whole lines (Executor/host/src/shard.rs). */
module Shard {
  import opened Prelude
  import opened Sequences
  import opened Bytes
  import opened Windows

  type Text = seq<Byte>

  /** The end of the line that starts at p, its newline included. */
  function LineEnd(data: Text, p: nat): (e: nat)
    requires p < |data|
    ensures p < e <= |data|
  {
    var q := FindNewline(data, p);
    if q < |data| then q + 1 else |data|
  }

  /** The length of the longest line from position p on. */
  function LongestLine(data: Text, p: nat): nat
    decreases |data| - p
  {
    if p >= |data| then 0 else Max(LineEnd(data, p) - p, LongestLine(data, LineEnd(data, p)))
  }

  /** Some line has the longest length. */
  lemma {:induction false} LongestAttained(data: Text, p: nat) returns (s: nat, e: nat)
    requires p < |data| && IsLineStart(data, p)
    ensures p <= s && IsLine(data, s, e) && e - s == LongestLine(data, p)
    decreases |data| - p
  {
    s, e := p, LineEnd(data, p);
    if e < |data| && LongestLine(data, e) > e - s { s, e := LongestAttained(data, e); }
  }

  /** No line is longer. */
  lemma {:induction false} LineBound(data: Text, p: nat, s: nat, e: nat)
    requires IsLineStart(data, p) && p <= s && IsLine(data, s, e)
    ensures e - s <= LongestLine(data, p)
    decreases |data| - p
  {
    var q := LineEnd(data, p);
    if s == p {
      assert q == e;
    } else {
      LineUnbroken(data, p, q, s);
      LineBound(data, q, s, e);
    }
  }

  function Concat(shards: seq<Text>): Text {
    if shards == [] then [] else Concat(shards[..|shards| - 1]) + shards[|shards| - 1]
  }

  /** ceil(total / n), at least 1. */
  function PerShard(total: nat, n: nat): (q: nat)
    requires n > 0
    ensures q >= 1
  {
    Max((total + n - 1) / n, 1)
  }

  lemma {:induction false} QuotaCovers(total: nat, n: nat)
    requires n > 0
    ensures PerShard(total, n) * n >= total
  {
    var q := (total + n - 1) / n;
    assert q * n >= total;
    assert total > 0 ==> q >= 1;
  }

  /** Shard i ends where a line ends. */
  ghost predicate WholeLines(data: Text, shards: seq<Text>) {
    forall i :: 0 <= i <= |shards| ==> IsLineStart(data, |Concat(shards[..i])|)
  }

  ghost predicate Balanced(data: Text, shards: seq<Text>, quota: nat) {
    forall i :: 0 <= i < |shards| ==> |shards[i]| < quota + LongestLine(data, 0)
  }

  lemma {:induction false} ConcatEmpty(a: seq<Text>, k: nat)
    requires k <= |a| && forall i :: k <= i < |a| ==> a[i] == []
    ensures Concat(a) == Concat(a[..k])
  {
    if k < |a| {
      ConcatEmpty(a[..|a| - 1], k);
      assert a[..|a| - 1][..k] == a[..k];
    } else {
      assert a[..k] == a;
    }
  }

  lemma {:induction false} ConcatStep(a: seq<Text>, k: nat)
    requires k < |a|
    ensures Concat(a[..k + 1]) == Concat(a[..k]) + a[k]
  {
    assert a[..k + 1][..k] == a[..k];
  }

  lemma {:induction false} ConcatLength(a: seq<Text>, quota: nat)
    requires forall i :: 0 <= i < |a| ==> |a[i]| >= quota
    ensures |Concat(a)| >= |a| * quota
  {
    if a != [] {
      ConcatLength(a[..|a| - 1], quota);
      assert |a| * quota == (|a| - 1) * quota + quota;
    }
  }

  /** The state of the splitting loop: `shard` is being filled, later shards are empty. */
  ghost predicate SplitInv(data: Text, shards: seq<Text>, shard: nat, pos: nat, quota: nat) {
    && shard < |shards| && pos <= |data| && IsLineStart(data, pos)
    && Concat(shards[..shard]) + shards[shard] == data[..pos]
    && (forall i :: 0 <= i < shard ==> |shards[i]| >= quota)
    && (forall i :: shard < i < |shards| ==> shards[i] == [])
    && Balanced(data, shards, quota)
    && forall i :: 0 <= i <= shard ==> IsLineStart(data, |Concat(shards[..i])|)
  }

  /** The current shard has met its quota: go on with the next one. */
  lemma {:induction false} Advance(data: Text, shards: seq<Text>, shard: nat, pos: nat, quota: nat)
    requires SplitInv(data, shards, shard, pos, quota) && shard + 1 < |shards| && |shards[shard]| >= quota
    ensures SplitInv(data, shards, shard + 1, pos, quota)
  {
    ConcatStep(shards, shard);
    assert Concat(shards[..shard + 1]) + [] == data[..pos];
  }

  lemma {:induction false} AddLine(
    data: Text, shards: seq<Text>, shard: nat, pos: nat, quota: nat, e: nat, after: seq<Text>)
    requires SplitInv(data, shards, shard, pos, quota) && pos < |data| && e == LineEnd(data, pos)
    requires shard + 1 < |shards| ==> |shards[shard]| < quota
    requires shard + 1 == |shards| ==> e - |Concat(shards[..shard])| <= quota
    requires after == shards[shard := shards[shard] + data[pos..e]]
    ensures SplitInv(data, after, shard, e, quota)
  {
    LineBound(data, 0, pos, e);
    assert after[..shard] == shards[..shard];
    assert data[..pos] + data[pos..e] == data[..e];
    forall i | 0 <= i <= shard ensures IsLineStart(data, |Concat(after[..i])|) {
      assert after[..i] == shards[..i];
    }
  }

  lemma {:induction false} FullShards(full: seq<Text>, quota: nat, total: nat)
    requires forall i :: 0 <= i < |full| ==> |full[i]| >= quota
    requires quota * (|full| + 1) >= total
    ensures total - |Concat(full)| <= quota
  {
    ConcatLength(full, quota);
    assert quota * (|full| + 1) == |full| * quota + quota;
  }

  lemma {:induction false} LastShard(data: Text, shards: seq<Text>, shard: nat, pos: nat, quota: nat, e: nat)
    requires SplitInv(data, shards, shard, pos, quota) && shard + 1 == |shards| && pos <= e <= |data|
    requires quota * |shards| >= |data|
    ensures e - |Concat(shards[..shard])| <= quota
  {
    FullShards(shards[..shard], quota, |data|);
  }

  lemma {:induction false} SplitDone(data: Text, shards: seq<Text>, shard: nat, quota: nat)
    requires SplitInv(data, shards, shard, |data|, quota)
    ensures Concat(shards) == data && WholeLines(data, shards)
  {
    ConcatStep(shards, shard);
    assert data[..|data|] == data;
    ConcatEmpty(shards, shard + 1);
    forall i | 0 <= i <= |shards| ensures IsLineStart(data, |Concat(shards[..i])|) {
      if i > shard {
        ConcatEmpty(shards[..i], shard + 1);
        assert shards[..i][..shard + 1] == shards[..shard + 1];
      }
    }
  }

  /** n shards of whole lines, in order, none far above its quota and the last within it. */
  method RunSplit(data: Text, n: nat) returns (r: Result<seq<Text>>)
    ensures r.Err? <==> n == 0
    ensures r.Ok? ==> && |r.value| == n && Concat(r.value) == data && WholeLines(data, r.value)
                      && Balanced(data, r.value, PerShard(|data|, n))
                      && |r.value[n - 1]| <= PerShard(|data|, n)
  {
    if n == 0 { return Err("split: N must be >= 1"); }
    var quota := PerShard(|data|, n);
    QuotaCovers(|data|, n);
    var shards: seq<Text> := seq(n, i => []);
    var shard, written, pos := 0, 0, 0;
    while pos < |data|
      invariant |shards| == n && SplitInv(data, shards, shard, pos, quota) && written == |shards[shard]|
      invariant |shards[n - 1]| <= quota
      decreases |data| - pos
    {
      var e := LineEnd(data, pos);
      if shard + 1 < n && written >= quota {
        Advance(data, shards, shard, pos, quota);
        shard := shard + 1;
        written := 0;
      }
      if shard + 1 == n { LastShard(data, shards, shard, pos, quota, e); }
      ghost var before := shards;
      shards := shards[shard := shards[shard] + data[pos..e]];
      AddLine(data, before, shard, pos, quota, e, shards);
      written := written + (e - pos);
      pos := e;
    }
    SplitDone(data, shards, shard, quota);
    r := Ok(shards);
  }

  /** Partials joined in argument order. */
  method MergeConcat(partials: seq<Text>) returns (out: Text)
    ensures out == Concat(partials)
  {
    out := [];
    for i := 0 to |partials|
      invariant out == Concat(partials[..i])
    {
      ConcatStep(partials, i);
      out := out + partials[i];
    }
    assert partials[..|partials|] == partials;
  }

  /** Splitting and merging give the file back. */
  method SplitThenMerge(data: Text, n: nat) returns (out: Text)
    requires n > 0
    ensures out == data
  {
    var r := RunSplit(data, n);
    out := MergeConcat(r.value);
  }
}
