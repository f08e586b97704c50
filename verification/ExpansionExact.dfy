/** Replication and fan-out lose nothing: every copy is there, wired to copies of exactly its template's deps. */
module ExpansionExact {
  import opened Prelude
  import opened Sequences
  import opened SymbolicDag
  import opened Expansion
  import opened ExpansionProofs

  // ---------------------------------------------------------------------------
  // Replication
  // ---------------------------------------------------------------------------

  /** c is n's copy for machine m, or n itself when n is not replicated. */
  ghost predicate IsCopy(c: Node, n: Node, m: nat) {
    && c.kind == n.kind
    && if n.all then c.id == Replica(n.id, m) && c.host == Some(m) else c.id == n.id && c.host == n.host
  }

  /** e is a dep of n's copy for machine m on account of n's dep d: d itself when it is not replicated, else the
      copy on the same machine, and all copies for a consumer that has no machine yet. */
  ghost predicate Feeds(templates: set<Id>, e: Id, d: Id, n: Node, m: nat, total: nat) {
    if d !in templates then e == d
    else if n.all then e == Replica(d, m)
    else if n.host.Some? then e == Replica(d, n.host.value)
    else exists j: nat :: j < total && e == Replica(d, j)
  }

  /** The deps of a copy are exactly what n's deps feed it. */
  ghost predicate Wired(templates: set<Id>, c: Node, n: Node, m: nat, total: nat) {
    forall e :: e in c.deps <==> exists d :: d in n.deps && Feeds(templates, e, d, n, m, total)
  }

  lemma {:induction false} ReplicaWired(n: Node, ts: set<Id>, counts: Option<seq<nat>>, m: nat, total: nat)
    requires n.all
    ensures Wired(ts, ReplicaNode(n, ts, counts, m), n, m, total)
  {
    var c := ReplicaNode(n, ts, counts, m);
    forall e ensures e in c.deps <==> exists d :: d in n.deps && Feeds(ts, e, d, n, m, total) {
      if e in c.deps {
        var i :| 0 <= i < |c.deps| && c.deps[i] == e;
        assert n.deps[i] in n.deps && Feeds(ts, e, n.deps[i], n, m, total);
      }
      if d :| d in n.deps && Feeds(ts, e, d, n, m, total) {
        var i :| 0 <= i < |n.deps| && n.deps[i] == d;
        assert c.deps[i] == e;
      }
    }
  }

  lemma {:induction false} GatherFeeds(n: Node, ts: set<Id>, d: Id, m: nat, total: nat, e: Id)
    requires !n.all
    ensures e in GatherDep(ts, d, n.host, total) <==> Feeds(ts, e, d, n, m, total)
  {
    if d in ts && n.host.None? {
      var copies := GatherDep(ts, d, n.host, total);
      if j: nat :| j < total && e == Replica(d, j) { assert copies[j] == e; }
    }
  }

  lemma {:induction false} GatheredWired(n: Node, ts: set<Id>, m: nat, total: nat)
    requires !n.all
    ensures Wired(ts, n.(deps := GatherDeps(n, ts, total)), n, m, total)
  {
    var g, out := (d: Id) => GatherDep(ts, d, n.host, total), GatherDeps(n, ts, total);
    forall e ensures e in out <==> exists d :: d in n.deps && Feeds(ts, e, d, n, m, total) {
      InFlatMap(n.deps, g, e);
      if d :| d in n.deps && e in g(d) { GatherFeeds(n, ts, d, m, total, e); }
      if d :| d in n.deps && Feeds(ts, e, d, n, m, total) { GatherFeeds(n, ts, d, m, total, e); }
    }
  }

  /** Every template has a copy on every machine, every other node stays, and each is wired exactly as it should. */
  lemma {:induction false} ReplicateHas(nodes: seq<Node>, total: nat, hints: Hints, n: Node, m: nat) returns (c: Node)
    requires NonNegativeHints(hints) && MintedBefore(nodes, 1) && total >= 1 && n in nodes && m < total
    ensures c in Replicate(nodes, total, hints) && IsCopy(c, n, m)
    ensures Wired(Templates(nodes), c, n, m, total)
  {
    var ts := Templates(nodes);
    assert Minted(n, 1);
    if ts == {} {
      c := n;
      assert n.all ==> n.id in ts;
      forall e ensures e in c.deps <==> exists d :: d in n.deps && Feeds(ts, e, d, n, m, total) {
        assert Feeds(ts, e, e, n, m, total);
      }
    } else {
      var f := (n: Node) => ReplicateNode(n, ts, total, hints);
      if n.all {
        c := ReplicaNode(n, ts, FanoutCounts(n, total, hints), m);
        assert f(n)[m] == c;
        ReplicaWired(n, ts, FanoutCounts(n, total, hints), m, total);
      } else {
        c := n.(deps := GatherDeps(n, ts, total));
        assert f(n)[0] == c;
        GatheredWired(n, ts, m, total);
      }
      assert c in f(n);
      InFlatMap(nodes, f, c);
    }
  }

  /** Nothing else is there. */
  lemma {:induction false} ReplicateOnly(nodes: seq<Node>, total: nat, hints: Hints, c: Node) returns (n: Node, m: nat)
    requires NonNegativeHints(hints) && MintedBefore(nodes, 1) && total >= 1 && c in Replicate(nodes, total, hints)
    ensures n in nodes && m < total && IsCopy(c, n, m) && Wired(Templates(nodes), c, n, m, total)
  {
    var ts := Templates(nodes);
    if ts == {} {
      n, m := c, 0;
      assert n.all ==> n.id in ts;
      forall e ensures e in c.deps <==> exists d :: d in n.deps && Feeds(ts, e, d, n, m, total) {
        assert Feeds(ts, e, e, n, m, total);
      }
    } else {
      var f := (n: Node) => ReplicateNode(n, ts, total, hints);
      InFlatMap(nodes, f, c);
      n :| n in nodes && c in f(n);
      var i :| 0 <= i < |f(n)| && f(n)[i] == c;
      m := if n.all then i else 0;
      if n.all {
        ReplicaWired(n, ts, FanoutCounts(n, total, hints), m, total);
      } else {
        GatheredWired(n, ts, m, total);
      }
    }
  }

  /** Every dep of a copy names a node that exists, if that held before. */
  lemma {:induction false} ReplicaDepExists(nodes: seq<Node>, total: nat, hints: Hints, n: Node, m: nat, d: Id)
    requires NonNegativeHints(hints) && MintedBefore(nodes, 1) && total >= 1 && m < total
    requires Closed(nodes) && n in nodes && d in n.deps
    ensures SiblingDep(Templates(nodes), d, m) in Ids(Replicate(nodes, total, hints))
  {
    assert d in Ids(nodes);
    var e :| e in nodes && e.id == d;
    var c := ReplicateHas(nodes, total, hints, e, m);
    if d in Templates(nodes) {
      var t :| t in nodes && t.all && t.id == d;
      var ct := ReplicateHas(nodes, total, hints, t, m);
    } else {
      assert !e.all;
    }
  }

  /** Replication leaves no dangling dep. */
  lemma {:induction false} ReplicateClosed(nodes: seq<Node>, total: nat, hints: Hints)
    requires NonNegativeHints(hints) && MintedBefore(nodes, 1) && total >= 1 && Closed(nodes)
    requires forall n :: n in nodes && n.host.Some? ==> n.host.value < total
    ensures Closed(Replicate(nodes, total, hints))
  {
    var ts, out := Templates(nodes), Replicate(nodes, total, hints);
    if ts != {} {
      var f := (n: Node) => ReplicateNode(n, ts, total, hints);
      forall c, d | c in out && d in c.deps ensures d in Ids(out) {
        InFlatMap(nodes, f, c);
        var n :| n in nodes && c in f(n);
        CopyDepExists(nodes, total, hints, n, c, d);
      }
    }
  }

  lemma {:induction false} CopyDepExists(nodes: seq<Node>, total: nat, hints: Hints, n: Node, c: Node, d: Id)
    requires NonNegativeHints(hints) && MintedBefore(nodes, 1) && total >= 1 && Closed(nodes)
    requires n in nodes && (n.host.Some? ==> n.host.value < total)
    requires c in ReplicateNode(n, Templates(nodes), total, hints) && d in c.deps
    ensures d in Ids(Replicate(nodes, total, hints))
  {
    var ts := Templates(nodes);
    if n.all {
      var m :| 0 <= m < total && c == ReplicaNode(n, ts, FanoutCounts(n, total, hints), m);
      var i :| 0 <= i < |c.deps| && c.deps[i] == d;
      ReplicaDepExists(nodes, total, hints, n, m, n.deps[i]);
    } else {
      var g := (e: Id) => GatherDep(ts, e, n.host, total);
      InFlatMap(n.deps, g, d);
      var e :| e in n.deps && d in g(e);
      var m := if d.Replica? && d.machine < total then d.machine else 0;
      ReplicaDepExists(nodes, total, hints, n, m, e);
    }
  }

  function FanoutOf(n: Node): nat { OrElse(n.fanout, 0) }

  /** The copies' worker counts add up to the requested fan-out, clamped to the cluster's cores. */
  lemma {:induction false} ReplicaCounts(n: Node, ts: set<Id>, total: nat, hints: Hints)
    requires NonNegativeHints(hints) && total >= 1 && n.all && n.fanout.Some?
    ensures var copies := ReplicateNode(n, ts, total, hints);
            && |copies| == total
            && Sum(seq(total, m requires 0 <= m < total => FanoutOf(copies[m])))
               == CapFanout(n.fanout.value, total, hints)
  {
    var want := CapFanout(n.fanout.value, total, hints);
    var counts, copies := Apportion(want, total, hints), ReplicateNode(n, ts, total, hints);
    ApportionQuota(want, total, hints);
    assert seq(total, m requires 0 <= m < total => FanoutOf(copies[m])) == counts;
  }

  // ---------------------------------------------------------------------------
  // Fan-out
  // ---------------------------------------------------------------------------

  /** The expansion map lists exactly the fanned-out nodes with their workers. */
  lemma {:induction false} ExpansionsExact(nodes: seq<Node>, n: Node)
    requires DistinctIds(nodes) && n in nodes
    ensures n.id in Expansions(nodes) <==> n.fanout.Some?
    ensures n.fanout.Some? ==> Expansions(nodes)[n.id] == WorkerIds(n)
  {
    var k := |nodes| - 1;
    var init, last := nodes[..k], nodes[k];
    var key := (n: Node) => n.id;
    assert nodes == init + [last];
    assert forall i :: 0 <= i < k ==> key(nodes[i]) != key(nodes[k]);
    if n in init {
      assert DistinctIds(init);
      assert n.id != last.id;
      ExpansionsExact(init, n);
    } else {
      NotExpanded(init, last.id);
    }
  }

  lemma {:induction false} NotExpanded(nodes: seq<Node>, id: Id)
    requires id !in Ids(nodes)
    ensures id !in Expansions(nodes)
  {
    if nodes != [] {
      var init, last := nodes[..|nodes| - 1], nodes[|nodes| - 1];
      assert last in nodes && last.id in Ids(nodes);
      assert forall x :: x in init ==> x in nodes;
      NotExpanded(init, id);
    }
  }

  /** A fanned-out node has exactly its workers, any other node stays; host and kind are kept. */
  lemma {:induction false} FanOutHas(nodes: seq<Node>, n: Node, i: nat) returns (c: Node)
    requires n in nodes && (n.fanout.Some? ==> i < n.fanout.value)
    ensures c in FanOut(nodes) && c.id == (if n.fanout.Some? then Worker(n.id, i) else n.id)
    ensures c.kind == n.kind && c.host == n.host
    ensures c.deps == FlatMap(n.deps, (d: Id) => ExpandDep(Expansions(nodes), d))
  {
    var copies, ex := FlatMap(nodes, WorkerCopies), Expansions(nodes);
    var w := if n.fanout.Some? then WorkerCopies(n)[i] else WorkerCopies(n)[0];
    assert w in WorkerCopies(n) && w.deps == n.deps;
    InFlatMap(nodes, WorkerCopies, w);
    var j :| 0 <= j < |copies| && copies[j] == w;
    c := FanOut(nodes)[j];
    assert c == ExpandDeps(w, ex);
  }

  /** Nothing else is there. */
  lemma {:induction false} FanOutOnly(nodes: seq<Node>, c: Node) returns (n: Node, i: nat)
    requires c in FanOut(nodes)
    ensures n in nodes && (n.fanout.Some? ==> i < n.fanout.value) && c.fanout.None?
    ensures c.id == (if n.fanout.Some? then Worker(n.id, i) else n.id) && c.kind == n.kind && c.host == n.host
    ensures c.deps == FlatMap(n.deps, (d: Id) => ExpandDep(Expansions(nodes), d))
  {
    var copies, ex := FlatMap(nodes, WorkerCopies), Expansions(nodes);
    var j :| 0 <= j < |copies| && c == ExpandDeps(copies[j], ex);
    InFlatMap(nodes, WorkerCopies, copies[j]);
    n :| n in nodes && copies[j] in WorkerCopies(n);
    var k :| 0 <= k < |WorkerCopies(n)| && WorkerCopies(n)[k] == copies[j];
    i := k;
  }

  lemma {:induction false} FannedDepExists(nodes: seq<Node>, n: Node, d: Id)
    requires DistinctIds(nodes) && Closed(nodes) && n in nodes
    requires d in FlatMap(n.deps, (e: Id) => ExpandDep(Expansions(nodes), e))
    ensures d in Ids(FanOut(nodes))
  {
    var ex := Expansions(nodes);
    var g := (e: Id) => ExpandDep(ex, e);
    InFlatMap(n.deps, g, d);
    var e :| e in n.deps && d in g(e);
    assert e in Ids(nodes);
    var p :| p in nodes && p.id == e;
    ExpansionsExact(nodes, p);
    var i: nat := if d.Worker? && p.fanout.Some? then d.index else 0;
    assert p.fanout.Some? ==> d in WorkerIds(p);
    var c := FanOutHas(nodes, p, i);
  }

  /** Fan-out leaves no dangling dep. */
  lemma {:induction false} FanOutClosed(nodes: seq<Node>)
    requires DistinctIds(nodes) && Closed(nodes)
    ensures Closed(FanOut(nodes))
  {
    var out, copies, ex := FanOut(nodes), FlatMap(nodes, WorkerCopies), Expansions(nodes);
    forall c, d | c in out && d in c.deps ensures d in Ids(out) {
      var i :| 0 <= i < |copies| && c == ExpandDeps(copies[i], ex);
      InFlatMap(nodes, WorkerCopies, copies[i]);
      var n :| n in nodes && copies[i] in WorkerCopies(n);
      assert copies[i].deps == n.deps;
      FannedDepExists(nodes, n, d);
    }
  }

  /** A consumer of a fanned-out node waits for every one of its workers. */
  lemma {:induction false} ConsumerWaitsForAll(nodes: seq<Node>, n: Node, p: Node, c: Node, i: nat)
    requires DistinctIds(nodes) && n in nodes && p in nodes && p.id in n.deps && p.fanout.Some? && i < p.fanout.value
    requires c in FanOut(nodes) && c.deps == FlatMap(n.deps, (d: Id) => ExpandDep(Expansions(nodes), d))
    ensures Worker(p.id, i) in c.deps
  {
    var ex := Expansions(nodes);
    var g := (e: Id) => ExpandDep(ex, e);
    ExpansionsExact(nodes, p);
    assert WorkerIds(p)[i] == Worker(p.id, i);
    assert Worker(p.id, i) in g(p.id);
    InFlatMap(n.deps, g, Worker(p.id, i));
  }
}
