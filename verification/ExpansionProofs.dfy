/** Replication and fan-out keep the dependency graph acyclic and names distinct. */
module ExpansionProofs {
  import opened Prelude
  import opened Sequences
  import opened Graphs
  import opened SymbolicDag
  import opened Expansion

  function Unreplicate(id: Id): Id {
    if id.Replica? then id.template else id
  }

  function Unfan(id: Id): Id {
    if id.Worker? then id.template else id
  }

  ghost predicate Minted(n: Node, k: nat) {
    Generation(n.id) < k && forall d :: d in n.deps ==> Generation(d) < k
  }

  lemma {:induction false} ReplicaOrigin(n: Node, ts: set<Id>, counts: Option<seq<nat>>, m: nat)
    requires Minted(n, 1)
    ensures var c := ReplicaNode(n, ts, counts, m);
            Unreplicate(c.id) == n.id && Minted(c, 2) && forall d :: d in c.deps ==> Unreplicate(d) in n.deps
  {
  }

  lemma {:induction false} GatherOrigin(n: Node, ts: set<Id>, total: nat, d: Id)
    requires Minted(n, 1) && d in GatherDeps(n, ts, total)
    ensures Unreplicate(d) in n.deps && Generation(d) < 2
  {
    var g := (d: Id) => GatherDep(ts, d, n.host, total);
    InFlatMap(n.deps, g, d);
    var d0 :| d0 in n.deps && d in g(d0);
  }

  /** Where a replicated node and each of its deps come from. */
  lemma {:induction false} ReplicateOrigin(nodes: seq<Node>, total: nat, hints: Hints, c: Node) returns (n: Node)
    requires NonNegativeHints(hints) && MintedBefore(nodes, 1) && c in Replicate(nodes, total, hints)
    ensures n in nodes && Unreplicate(c.id) == n.id
    ensures forall d :: d in c.deps ==> Unreplicate(d) in n.deps
    ensures Minted(c, 2)
  {
    var ts := Templates(nodes);
    if ts == {} {
      n := c;
      assert Minted(n, 1);
    } else {
      var f := (n: Node) => ReplicateNode(n, ts, total, hints);
      InFlatMap(nodes, f, c);
      n :| n in nodes && c in f(n);
      assert Minted(n, 1);
      if n.all {
        var counts := FanoutCounts(n, total, hints);
        var m :| 0 <= m < total && c == ReplicaNode(n, ts, counts, m);
        ReplicaOrigin(n, ts, counts, m);
      } else {
        forall d | d in c.deps
          ensures Unreplicate(d) in n.deps && Generation(d) < 2
        {
          GatherOrigin(n, ts, total, d);
        }
      }
    }
  }

  lemma {:induction false} ReplicateKeepsOrder(nodes: seq<Node>, total: nat, hints: Hints)
    requires NonNegativeHints(hints) && MintedBefore(nodes, 1)
    ensures MintedBefore(Replicate(nodes, total, hints), 2)
    ensures Acyclic(Edges(nodes)) ==> Acyclic(Edges(Replicate(nodes, total, hints)))
    ensures DistinctIds(nodes) ==> DistinctIds(Replicate(nodes, total, hints))
  {
    var out := Replicate(nodes, total, hints);
    forall c | c in out
      ensures Generation(c.id) < 2 && forall d :: d in c.deps ==> Generation(d) < 2
    {
      var _ := ReplicateOrigin(nodes, total, hints, c);
    }
    if Acyclic(Edges(nodes)) {
      var rank := (id: Id) => 0;
      forall e | e in Edges(out)
        ensures Precedes(Edges(nodes), Unreplicate(e.0), Unreplicate(e.1))
      {
        var c, d :| c in out && d in c.deps && e == (d, c.id);
        var n := ReplicateOrigin(nodes, total, hints, c);
        EdgePrecedes(Edges(nodes), Unreplicate(d), n.id);
      }
      ProjectionAcyclic(Edges(out), Edges(nodes), Unreplicate, rank);
    }
    if DistinctIds(nodes) && Templates(nodes) != {} {
      var key, ts := (n: Node) => n.id, Templates(nodes);
      var f := (n: Node) => ReplicateNode(n, ts, total, hints);
      FlatMapDistinct(nodes, f, key, key, Unreplicate);
    }
  }

  lemma {:induction false} ExpansionsOf(nodes: seq<Node>, d: Id)
    requires d in Expansions(nodes)
    ensures forall x :: x in Expansions(nodes)[d] ==> x.Worker? && x.template == d
  {
    var init, n := nodes[..|nodes| - 1], nodes[|nodes| - 1];
    if !(n.fanout.Some? && n.id == d) {
      ExpansionsOf(init, d);
    }
  }

  lemma {:induction false} FanOutOrigin(nodes: seq<Node>, c: Node) returns (n: Node)
    requires MintedBefore(nodes, 2) && c in FanOut(nodes)
    ensures n in nodes && Unfan(c.id) == n.id
    ensures forall d :: d in c.deps ==> Unfan(d) in n.deps
    ensures Generation(c.id) < 3 && forall d :: d in c.deps ==> Generation(d) < 3
  {
    var copies, ex := FlatMap(nodes, WorkerCopies), Expansions(nodes);
    var i :| 0 <= i < |copies| && c == ExpandDeps(copies[i], ex);
    InFlatMap(nodes, WorkerCopies, copies[i]);
    n :| n in nodes && copies[i] in WorkerCopies(n);
    assert copies[i].deps == n.deps;
    forall d | d in c.deps
      ensures Unfan(d) in n.deps && Generation(d) < 3
    {
      FanDepOrigin(nodes, n, ex, d);
    }
  }

  lemma {:induction false} FanDepOrigin(nodes: seq<Node>, n: Node, ex: map<Id, seq<Id>>, d: Id)
    requires MintedBefore(nodes, 2) && n in nodes && ex == Expansions(nodes)
    requires d in FlatMap(n.deps, (e: Id) => ExpandDep(ex, e))
    ensures Unfan(d) in n.deps && Generation(d) < 3
  {
    var g := (d: Id) => ExpandDep(ex, d);
    InFlatMap(n.deps, g, d);
    var d0 :| d0 in n.deps && d in g(d0);
    if d0 in ex { ExpansionsOf(nodes, d0); }
  }

  lemma {:induction false} FanOutKeepsOrder(nodes: seq<Node>)
    requires MintedBefore(nodes, 2)
    ensures MintedBefore(FanOut(nodes), 3)
    ensures Acyclic(Edges(nodes)) ==> Acyclic(Edges(FanOut(nodes)))
    ensures DistinctIds(nodes) ==> DistinctIds(FanOut(nodes))
  {
    var out := FanOut(nodes);
    forall c | c in out
      ensures Generation(c.id) < 3 && forall d :: d in c.deps ==> Generation(d) < 3
    {
      var _ := FanOutOrigin(nodes, c);
    }
    if Acyclic(Edges(nodes)) {
      var rank := (id: Id) => 0;
      forall e | e in Edges(out)
        ensures Precedes(Edges(nodes), Unfan(e.0), Unfan(e.1))
      {
        var c, d :| c in out && d in c.deps && e == (d, c.id);
        var n := FanOutOrigin(nodes, c);
        EdgePrecedes(Edges(nodes), Unfan(d), n.id);
      }
      ProjectionAcyclic(Edges(out), Edges(nodes), Unfan, rank);
    }
    if DistinctIds(nodes) {
      var key := (n: Node) => n.id;
      FlatMapDistinct(nodes, WorkerCopies, key, key, Unfan);
      var copies := FlatMap(nodes, WorkerCopies);
      forall i, j | 0 <= i < j < |out| ensures key(out[i]) != key(out[j]) {
        assert key(copies[i]) != key(copies[j]);
      }
    }
  }
}
