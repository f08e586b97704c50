/**
  The ordering pass looks at one machine at a time.  On a chain that crosses between two machines four times it makes a
  recv wait for a send that waits, through the other machine, for that recv: nothing behind the first send ever runs.
 */
module Deadlock {
  import opened Prelude
  import opened Sequences
  import opened Graphs
  import opened SymbolicDag
  import opened Topo
  import opened StreamSplit
  import opened Slots
  import opened Cut
  import opened CutProofs
  import opened Ordering
  import opened ClusterRun
  import opened SlotClash
  import opened Partition
  import opened ListRuns
  import opened PlainGraph

  // ---------------------------------------------------------------------------
  // Who waits for himself never runs
  // ---------------------------------------------------------------------------

  lemma {:induction false} PrecedesTrans<V(!new)>(g: Graph<V>, u: V, v: V, w: V)
    requires Precedes(g, u, v) && Precedes(g, v, w)
    ensures Precedes(g, u, w)
  {
    PrecedesReaches(g, u, v);
    PrecedesReaches(g, v, w);
    ReachesTrans(g, u, v, w);
  }

  /** In no run of the lists does a node run that waits, directly or not, for one that waits for itself. */
  lemma {:induction false} NeverRuns(lists: seq<seq<Node>>, run: seq<Vertex>, u: Vertex, v: Vertex)
    requires IsListRun(lists, run) && Precedes(Waits(lists), u, u) && (u == v || Precedes(Waits(lists), u, v))
    ensures v !in run
  {
    if v in run {
      var p :| 0 <= p < |run| && run[p] == v;
      var w: seq<Vertex> :| WalkFromTo(Waits(lists), w, u, v) && |w| >= 2;
      LinearPrecedes(Waits(lists), run, p, w);
      var q :| 0 <= q < p && run[..p][q] == u;
      var c: seq<Vertex> :| WalkFromTo(Waits(lists), c, u, u) && |c| >= 2;
      LinearPrecedes(Waits(lists), run, q, c);
    }
  }

  // ---------------------------------------------------------------------------
  // The chain
  // ---------------------------------------------------------------------------

  const W: Id := Named("w")
  const X: Id := Named("x")
  const Y: Id := Named("y")
  const Z: Id := Named("z")
  const V: Id := Named("v")

  function Link(name: string, deps: seq<Id>, host: nat, slot: nat): Node {
    Example(name, deps, host, Some(slot), Func("f", Some(0), Some(slot), None, None, None))
  }

  /** w, y and v on machine 1, x and z on machine 0. */
  const CHAIN: seq<Node> := [
    Link("w", [], 1, 2), Link("x", [W], 0, 3), Link("y", [X], 1, 4), Link("z", [Y], 0, 5), Link("v", [Z], 1, 6)
  ]

  const CHAIN_ORDER: seq<nat> := [0, 1, 2, 3, 4]
  const HOPS: seq<Key> := [(W, 0), (X, 1), (Y, 0), (Z, 1)]
  const HOP_CUTS: Cuts := map[
                            (W, 0) := CrossEdge(1, 2, 0, 7), (X, 1) := CrossEdge(0, 3, 1, 8),
                            (Y, 0) := CrossEdge(1, 4, 0, 9), (Z, 1) := CrossEdge(0, 5, 1, 10)]

  lemma {:induction false} ChainCases(n: Node)
    requires n in CHAIN
    ensures n == CHAIN[0] || n == CHAIN[1] || n == CHAIN[2] || n == CHAIN[3] || n == CHAIN[4]
  {
  }

  lemma {:induction false} ChainDistinct()
    ensures DistinctIds(CHAIN) && MintedBefore(CHAIN, 1) && MintedBefore(CHAIN, 5)
    ensures CHAIN[0] in CHAIN && CHAIN[1] in CHAIN && CHAIN[2] in CHAIN && CHAIN[3] in CHAIN && CHAIN[4] in CHAIN
  {
    forall n | n in CHAIN
      ensures Generation(n.id) < 1 && forall d :: d in n.deps ==> Generation(d) < 1
    {
      ChainCases(n);
    }
    var key := (n: Node) => n.id;
    assert key(CHAIN[0]) == W && key(CHAIN[1]) == X && key(CHAIN[2]) == Y && key(CHAIN[3]) == Z && key(CHAIN[4]) == V;
  }

  lemma {:induction false} ChainLookups()
    ensures Lookup(CHAIN, W) == Some(CHAIN[0]) && Lookup(CHAIN, X) == Some(CHAIN[1])
    ensures Lookup(CHAIN, Y) == Some(CHAIN[2]) && Lookup(CHAIN, Z) == Some(CHAIN[3])
    ensures HostOf(CHAIN, W) == 1 && HostOf(CHAIN, X) == 0 && HostOf(CHAIN, Y) == 1 && HostOf(CHAIN, Z) == 0
  {
    ChainDistinct();
    LookupUnique(CHAIN, CHAIN[0]);
    LookupUnique(CHAIN, CHAIN[1]);
    LookupUnique(CHAIN, CHAIN[2]);
    LookupUnique(CHAIN, CHAIN[3]);
  }

  lemma {:induction false} ChainPlain()
    ensures Plain(CHAIN, 2)
  {
    forall n | n in CHAIN ensures PlainNode(n, 2) { ChainCases(n); }
  }

  lemma {:induction false} ChainIndex(i: nat)
    requires i < 5
    ensures IndexOf(CHAIN, CHAIN[i].id) == Some(i)
  {
    ChainDistinct();
    DistinctAt(CHAIN, IndexOf(CHAIN, CHAIN[i].id).value, i);
  }

  lemma {:induction false} ChainOrdered()
    ensures IsPermutation(CHAIN_ORDER, |CHAIN|) && DepsFirst(CHAIN, CHAIN_ORDER)
  {
    forall p: nat, d: nat | p < |CHAIN_ORDER| && DependsOn(CHAIN, CHAIN_ORDER[p], d) ensures d in CHAIN_ORDER[..p] {
      assert CHAIN_ORDER[p] == p;
      var e :| e in CHAIN[p].deps && IndexOf(CHAIN, e) == Some(d);
      assert p > 0 && e == CHAIN[p - 1].id;
      ChainIndex(p - 1);
      assert CHAIN_ORDER[..p][p - 1] == d;
    }
  }

  lemma {:induction false} ChainAcyclic()
    ensures Acyclic(Edges(CHAIN))
  {
    var w := [W, X, Y, Z, V];
    forall e | e in Edges(CHAIN)
      ensures e == (W, X) || e == (X, Y) || e == (Y, Z) || e == (Z, V)
    {
      var n, d :| n in CHAIN && d in n.deps && e == (d, n.id);
      ChainCases(n);
    }
    forall i, u | 0 <= i < |w| && (u, w[i]) in Edges(CHAIN) ensures u in w[..i] {
      assert i > 0 && u == w[i - 1];
      assert w[..i][i - 1] == u;
    }
    LinearAcyclic(Edges(CHAIN), w);
  }

  // ---------------------------------------------------------------------------
  // Its cuts
  // ---------------------------------------------------------------------------

  lemma {:induction false} ChainPlaced()
    ensures Placed(CHAIN, 2)
  {
    ChainDistinct();
    assert W in Ids(CHAIN) && X in Ids(CHAIN) && Y in Ids(CHAIN) && Z in Ids(CHAIN);
    forall n | n in CHAIN ensures n.host.Some? && n.host.value < 2 && forall d :: d in n.deps ==> d in Ids(CHAIN) {
      ChainCases(n);
    }
  }

  lemma {:induction false} ChainFresh()
    ensures IsFirstFresh(CHAIN, 7)
  {
    ChainDistinct();
    assert 6 in Scanned(CHAIN[4].kind);
    forall n, v | n in CHAIN && v in Scanned(n.kind) ensures v < 7 { ChainCases(n); }
  }

  lemma {:induction false} OneDepCut(nodes: seq<Node>, i: nat, keys: seq<Key>, d: Id, m: nat)
    requires i < |nodes| && CutsUpTo(nodes, i) == keys && nodes[i].deps == [d] && nodes[i].host == Some(m)
    requires HostOf(nodes, d) != m && (d, m) !in keys
    ensures CutsUpTo(nodes, i + 1) == keys + [(d, m)]
  {
    assert NodeCuts(nodes, nodes[i], 0, keys) == keys;
    assert NodeCuts(nodes, nodes[i], 1, keys) == keys + [(d, m)];
  }

  /** A chain of five whose hosts alternate is cut at every link. */
  lemma {:induction false} FiveKeys(nodes: seq<Node>, a: Key, b: Key, c: Key, d: Key)
    requires |nodes| == 5 && nodes[0].deps == [] && a != b && a != c && a != d && b != c && b != d && c != d
    requires nodes[1].deps == [a.0] && nodes[1].host == Some(a.1) && HostOf(nodes, a.0) != a.1
    requires nodes[2].deps == [b.0] && nodes[2].host == Some(b.1) && HostOf(nodes, b.0) != b.1
    requires nodes[3].deps == [c.0] && nodes[3].host == Some(c.1) && HostOf(nodes, c.0) != c.1
    requires nodes[4].deps == [d.0] && nodes[4].host == Some(d.1) && HostOf(nodes, d.0) != d.1
    ensures CutOrder(nodes) == [a, b, c, d]
  {
    NoDepsNoCuts(nodes, 0, []);
    OneDepCut(nodes, 1, [], a.0, a.1);
    OneDepCut(nodes, 2, [a], b.0, b.1);
    OneDepCut(nodes, 3, [a, b], c.0, c.1);
    OneDepCut(nodes, 4, [a, b, c], d.0, d.1);
  }

  lemma {:induction false} ChainKeys()
    ensures CutOrder(CHAIN) == HOPS
  {
    ChainLookups();
    FiveKeys(CHAIN, (W, 0), (X, 1), (Y, 0), (Z, 1));
  }

  lemma {:induction false} HopEdge(i: nat)
    requires i < 4
    ensures HOPS[i] in HOP_CUTS && HOP_CUTS[HOPS[i]] == EdgeFor(CHAIN, HOPS[i].0, HOPS[i].1, 7 + i)
    ensures Sendable(CHAIN, HOPS[i].0)
  {
    ChainLookups();
    assert i == 0 || i == 1 || i == 2 || i == 3;
  }

  lemma {:induction false} HopsListed(k: Key)
    ensures k in HOP_CUTS <==> k in HOPS
  {
    assert HOPS[0] == (W, 0) && HOPS[1] == (X, 1) && HOPS[2] == (Y, 0) && HOPS[3] == (Z, 1);
    assert k in HOP_CUTS ==> k == HOPS[0] || k == HOPS[1] || k == HOPS[2] || k == HOPS[3];
  }

  lemma {:induction false} ChainNumbered()
    ensures Numbered(CHAIN, HOPS, HOP_CUTS, 7) && KeysCut(HOPS, HOP_CUTS) && AllSendable(CHAIN, HOPS)
  {
    forall i | 0 <= i < |HOPS|
      ensures HOPS[i] in HOP_CUTS && HOP_CUTS[HOPS[i]] == EdgeFor(CHAIN, HOPS[i].0, HOPS[i].1, 7 + i)
      ensures Sendable(CHAIN, HOPS[i].0)
    {
      HopEdge(i);
    }
    forall k ensures k in HOP_CUTS <==> k in HOPS { HopsListed(k); }
  }

  lemma {:induction false} ChainCuts()
    ensures CutsFor(CHAIN, HOPS, HOP_CUTS, 7) && KeysCut(HOPS, HOP_CUTS) && DestsMatch(HOPS, HOP_CUTS)
  {
    ChainPlaced();
    ChainKeys();
    ChainNumbered();
    CutsComplete(CHAIN, 2, HOPS, HOP_CUTS, 7);
    CutsMatchDests(CHAIN, HOPS, HOP_CUTS, 7);
  }

  // ---------------------------------------------------------------------------
  // Machine 0 before ordering
  // ---------------------------------------------------------------------------

  const RW: Id := RecvOf(W, 1)
  const RY: Id := RecvOf(Y, 1)
  const SX: Id := SendOf(X, 1)
  const SZ: Id := SendOf(Z, 1)

  ghost function Pieces(): seq<Node> {
    ChainNumbered();
    Emitted(CHAIN, HOPS, HOP_CUTS)
  }

  lemma {:induction false} OnStep(items: seq<Node>, m: nat, k: nat)
    requires k < |items|
    ensures On(items[..k + 1], m) == On(items[..k], m) + (if items[k].host == Some(m) then [items[k]] else [])
  {
    assert items[..k + 1][..k] == items[..k];
  }

  /** The emitted items by place: four recvs, five nodes, four sends. */
  lemma {:induction false} PiecesAt()
    ensures KeysCut(HOPS, HOP_CUTS) && |Pieces()| == 13
    ensures forall i :: 0 <= i < 4 ==> Pieces()[i] == RecvNode(HOPS[i].0, HOP_CUTS[HOPS[i]])
    ensures forall i :: 0 <= i < 5 ==> Pieces()[4 + i] == Rewritten(CHAIN, HOP_CUTS, CHAIN[i], Host(CHAIN[i]))
    ensures forall i :: 0 <= i < 4 ==> Pieces()[9 + i] == SendNode(HOPS[i].0, HOP_CUTS[HOPS[i]])
  {
    ChainNumbered();
  }

  /** Where the items of the chain sit. */
  ghost predicate HostPattern(p: seq<Node>) {
    && |p| == 13
    && p[0].host == Some(0) && p[1].host == Some(1) && p[2].host == Some(0) && p[3].host == Some(1)
    && p[4].host == Some(1) && p[5].host == Some(0) && p[6].host == Some(1) && p[7].host == Some(0)
    && p[8].host == Some(1) && p[9].host == Some(1) && p[10].host == Some(0) && p[11].host == Some(1)
    && p[12].host == Some(0)
  }

  /** The first k items of machine 0, unfolded only on demand. */
  ghost predicate OnIs(p: seq<Node>, k: nat, list: seq<Node>)
    requires k <= |p|
  {
    forall u :: Prelude.Key(ListLock, u) ==> On(p[..k], 0) == list
  }

  lemma {:induction false} Skip(p: seq<Node>, k: nat, before: seq<Node>)
    requires k < |p| && OnIs(p, k, before) && p[k].host == Some(1)
    ensures OnIs(p, k + 1, before)
  {
    assert Prelude.Key(ListLock, 0);
    OnStep(p, 0, k);
  }

  lemma {:induction false} Take(p: seq<Node>, k: nat, before: seq<Node>)
    requires k < |p| && OnIs(p, k, before) && p[k].host == Some(0)
    ensures OnIs(p, k + 1, before + [p[k]])
  {
    assert Prelude.Key(ListLock, 0);
    OnStep(p, 0, k);
  }

  lemma {:induction false} OnZero(p: seq<Node>) returns (list: seq<Node>)
    requires HostPattern(p)
    ensures list == [p[0], p[2], p[5], p[7], p[10], p[12]] && OnIs(p, 13, list)
  {
    var a: seq<Node> := [];
    assert OnIs(p, 0, a);
    Take(p, 0, a);
    var b := a + [p[0]];
    Skip(p, 1, b);
    Take(p, 2, b);
    var c := b + [p[2]];
    Skip(p, 3, c);
    Skip(p, 4, c);
    Take(p, 5, c);
    var d := c + [p[5]];
    Skip(p, 6, d);
    Take(p, 7, d);
    var e := d + [p[7]];
    Skip(p, 8, e);
    Skip(p, 9, e);
    Take(p, 10, e);
    var f := e + [p[10]];
    Skip(p, 11, f);
    Take(p, 12, f);
    list := f + [p[12]];
  }

  lemma {:induction false} PieceHosts()
    ensures HostPattern(Pieces())
  {
    PiecesAt();
    var p := Pieces();
    forall i | 0 <= i < 4
      ensures p[i].host == Some(HOP_CUTS[HOPS[i]].dest) && p[9 + i].host == Some(HOP_CUTS[HOPS[i]].srcMachine)
    {}
    forall i | 0 <= i < 5 ensures p[4 + i].host == Some(Host(CHAIN[i])) {}
    HopEnds();
    assert p[4 + 0].host == Some(1) && p[4 + 1].host == Some(0) && p[4 + 2].host == Some(1);
    assert p[4 + 3].host == Some(0) && p[4 + 4].host == Some(1);
    assert p[9 + 0].host == Some(1) && p[9 + 1].host == Some(0) && p[9 + 2].host == Some(1) && p[9 + 3].host == Some(0);
  }

  lemma {:induction false} HopEnds()
    ensures HOPS[0] == (W, 0) && HOP_CUTS[HOPS[0]] == CrossEdge(1, 2, 0, 7)
    ensures HOPS[1] == (X, 1) && HOP_CUTS[HOPS[1]] == CrossEdge(0, 3, 1, 8)
    ensures HOPS[2] == (Y, 0) && HOP_CUTS[HOPS[2]] == CrossEdge(1, 4, 0, 9)
    ensures HOPS[3] == (Z, 1) && HOP_CUTS[HOPS[3]] == CrossEdge(0, 5, 1, 10)
    ensures Host(CHAIN[0]) == 1 && Host(CHAIN[1]) == 0 && Host(CHAIN[2]) == 1 && Host(CHAIN[3]) == 0
    ensures Host(CHAIN[4]) == 1
  {
  }

  ghost predicate Six(list: seq<Node>) {
    && |list| == 6
    && list[0].id == RW && list[0].deps == [] && RecvPeer(list[0]) == Some(1) && SendPeer(list[0]) == None
    && list[1].id == RY && list[1].deps == [] && RecvPeer(list[1]) == Some(1) && SendPeer(list[1]) == None
    && list[2].id == X && list[2].deps == [RW] && RecvPeer(list[2]) == None && SendPeer(list[2]) == None
    && list[3].id == Z && list[3].deps == [RY] && RecvPeer(list[3]) == None && SendPeer(list[3]) == None
    && list[4].id == SX && list[4].deps == [X] && RecvPeer(list[4]) == None && SendPeer(list[4]) == Some(1)
    && list[5].id == SZ && list[5].deps == [Z] && RecvPeer(list[5]) == None && SendPeer(list[5]) == Some(1)
  }

  lemma {:induction false} RewrittenLink(n: Node, d: Id)
    requires n in CHAIN && n.deps == [d]
    ensures var y := Rewritten(CHAIN, HOP_CUTS, n, Host(n));
            && y.id == n.id && y.deps == [LocalDep(CHAIN, d, Host(n))] && RecvPeer(y) == None && SendPeer(y) == None
  {
    ChainCases(n);
  }

  lemma {:induction false} TransferPieces(p: seq<Node>)
    requires p == Pieces()
    ensures |p| == 13
    ensures p[0].id == RW && p[0].deps == [] && RecvPeer(p[0]) == Some(1) && SendPeer(p[0]) == None
    ensures p[2].id == RY && p[2].deps == [] && RecvPeer(p[2]) == Some(1) && SendPeer(p[2]) == None
    ensures p[10].id == SX && p[10].deps == [X] && RecvPeer(p[10]) == None && SendPeer(p[10]) == Some(1)
    ensures p[12].id == SZ && p[12].deps == [Z] && RecvPeer(p[12]) == None && SendPeer(p[12]) == Some(1)
  {
    PiecesAt();
    HopEnds();
    assert p[9 + 1] == SendNode(X, CrossEdge(0, 3, 1, 8)) && p[9 + 3] == SendNode(Z, CrossEdge(0, 5, 1, 10));
  }

  lemma {:induction false} NodePieces(p: seq<Node>)
    requires p == Pieces()
    ensures |p| == 13
    ensures p[5].id == X && p[5].deps == [RW] && RecvPeer(p[5]) == None && SendPeer(p[5]) == None
    ensures p[7].id == Z && p[7].deps == [RY] && RecvPeer(p[7]) == None && SendPeer(p[7]) == None
  {
    PiecesAt();
    ChainDistinct();
    ChainLookups();
    HopEnds();
    RewrittenLink(CHAIN[1], W);
    RewrittenLink(CHAIN[3], Y);
    assert p[4 + 1] == Rewritten(CHAIN, HOP_CUTS, CHAIN[1], Host(CHAIN[1]));
    assert p[4 + 3] == Rewritten(CHAIN, HOP_CUTS, CHAIN[3], Host(CHAIN[3]));
  }

  /** The list of machine 0: recvs of w and y, x and z, sends of x and z. */
  lemma {:induction false} ListZeroIsSix()
    ensures Six(On(Pieces(), 0))
  {
    var p := Pieces();
    PieceHosts();
    var list := OnZero(p);
    TransferPieces(p);
    NodePieces(p);
    SixIsOn(p, list);
  }

  lemma {:induction false} SixIsOn(p: seq<Node>, list: seq<Node>)
    requires |p| == 13 && OnIs(p, 13, list) && Six(list)
    ensures Six(On(p, 0))
  {
    assert Prelude.Key(ListLock, 0);
    assert p[..13] == p;
  }

  // ---------------------------------------------------------------------------
  // What the ordering pass adds there
  // ---------------------------------------------------------------------------

  lemma {:induction false} SixSteps<B>(list: seq<Node>, f: Node -> seq<B>)
    requires |list| == 6
    ensures FlatMap(list, f) == f(list[0]) + f(list[1]) + f(list[2]) + f(list[3]) + f(list[4]) + f(list[5])
  {
    var a: seq<B> := [];
    assert list[..6] == list && list[..0] == [];
    FlatMapStep(list, f, 0);
    var b := a + f(list[0]);
    FlatMapStep(list, f, 1);
    FlatMapStep(list, f, 2);
    FlatMapStep(list, f, 3);
    FlatMapStep(list, f, 4);
    FlatMapStep(list, f, 5);
    assert FlatMap(list[..1], f) == b == f(list[0]);
  }

  lemma {:induction false} SixIds(list: seq<Node>, peerOf: Node -> Option<nat>, p: nat)
    requires |list| == 6
    ensures var f := (n: Node) => if peerOf(n) == Some(p) then [n.id] else [];
            IdsWith(list, peerOf, p) == f(list[0]) + f(list[1]) + f(list[2]) + f(list[3]) + f(list[4]) + f(list[5])
  {
    SixSteps(list, (n: Node) => if peerOf(n) == Some(p) then [n.id] else []);
  }

  lemma {:induction false} SixPeersIn(list: seq<Node>, peerOf: Node -> Option<nat>)
    requires |list| == 6
    ensures var f := (n: Node) => if peerOf(n).Some? then [peerOf(n).value] else [];
            PeersIn(list, peerOf) == f(list[0]) + f(list[1]) + f(list[2]) + f(list[3]) + f(list[4]) + f(list[5])
  {
    SixSteps(list, (n: Node) => if peerOf(n).Some? then [peerOf(n).value] else []);
  }

  lemma {:induction false} SixPeers(list: seq<Node>)
    requires Six(list)
    ensures PeersIn(list, RecvPeer) == [1, 1]
    ensures IdsWith(list, RecvPeer, 1) == [RW, RY] && IdsWith(list, SendPeer, 1) == [SX, SZ]
  {
    SixPeersIn(list, RecvPeer);
    SixIds(list, RecvPeer, 1);
    SixIds(list, SendPeer, 1);
  }

  lemma {:induction false} OnePeer(list: seq<Node>)
    requires Six(list)
    ensures PeerOrder(list) == [1]
  {
    SixPeers(list);
    var ps, o := PeersIn(list, RecvPeer), PeerOrder(list);
    AscendingCorrect(ps);
    MultisetMembers(Ascending(ps), ps);
    DedupCorrect(Ascending(ps));
    forall x | x in o ensures x == 1 {}
    assert 1 in ps;
    assert forall i :: 0 <= i < |o| ==> o[i] in o;
    assert |o| >= 1;
  }

  lemma {:induction false} SixPairs(list: seq<Node>)
    requires Six(list)
    ensures |PairsOf(list)| == 4 && PairsOf(list)[0] == (RW, SX) && PairsOf(list)[1] == (RW, SZ)
  {
    SixPeers(list);
    OnePeer(list);
    var f := (p: nat) => PeerPairs(IdsWith(list, RecvPeer, p), IdsWith(list, SendPeer, p));
    var one: seq<nat> := [1];
    FlatMapStep(one, f, 0);
    assert one[..1] == one && one[..0] == [];
    var g := (r: Id) => RecvPairs(r, [SX, SZ]);
    var recvs: seq<Id> := [RW, RY];
    FlatMapStep(recvs, g, 0);
    FlatMapStep(recvs, g, 1);
    assert recvs[..2] == recvs && recvs[..0] == [];
    assert g(RW) == [(RW, SX), (RW, SZ)] && g(RY) == [(RY, SX), (RY, SZ)];
    assert PeerPairs(recvs, [SX, SZ]) == [(RW, SX), (RW, SZ), (RY, SX), (RY, SZ)];
  }

  lemma {:induction false} SixEdges(list: seq<Node>, e: (Id, Id))
    requires Six(list)
    ensures e in Edges(list) <==> e == (RW, X) || e == (RY, Z) || e == (X, SX) || e == (Z, SZ)
  {
    assert list[2] in list && list[3] in list && list[4] in list && list[5] in list;
    if e in Edges(list) {
      var n, d :| n in list && d in n.deps && e == (d, n.id);
      var i :| 0 <= i < |list| && list[i] == n;
    }
  }

  /** The recv of w reaches the send of x and not yet the send of z. */
  lemma {:induction false} SixReaches(list: seq<Node>)
    requires Six(list)
    ensures Reaches(Edges(list), RW, SX) && !Reaches(Edges(list), RW, SZ)
  {
    var g := Edges(list);
    SixEdges(list, (RW, X));
    SixEdges(list, (X, SX));
    assert WalkFromTo(g, [RW, X, SX], RW, SX);
    if w: seq<Id> :| WalkFromTo(g, w, RW, SZ) {
      forall e | e in g && e.0 in {RW, X, SX} ensures e.1 in {RW, X, SX} { SixEdges(list, e); }
      ClosedKeepsWalks(g, {RW, X, SX}, w);
    }
  }

  lemma {:induction false} ChosenStays(g: Graph<Id>, pairs: Pairs, k: nat, p: (Id, Id))
    requires k <= |pairs| && p in Chosen(g, pairs[..k])
    ensures p in Chosen(g, pairs)
    decreases |pairs|
  {
    if k == |pairs| {
      assert pairs[..k] == pairs;
    } else {
      var init := pairs[..|pairs| - 1];
      assert init[..k] == pairs[..k];
      ChosenStays(g, init, k, p);
    }
  }

  /** So the recv of w is made to wait for the send of z. */
  lemma {:induction false} RecvWaitsForSend(list: seq<Node>)
    requires Six(list)
    ensures (RW, SZ) in Chosen(Edges(list), PairsOf(list))
  {
    var g, pairs := Edges(list), PairsOf(list);
    SixPairs(list);
    SixReaches(list);
    assert pairs[..1] == [] + [(RW, SX)] && pairs[..2] == pairs[..1] + [(RW, SZ)];
    assert AddedEdges([]) == {} && g + {} == g;
    ChosenStep(g, [], (RW, SX));
    ChosenStep(g, pairs[..1], (RW, SZ));
    ChosenStays(g, pairs, 2, (RW, SZ));
  }

  // ---------------------------------------------------------------------------
  // The cycle
  // ---------------------------------------------------------------------------

  ghost function ChainLists(): seq<seq<Node>> {
    [OrderedList(On(Pieces(), 0)), OrderedList(On(Pieces(), 1))]
  }

  ghost function ChainTrace(): Trace {
    Trace(map[], Unchanged(CHAIN, CHAIN_ORDER), HOPS, HOP_CUTS, 7)
  }

  lemma {:induction false} ChainKinds(n: Node)
    requires n in CHAIN
    ensures EmitKind(CHAIN, HOP_CUTS, n, OrElse(n.host, 0)).Some?
  {
    ChainCases(n);
  }

  lemma {:induction false} ChainEmitted()
    ensures EmittedAs(CHAIN, 2, ChainTrace(), ChainLists())
  {
    ChainPlaced();
    ChainFresh();
    ChainKeys();
    ChainCuts();
    forall n | n in CHAIN ensures EmitKind(CHAIN, HOP_CUTS, n, OrElse(n.host, 0)).Some? { ChainKinds(n); }
    var t, lists := ChainTrace(), ChainLists();
    forall m | 0 <= m < 2 ensures lists[m] == OrderedList(On(Emitted(CHAIN, HOPS, HOP_CUTS), m)) {
      assert m == 0 || m == 1;
    }
  }

  lemma {:induction false} AddedWait()
    ensures ((0, SZ), (0, RW)) in Waits(ChainLists())
  {
    ListZeroIsSix();
    var list := On(Pieces(), 0);
    RecvWaitsForSend(list);
    var added := Chosen(Edges(list), PairsOf(list));
    WithDepsMembers(list[0], added);
    var x := OrderedList(list)[0];
    assert x in ChainLists()[0] && SZ in x.deps;
    WaitsFor(ChainLists(), 0, x, (0, SZ));
  }

  /** One hop: the arrived value, its consumer, the consumer's send, the next recv. */
  lemma {:induction false} Hop(n: Node, d: Id, k: Key)
    requires n in CHAIN && n.deps == [d] && k in HOPS && k.0 == n.id && HOP_CUTS[k].srcMachine == Host(n)
    requires KeysCut(HOPS, HOP_CUTS)
    ensures var g, m := ClusterEdges(Emitted(CHAIN, HOPS, HOP_CUTS), HOPS, HOP_CUTS), Host(n);
            && Precedes(g, (m, LocalDep(CHAIN, d, m)), (m, n.id)) && Precedes(g, (m, n.id), (m, SendOf(n.id, k.1)))
            && Precedes(g, (m, LocalDep(CHAIN, d, m)), (k.1, RecvOf(n.id, m)))
            && Precedes(g, (m, n.id), (k.1, RecvOf(n.id, m)))
  {
    var g, m := ClusterEdges(Emitted(CHAIN, HOPS, HOP_CUTS), HOPS, HOP_CUTS), Host(n);
    var u, v, s, r := (m, LocalDep(CHAIN, d, m)), (m, n.id), (m, SendOf(n.id, k.1)), (k.1, RecvOf(n.id, m));
    ChainCuts();
    DepEdge(CHAIN, HOPS, HOP_CUTS, n, d);
    SendEdge(CHAIN, HOPS, HOP_CUTS, k);
    assert (s, r) in g;
    EdgePrecedes(g, u, v);
    EdgePrecedes(g, v, s);
    EdgePrecedes(g, s, r);
    PrecedesTrans(g, v, s, r);
    PrecedesTrans(g, u, v, r);
  }

  /** Along the chain the recv of w precedes everything up to the send of z. */
  lemma {:induction false} ChainPrecedes()
    ensures KeysCut(HOPS, HOP_CUTS)
    ensures var g := ClusterEdges(Emitted(CHAIN, HOPS, HOP_CUTS), HOPS, HOP_CUTS);
            && Precedes(g, (0, RW), (0, X)) && Precedes(g, (0, RW), (1, Y)) && Precedes(g, (0, RW), (0, Z))
            && Precedes(g, (0, RW), (0, SZ)) && Precedes(g, (0, RW), (1, V))
  {
    ChainCuts();
    ChainDistinct();
    ChainLookups();
    var g := ClusterEdges(Emitted(CHAIN, HOPS, HOP_CUTS), HOPS, HOP_CUTS);
    assert HOPS[1] in HOPS && HOPS[2] in HOPS && HOPS[3] in HOPS;
    Hop(CHAIN[1], W, (X, 1));
    Hop(CHAIN[2], X, (Y, 0));
    Hop(CHAIN[3], Y, (Z, 1));
    var rw: Vertex, rx: Vertex, ry: Vertex, rz: Vertex := (0, RW), (1, RecvOf(X, 0)), (0, RY), (1, RecvOf(Z, 0));
    PrecedesTrans(g, rw, rx, (1, Y));
    PrecedesTrans(g, rw, rx, ry);
    PrecedesTrans(g, rw, ry, (0, Z));
    PrecedesTrans(g, rw, (0, Z), (0, SZ));
    PrecedesTrans(g, rw, ry, rz);
    DepEdge(CHAIN, HOPS, HOP_CUTS, CHAIN[4], Z);
    EdgePrecedes(g, rz, (1, V));
    PrecedesTrans(g, rw, rz, (1, V));
  }

  lemma {:induction false} WaitsForItself()
    ensures var g := Waits(ChainLists());
            && Precedes(g, (0, RW), (0, RW)) && Precedes(g, (0, RW), (0, X)) && Precedes(g, (0, RW), (1, Y))
            && Precedes(g, (0, RW), (0, Z)) && Precedes(g, (0, RW), (1, V))
  {
    var g := Waits(ChainLists());
    ChainPrecedes();
    ChainEmitted();
    WaitsContain(CHAIN, 2, ChainTrace(), ChainLists());
    var h := ClusterEdges(Emitted(CHAIN, HOPS, HOP_CUTS), HOPS, HOP_CUTS);
    SubgraphReaches(h, g, (0, RW), (0, X));
    SubgraphReaches(h, g, (0, RW), (1, Y));
    SubgraphReaches(h, g, (0, RW), (0, Z));
    SubgraphReaches(h, g, (0, RW), (0, SZ));
    SubgraphReaches(h, g, (0, RW), (1, V));
    AddedWait();
    EdgePrecedes(g, (0, SZ), (0, RW));
    PrecedesTrans(g, (0, RW), (0, SZ), (0, RW));
  }

  ghost const TWO_MACHINES: Setting :=
    Setting(2, Hints(map[], map[], map[]), None, false, {}, {})

  /** The chain is an acyclic graph on which the partitioner succeeds. */
  lemma {:induction false} ChainRealised()
    ensures Acyclic(Edges(CHAIN)) && ValidSetting(TWO_MACHINES)
    ensures TWO_MACHINES == SettingOf(CHAIN, 2, Hints(map[], map[], map[]), None, false)
    ensures Partition.WellFormed(CHAIN, 1) && Realises(CHAIN, TWO_MACHINES, ChainTrace(), ChainLists())
  {
    ChainAcyclic();
    ChainDistinct();
    ChainPlain();
    ChainOrdered();
    ChainEmitted();
    PlainSettingOf(CHAIN, 2, TWO_MACHINES.hints);
    PlainRealises(CHAIN, TWO_MACHINES, CHAIN_ORDER, ChainTrace(), ChainLists());
  }

  /** No run of its lists gets past w and its send. */
  lemma {:induction false} ChainStuck(run: seq<Vertex>)
    requires IsListRun(ChainLists(), run)
    ensures !Acyclic(Waits(ChainLists()))
    ensures (0, X) !in run && (1, Y) !in run && (0, Z) !in run && (1, V) !in run
  {
    WaitsForItself();
    NeverRuns(ChainLists(), run, (0, RW), (0, X));
    NeverRuns(ChainLists(), run, (0, RW), (1, Y));
    NeverRuns(ChainLists(), run, (0, RW), (0, Z));
    NeverRuns(ChainLists(), run, (0, RW), (1, V));
  }
}
