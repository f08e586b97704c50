/** What cutting cross-machine edges guarantees about the emitted graphs and slots. */
module CutProofs {
  import opened Prelude
  import opened Graphs
  import opened SymbolicDag
  import opened Slots
  import opened Cut

  /** Where an emitted item comes from. */
  datatype Origin = FromRecv(key: Key) | FromSend(key: Key) | FromNode(node: Node)

  ghost predicate KeysCut(keys: seq<Key>, cuts: Cuts) {
    forall i :: 0 <= i < |keys| ==> keys[i] in cuts
  }

  lemma {:induction false} CutsHaveKeys(nodes: seq<Node>, keys: seq<Key>, cuts: Cuts, first: nat)
    requires CutsFor(nodes, keys, cuts, first)
    ensures KeysCut(keys, cuts)
  {
    assert forall i :: 0 <= i < |keys| ==> keys[i] in keys;
  }

  /** x is what o is emitted as, up to its kind. */
  ghost predicate EmittedFrom(nodes: seq<Node>, keys: seq<Key>, cuts: Cuts, x: Node, o: Origin)
    requires KeysCut(keys, cuts)
  {
    match o
    case FromRecv(k) =>
      k in keys && x.id == RecvOf(k.0, cuts[k].srcMachine) && x.deps == [] && x.host == Some(cuts[k].dest)
    case FromSend(k) =>
      k in keys && x.id == SendOf(k.0, cuts[k].dest) && x.deps == [k.0] && x.host == Some(cuts[k].srcMachine)
    case FromNode(n) =>
      && n in nodes && x.id == n.id && x.host == Some(OrElse(n.host, 0))
      && forall d :: d in x.deps ==> exists e :: e in n.deps && d == LocalDep(nodes, e, OrElse(n.host, 0))
  }

  lemma {:induction false} OriginOf(nodes: seq<Node>, keys: seq<Key>, cuts: Cuts, x: Node) returns (o: Origin)
    requires KeysCut(keys, cuts) && x in Emitted(nodes, keys, cuts)
    ensures EmittedFrom(nodes, keys, cuts, x, o)
  {
    var a, b, c := AllRecvs(keys, cuts), AllRewritten(nodes, cuts), AllSends(keys, cuts);
    if x in a {
      var i :| 0 <= i < |a| && a[i] == x;
      o := FromRecv(keys[i]);
    } else if x in c {
      var i :| 0 <= i < |c| && c[i] == x;
      o := FromSend(keys[i]);
    } else {
      var i :| 0 <= i < |b| && b[i] == x;
      o := FromNode(nodes[i]);
      forall d | d in x.deps
        ensures exists e :: e in nodes[i].deps && d == LocalDep(nodes, e, OrElse(nodes[i].host, 0))
      {
        var j :| 0 <= j < |x.deps| && x.deps[j] == d;
        assert nodes[i].deps[j] in nodes[i].deps;
      }
    }
  }

  lemma {:induction false} RecvEmitted(nodes: seq<Node>, keys: seq<Key>, cuts: Cuts, k: Key)
    requires KeysCut(keys, cuts) && k in keys
    ensures RecvOf(k.0, cuts[k].srcMachine) in Ids(On(Emitted(nodes, keys, cuts), cuts[k].dest))
  {
    var i :| 0 <= i < |keys| && keys[i] == k;
    var r := AllRecvs(keys, cuts)[i];
    assert r in Emitted(nodes, keys, cuts);
    assert r in On(Emitted(nodes, keys, cuts), cuts[k].dest);
  }

  lemma {:induction false} NodeEmitted(nodes: seq<Node>, keys: seq<Key>, cuts: Cuts, n: Node)
    requires KeysCut(keys, cuts) && n in nodes && n.host.Some?
    ensures n.id in Ids(On(Emitted(nodes, keys, cuts), n.host.value))
  {
    var i :| 0 <= i < |nodes| && nodes[i] == n;
    var r := AllRewritten(nodes, cuts)[i];
    assert r in Emitted(nodes, keys, cuts);
    assert r in On(Emitted(nodes, keys, cuts), n.host.value);
  }

  // ---------------------------------------------------------------------------
  // Closure under deps
  // ---------------------------------------------------------------------------

  lemma {:induction false} HostOfNode(nodes: seq<Node>, n: Node)
    requires DistinctIds(nodes) && n in nodes && n.host.Some?
    ensures HostOf(nodes, n.id) == n.host.value && Lookup(nodes, n.id) == Some(n)
  {
    LookupUnique(nodes, n);
  }

  lemma {:induction false} KnownOnList(nodes: seq<Node>, keys: seq<Key>, cuts: Cuts, id: Id)
    requires KeysCut(keys, cuts) && DistinctIds(nodes) && id in Ids(nodes)
    requires forall n :: n in nodes ==> n.host.Some?
    ensures id in Ids(On(Emitted(nodes, keys, cuts), HostOf(nodes, id)))
  {
    var n :| n in nodes && n.id == id;
    HostOfNode(nodes, n);
    NodeEmitted(nodes, keys, cuts, n);
  }

  lemma {:induction false} DepOnList(
    nodes: seq<Node>, total: nat, keys: seq<Key>, cuts: Cuts, first: nat, n: Node, e: Id)
    requires Placed(nodes, total) && DistinctIds(nodes) && CutsFor(nodes, keys, cuts, first) && KeysCut(keys, cuts)
    requires n in nodes && e in n.deps
    ensures LocalDep(nodes, e, n.host.value) in Ids(On(Emitted(nodes, keys, cuts), n.host.value))
  {
    var m := n.host.value;
    if HostOf(nodes, e) == m {
      KnownOnList(nodes, keys, cuts, e);
    } else {
      assert IsCut(nodes, e, m);
      var k := (e, m);
      assert k in keys;
      var _ := CutAt(nodes, keys, cuts, first, k);
      RecvEmitted(nodes, keys, cuts, k);
    }
  }

  /** Each machine's list is closed under deps. */
  lemma {:induction false} ListsClosed(nodes: seq<Node>, total: nat, keys: seq<Key>, cuts: Cuts, first: nat, m: nat)
    requires Placed(nodes, total) && DistinctIds(nodes) && CutsFor(nodes, keys, cuts, first) && KeysCut(keys, cuts)
    ensures Closed(On(Emitted(nodes, keys, cuts), m))
  {
    var list := On(Emitted(nodes, keys, cuts), m);
    forall x, d | x in list && d in x.deps
      ensures d in Ids(list)
    {
      var o := OriginOf(nodes, keys, cuts, x);
      match o {
        case FromRecv(k) =>
        case FromNode(n) =>
          var e :| e in n.deps && d == LocalDep(nodes, e, OrElse(n.host, 0));
          DepOnList(nodes, total, keys, cuts, first, n, e);
        case FromSend(k) =>
          var _ := CutAt(nodes, keys, cuts, first, k);
          assert k.0 in Ids(nodes);
          KnownOnList(nodes, keys, cuts, k.0);
      }
    }
  }

  lemma {:induction false} CutAt(nodes: seq<Node>, keys: seq<Key>, cuts: Cuts, first: nat, k: Key) returns (i: nat)
    requires CutsFor(nodes, keys, cuts, first) && k in keys
    ensures i < |keys| && keys[i] == k && cuts[k] == EdgeFor(nodes, k.0, k.1, first + i)
    ensures Lookup(nodes, k.0).Some? && IsCut(nodes, k.0, k.1)
  {
    i :| 0 <= i < |keys| && keys[i] == k;
    assert k in cuts;
    assert Sendable(nodes, k.0);
  }

  // ---------------------------------------------------------------------------
  // Acyclicity
  // ---------------------------------------------------------------------------

  type Vertex = (nat, Id)

  /** Cluster-wide order: local deps on every machine, and each recv after its send. */
  ghost function ClusterEdges(items: seq<Node>, keys: seq<Key>, cuts: Cuts): Graph<Vertex>
    requires KeysCut(keys, cuts)
  {
    (set n, d | n in items && n.host.Some? && d in n.deps :: ((n.host.value, d), (n.host.value, n.id)))
    + (set k | k in keys ::
         ((cuts[k].srcMachine, SendOf(k.0, cuts[k].dest)), (cuts[k].dest, RecvOf(k.0, cuts[k].srcMachine))))
  }

  /** The symbolic node a transfer belongs to. */
  function Payload(id: Id): Id {
    if id.RecvOf? || id.SendOf? then id.source else id
  }

  function PayloadOf(v: Vertex): Id { Payload(v.1) }

  /** Producer, then its send, then its recv. */
  function TransferRank(v: Vertex): int {
    if v.1.SendOf? then 1 else if v.1.RecvOf? then 2 else 0
  }

  /** A local edge either is an edge of the symbolic graph or leads from a producer to its send. */
  lemma {:induction false} LocalNodeEdge(nodes: seq<Node>, n: Node, x: Node, d: Id)
    requires MintedBefore(nodes, 5) && n in nodes && x.id == n.id
    requires exists e :: e in n.deps && d == LocalDep(nodes, e, OrElse(n.host, 0))
    ensures (Payload(d), Payload(x.id)) in Edges(nodes)
  {
    var e :| e in n.deps && d == LocalDep(nodes, e, OrElse(n.host, 0));
    assert (e, n.id) in Edges(nodes);
    assert Payload(d) == e;
  }

  lemma {:induction false} LocalEdge(nodes: seq<Node>, keys: seq<Key>, cuts: Cuts, first: nat, x: Node, d: Id)
    requires CutsFor(nodes, keys, cuts, first) && KeysCut(keys, cuts)
    requires MintedBefore(nodes, 5) && x in Emitted(nodes, keys, cuts) && d in x.deps
    ensures (Payload(d), Payload(x.id)) in Edges(nodes)
            || (x.id.SendOf? && d == x.id.source && Generation(d) < 5)
  {
    var o := OriginOf(nodes, keys, cuts, x);
    match o {
      case FromRecv(k) =>
      case FromNode(n) => LocalNodeEdge(nodes, n, x, d);
      case FromSend(k) =>
        var _ := CutAt(nodes, keys, cuts, first, k);
        var n :| n in nodes && k.0 in n.deps;
    }
  }

  /** One step of the cluster order makes progress in the symbolic graph or within one transfer. */
  ghost predicate Progress(g: Graph<Id>, e: (Vertex, Vertex)) {
    || Precedes(g, PayloadOf(e.0), PayloadOf(e.1))
    || (PayloadOf(e.0) == PayloadOf(e.1) && TransferRank(e.0) < TransferRank(e.1))
  }

  lemma {:induction false} LocalProgress(
    nodes: seq<Node>, keys: seq<Key>, cuts: Cuts, first: nat, x: Node, d: Id, m: nat, g: Graph<Id>)
    requires CutsFor(nodes, keys, cuts, first) && KeysCut(keys, cuts) && Edges(nodes) <= g
    requires MintedBefore(nodes, 5) && x in Emitted(nodes, keys, cuts) && d in x.deps
    ensures Progress(g, ((m, d), (m, x.id)))
  {
    LocalEdge(nodes, keys, cuts, first, x, d);
    if (Payload(d), Payload(x.id)) in Edges(nodes) {
      EdgePrecedes(g, Payload(d), Payload(x.id));
    }
  }

  /** Links between nodes of the graph, at the machines they were placed on. */
  ghost function LinkEdges(nodes: seq<Node>, links: Graph<Id>): Graph<Vertex> {
    set e | e in links :: ((HostOf(nodes, e.0), e.0), (HostOf(nodes, e.1), e.1))
  }

  lemma {:induction false} LinkStep(nodes: seq<Node>, links: Graph<Id>, e: (Vertex, Vertex), g: Graph<Id>)
    requires e in LinkEdges(nodes, links) && links <= g
    requires forall l :: l in links ==> Generation(l.0) < 5 && Generation(l.1) < 5
    ensures Progress(g, e)
  {
    EdgePrecedes(g, e.0.1, e.1.1);
  }

  /** Before the ordering pass the cluster as a whole cannot wait on itself, whatever transfers are embedded in
      its nodes as long as the graph they belong to is acyclic with them. */
  lemma {:induction false} ClusterAcyclic(nodes: seq<Node>, keys: seq<Key>, cuts: Cuts, first: nat, links: Graph<Id>)
    requires MintedBefore(nodes, 5) && Acyclic(Edges(nodes) + links)
    requires forall e :: e in links ==> Generation(e.0) < 5 && Generation(e.1) < 5
    requires CutsFor(nodes, keys, cuts, first) && KeysCut(keys, cuts)
    ensures Acyclic(ClusterEdges(Emitted(nodes, keys, cuts), keys, cuts) + LinkEdges(nodes, links))
  {
    var items, base := Emitted(nodes, keys, cuts), Edges(nodes) + links;
    var g := ClusterEdges(items, keys, cuts) + LinkEdges(nodes, links);
    forall e | e in g ensures Progress(base, e) {
      if e in LinkEdges(nodes, links) {
        LinkStep(nodes, links, e, base);
      } else if n, d :| n in items && n.host.Some? && d in n.deps && e == ((n.host.value, d), (n.host.value, n.id)) {
        LocalProgress(nodes, keys, cuts, first, n, d, n.host.value, base);
      }
    }
    ProjectionAcyclic(g, base, PayloadOf, TransferRank);
  }

  /** Each machine's own list is acyclic. */
  lemma {:induction false} ListsAcyclic(nodes: seq<Node>, keys: seq<Key>, cuts: Cuts, first: nat, m: nat)
    requires MintedBefore(nodes, 5) && Acyclic(Edges(nodes))
    requires CutsFor(nodes, keys, cuts, first) && KeysCut(keys, cuts)
    ensures Acyclic(Edges(On(Emitted(nodes, keys, cuts), m)))
  {
    var items := Emitted(nodes, keys, cuts);
    assert Edges(nodes) + {} == Edges(nodes);
    ClusterAcyclic(nodes, keys, cuts, first, {});
    assert ClusterEdges(items, keys, cuts) + LinkEdges(nodes, {}) == ClusterEdges(items, keys, cuts);
    EmbedAcyclic(items, keys, cuts, m);
  }

  lemma {:induction false} EmbedAcyclic(items: seq<Node>, keys: seq<Key>, cuts: Cuts, m: nat)
    requires KeysCut(keys, cuts) && Acyclic(ClusterEdges(items, keys, cuts))
    ensures Acyclic(Edges(On(items, m)))
  {
    var g, h := Edges(On(items, m)), ClusterEdges(items, keys, cuts);
    var embed, rank := (id: Id) => (m, id), (id: Id) => 0;
    forall e | e in g
      ensures Precedes(h, embed(e.0), embed(e.1))
    {
      var n, d :| n in On(items, m) && d in n.deps && e == (d, n.id);
      EdgePrecedes(h, embed(d), embed(n.id));
    }
    ProjectionAcyclic(g, h, embed, rank);
  }

  // ---------------------------------------------------------------------------
  // Fresh slots
  // ---------------------------------------------------------------------------

  /** Recv slots are pairwise distinct and exceed every integer scanned from the kinds. */
  lemma {:induction false} RecvSlotsFresh(nodes: seq<Node>, keys: seq<Key>, cuts: Cuts, first: nat, a: Key, b: Key)
    requires CutsFor(nodes, keys, cuts, first) && a in cuts && b in cuts
    requires forall n, x :: n in nodes && x in Scanned(n.kind) ==> x < first
    ensures a != b ==> cuts[a].recvSlot != cuts[b].recvSlot
    ensures forall n, x :: n in nodes && x in Scanned(n.kind) ==> x < cuts[a].recvSlot
  {
    var i := CutAt(nodes, keys, cuts, first, a);
    var j := CutAt(nodes, keys, cuts, first, b);
  }

  /** The scan sees the slot of an offset-output Func only when its input slot or its offset is zero:
      the sum lives in the node's annotation, not in its kind. */
  lemma {:induction false} OffsetSlotScanned(n: Node, outputs: map<Id, nat>, next: nat, plan: FanoutPlan)
    requires n.kind.Func? && n.kind.arg.None? && n.kind.arg2.None? && n.kind.outBase.None? && n.kind.outputOffset.Some?
    requires AssignFunc(n, outputs, next, plan).Some?
    ensures var a := AssignFunc(n, outputs, next, plan).value.node;
            SlotOf(a).Some? &&
            (SlotOf(a).value in Numbers(a.kind) <==> a.kind.arg == Some(0) || a.kind.outputOffset == Some(0))
  {
  }

  /** The packed fan-out argument carries the consumer count, and the base slot exactly when it fits 16 bits. */
  lemma {:induction false} PackedFanout(k: Kind, consumers: nat)
    requires k.Func? && k.outBase.Some? && consumers > 0 && k.wasmArg.None? && k.arg.Some?
    ensures var t := TranslateFunc(k, consumers);
            && t.WasmVoid? && t.guestArg.Some?
            && (t.guestArg.value % 0x10000 == k.arg.value <==> k.arg.value < 0x10000)
            && t.guestArg.value / 0x10000 == consumers
  {
  }
}
