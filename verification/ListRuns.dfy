/**
  Runs of the machine lists: what an order of the listed nodes has to respect, when some order runs them all, and
  why each is a run of the cut graph.
 */
module ListRuns {
  import opened Prelude
  import opened Graphs
  import opened SymbolicDag
  import opened Cut
  import opened CutProofs
  import opened Ordering
  import opened ClusterRun
  import opened Partition

  // ---------------------------------------------------------------------------
  // Runs of the lists
  // ---------------------------------------------------------------------------

  ghost predicate Listed(lists: seq<seq<Node>>, v: Vertex) {
    v.0 < |lists| && v.1 in Ids(lists[v.0])
  }

  ghost function Vertices(lists: seq<seq<Node>>): set<Vertex> {
    set m: nat, x | m < |lists| && x in lists[m] :: (m, x.id)
  }

  /** What x waits for on machine m: the deps its list gives it and, for a recv, the matching send of its peer. */
  ghost function WaitsOf(m: nat, x: Node): set<Vertex> {
    (set d | d in x.deps :: (m, d))
    + (if x.kind.RemoteRecv? && x.id.RecvOf? then {(x.kind.peer, SendOf(x.id.source, m))} else {})
  }

  /** Who waits for whom. */
  ghost function Waits(lists: seq<seq<Node>>): Graph<Vertex> {
    set m: nat, x, u | m < |lists| && x in lists[m] && u in WaitsOf(m, x) :: (u, (m, x.id))
  }

  lemma {:induction false} Waiter(lists: seq<seq<Node>>, e: (Vertex, Vertex)) returns (m: nat, x: Node)
    requires e in Waits(lists)
    ensures m < |lists| && x in lists[m] && e.1 == (m, x.id) && e.0 in WaitsOf(m, x)
  {
    var m': nat, x', u :| m' < |lists| && x' in lists[m'] && u in WaitsOf(m', x') && e == (u, (m', x'.id));
    m, x := m', x';
  }

  lemma {:induction false} WaitsFor(lists: seq<seq<Node>>, m: nat, x: Node, u: Vertex)
    requires m < |lists| && x in lists[m] && u in WaitsOf(m, x)
    ensures (u, (m, x.id)) in Waits(lists)
  {
  }

  /** Listed nodes (machine, name) run in some order, each at most once and none before what it waits for. */
  ghost predicate IsListRun(lists: seq<seq<Node>>, run: seq<Vertex>) {
    IsLinear(Waits(lists), run) && forall v :: v in run ==> Listed(lists, v)
  }

  /** The placed node or transfer that a listed name stands for. */
  function ItemOf(all: seq<Node>, v: Vertex): Origin {
    if v.1.RecvOf? then FromRecv((v.1.source, v.0))
    else if v.1.SendOf? then FromSend((v.1.source, v.1.to))
    else match Lookup(all, v.1)
         case Some(n) => FromNode(n)
         case None => FromSend((v.1, 0))
  }

  function Items(all: seq<Node>, run: seq<Vertex>): (tr: seq<Origin>)
    ensures |tr| == |run|
  {
    seq(|run|, p requires 0 <= p < |run| => ItemOf(all, run[p]))
  }

  /** y is emitted for o with all that o waits for. */
  ghost predicate EmittedFor(all: seq<Node>, cuts: Cuts, y: Node, o: Origin) {
    match o
    case FromRecv(k) =>
      k in cuts && y.id == RecvOf(k.0, cuts[k].srcMachine) && y.kind.RemoteRecv? && y.kind.peer == cuts[k].srcMachine
    case FromSend(k) => k in cuts && y.id == SendOf(k.0, cuts[k].dest) && k.0 in y.deps
    case FromNode(n) => y.id == n.id && forall d :: d in n.deps ==> LocalDep(all, d, Host(n)) in y.deps
  }

  /** y, on machine m, is the emission of its own item. */
  ghost predicate OfItem(all: seq<Node>, keys: seq<Key>, cuts: Cuts, y: Node, m: nat) {
    var o := ItemOf(all, (m, y.id));
    && IsItem(all, keys, o) && EmittedFor(all, cuts, y, o) && (o.FromNode? || o.key in cuts)
    && VertexOf(cuts, o) == (m, y.id)
  }

  lemma {:induction false} TransferItem(all: seq<Node>, keys: seq<Key>, cuts: Cuts, k: Key, y: Node, m: nat)
    requires DestsMatch(keys, cuts) && k in keys && y.host == Some(m)
    requires y == RecvNode(k.0, cuts[k]) || y == SendNode(k.0, cuts[k])
    ensures OfItem(all, keys, cuts, y, m)
  {
    var o := ItemOf(all, (m, y.id));
    assert o == FromRecv(k) || o == FromSend(k);
  }

  lemma {:induction false} NodeItem(all: seq<Node>, keys: seq<Key>, cuts: Cuts, n: Node, y: Node, m: nat)
    requires DistinctIds(all) && MintedBefore(all, 5) && n in all && y == Rewritten(all, cuts, n, Host(n))
    requires y.host == Some(m)
    ensures OfItem(all, keys, cuts, y, m)
  {
    LookupUnique(all, n);
    NodeWaits(all, cuts, n, y);
    assert ItemOf(all, (m, y.id)) == FromNode(n);
  }

  /** Every emitted node is the emission of its own item. */
  lemma {:induction false} EmittedItem(all: seq<Node>, keys: seq<Key>, cuts: Cuts, first: nat, y: Node, m: nat)
    requires CutsFor(all, keys, cuts, first) && KeysCut(keys, cuts) && DistinctIds(all) && MintedBefore(all, 5)
    requires y in Emitted(all, keys, cuts) && y.host == Some(m)
    ensures OfItem(all, keys, cuts, y, m)
  {
    CutsMatchDests(all, keys, cuts, first);
    var a, b, c := AllRecvs(keys, cuts), AllRewritten(all, cuts), AllSends(keys, cuts);
    if y in a {
      var i :| 0 <= i < |a| && a[i] == y;
      TransferItem(all, keys, cuts, keys[i], y, m);
    } else if y in c {
      var i :| 0 <= i < |c| && c[i] == y;
      TransferItem(all, keys, cuts, keys[i], y, m);
    } else {
      var i :| 0 <= i < |b| && b[i] == y;
      NodeItem(all, keys, cuts, all[i], y, m);
    }
  }

  lemma {:induction false} NodeWaits(all: seq<Node>, cuts: Cuts, n: Node, y: Node)
    requires y == Rewritten(all, cuts, n, Host(n))
    ensures y.id == n.id && forall d :: d in n.deps ==> LocalDep(all, d, Host(n)) in y.deps
  {
    forall d | d in n.deps ensures LocalDep(all, d, Host(n)) in y.deps {
      var j :| 0 <= j < |n.deps| && n.deps[j] == d;
      assert y.deps[j] == LocalDep(all, d, Host(n));
    }
  }

  /** A listed node is its item's emission, with at least that item's deps. */
  lemma {:induction false} ListedItem(all: seq<Node>, total: nat, t: Trace, lists: seq<seq<Node>>, m: nat, x: Node)
    requires EmittedAs(all, total, t, lists) && DistinctIds(all) && MintedBefore(all, 5) && m < total && x in lists[m]
    ensures OfItem(all, t.keys, t.cuts, x, m)
  {
    var list := On(Emitted(all, t.keys, t.cuts), m);
    var i :| 0 <= i < |lists[m]| && lists[m][i] == x;
    OrderedGrew(list);
    var y := list[i];
    assert y in list && x == y.(deps := x.deps);
    EmittedItem(all, t.keys, t.cuts, t.first, y, m);
  }

  /** The items of a list run are items of the cut graph, at their own vertices. */
  lemma {:induction false} RunItems(
    all: seq<Node>, total: nat, t: Trace, lists: seq<seq<Node>>, run: seq<Vertex>, p: nat)
    requires EmittedAs(all, total, t, lists) && DistinctIds(all) && MintedBefore(all, 5) && IsListRun(lists, run)
    requires p < |run|
    ensures IsItem(all, t.keys, Items(all, run)[p])
    ensures !Items(all, run)[p].FromNode? ==> Items(all, run)[p].key in t.cuts
    ensures VertexOf(t.cuts, Items(all, run)[p]) == run[p]
  {
    assert Listed(lists, run[p]);
    var x :| x in lists[run[p].0] && x.id == run[p].1;
    ListedItem(all, total, t, lists, run[p].0, x);
  }

  ghost predicate AtVertices(cuts: Cuts, tr: seq<Origin>, run: seq<Vertex>) {
    && |tr| == |run|
    && forall i :: 0 <= i < |tr| ==> (!tr[i].FromNode? ==> tr[i].key in cuts) && VertexOf(cuts, tr[i]) == run[i]
  }

  lemma {:induction false} RanBefore(cuts: Cuts, tr: seq<Origin>, run: seq<Vertex>, p: nat, v: Vertex)
    requires AtVertices(cuts, tr, run) && p <= |run| && v in run[..p]
    ensures Ran(cuts, tr, p, v)
  {
    var q :| 0 <= q < p && run[..p][q] == v;
    assert VertexOf(cuts, tr[q]) == v;
  }

  lemma {:induction false} ListRunWaits(all: seq<Node>, total: nat, t: Trace, lists: seq<seq<Node>>, run: seq<Vertex>,
                                        tr: seq<Origin>, p: nat)
    requires EmittedAs(all, total, t, lists) && DistinctIds(all) && MintedBefore(all, 5) && IsListRun(lists, run)
    requires p < |run| && tr == Items(all, run) && AtVertices(t.cuts, tr, run)
    ensures Waited(all, t.cuts, tr, p)
  {
    var m := run[p].0;
    assert Listed(lists, run[p]);
    var x :| x in lists[m] && x.id == run[p].1;
    ListedItem(all, total, t, lists, m, x);
    forall u | u in WaitsOf(m, x) ensures Ran(t.cuts, tr, p, u) {
      WaitsFor(lists, m, x, u);
      RanBefore(t.cuts, tr, run, p, u);
    }
    CutsMatchDests(all, t.keys, t.cuts, t.first);
    ItemWaits(all, t.keys, t.cuts, x, m, tr, p);
  }

  lemma {:induction false} ItemWaits(
    all: seq<Node>, keys: seq<Key>, cuts: Cuts, x: Node, m: nat, tr: seq<Origin>, p: nat)
    requires OfItem(all, keys, cuts, x, m) && DestsMatch(keys, cuts) && p < |tr| && tr[p] == ItemOf(all, (m, x.id))
    requires forall i :: 0 <= i < |tr| ==> !tr[i].FromNode? ==> tr[i].key in cuts
    requires forall u :: u in WaitsOf(m, x) ==> Ran(cuts, tr, p, u)
    ensures Waited(all, cuts, tr, p)
  {
    match tr[p] {
      case FromNode(n) =>
        forall d | d in n.deps ensures Ran(cuts, tr, p, (Host(n), LocalDep(all, d, Host(n)))) {
          assert (m, LocalDep(all, d, Host(n))) in WaitsOf(m, x);
        }
      case FromSend(k) => assert (m, k.0) in WaitsOf(m, x);
      case FromRecv(k) => assert (x.kind.peer, SendOf(x.id.source, m)) in WaitsOf(m, x);
    }
  }

  /** A run of the ordered lists is a run of the cut graph. */
  lemma {:induction false} ListRunIsRun(all: seq<Node>, total: nat, t: Trace, lists: seq<seq<Node>>, run: seq<Vertex>)
    requires EmittedAs(all, total, t, lists) && DistinctIds(all) && MintedBefore(all, 5) && IsListRun(lists, run)
    ensures IsRun(all, t.keys, t.cuts, Items(all, run)) && AtVertices(t.cuts, Items(all, run), run)
  {
    var tr := Items(all, run);
    forall p | 0 <= p < |run|
      ensures IsItem(all, t.keys, tr[p]) && (!tr[p].FromNode? ==> tr[p].key in t.cuts)
              && VertexOf(t.cuts, tr[p]) == run[p]
    {
      RunItems(all, total, t, lists, run, p);
    }
    forall p | 0 <= p < |run| ensures Waited(all, t.cuts, tr, p) { ListRunWaits(all, total, t, lists, run, tr, p); }
    CutsMatchDests(all, t.keys, t.cuts, t.first);
    forall i, j | 0 <= i < j < |tr| ensures tr[i] != tr[j] { assert run[i] != run[j]; }
    RunIntro(all, t.keys, t.cuts, tr);
  }

  // ---------------------------------------------------------------------------
  // Running everything
  // ---------------------------------------------------------------------------

  ghost predicate RunsAll(lists: seq<seq<Node>>, run: seq<Vertex>) {
    IsListRun(lists, run) && forall v :: v in Vertices(lists) ==> v in run
  }

  lemma {:induction false} ListedVertex(lists: seq<seq<Node>>, v: Vertex)
    ensures Listed(lists, v) <==> v in Vertices(lists)
  {
  }

  lemma {:induction false} SendListed(all: seq<Node>, total: nat, t: Trace, lists: seq<seq<Node>>, k: Key)
    requires EmittedAs(all, total, t, lists) && k in t.keys
    ensures Listed(lists, (t.cuts[k].srcMachine, SendOf(k.0, t.cuts[k].dest)))
  {
    var src := t.cuts[k].srcMachine;
    var _ := CutAt(all, t.keys, t.cuts, t.first, k);
    var i :| 0 <= i < |t.keys| && t.keys[i] == k;
    var y, list := AllSends(t.keys, t.cuts)[i], On(Emitted(all, t.keys, t.cuts), src);
    assert y in Emitted(all, t.keys, t.cuts) && y in list;
    assert Lookup(all, k.0).value in all;
    OrderedGrew(list);
  }

  /** A listed recv belongs to a transfer. */
  lemma {:induction false} RecvKey(all: seq<Node>, total: nat, t: Trace, lists: seq<seq<Node>>, m: nat, x: Node)
    returns (k: Key)
    requires EmittedAs(all, total, t, lists) && DistinctIds(all) && MintedBefore(all, 5) && m < total && x in lists[m]
    requires x.id.RecvOf?
    ensures k in t.keys && k in t.cuts && m == t.cuts[k].dest && x.id == RecvOf(k.0, t.cuts[k].srcMachine)
    ensures x.kind.RemoteRecv? && x.kind.peer == t.cuts[k].srcMachine
  {
    ListedItem(all, total, t, lists, m, x);
    k := ItemOf(all, (m, x.id)).key;
  }

  lemma {:induction false} DepWaitsListed(
    all: seq<Node>, total: nat, t: Trace, lists: seq<seq<Node>>, m: nat, x: Node, d: Id)
    requires EmittedAs(all, total, t, lists) && DistinctIds(all) && MintedBefore(all, 5) && m < total && x in lists[m]
    requires d in x.deps
    ensures Listed(lists, (m, d))
  {
    var list := On(Emitted(all, t.keys, t.cuts), m);
    ListsClosed(all, total, t.keys, t.cuts, t.first, m);
    OrderedGrew(list);
    GrownIsClosed(list, lists[m]);
  }

  lemma {:induction false} WaitCase(m: nat, x: Node, u: Vertex)
    requires u in WaitsOf(m, x)
    ensures (u.0 == m && u.1 in x.deps)
            || (x.kind.RemoteRecv? && x.id.RecvOf? && u == (x.kind.peer, SendOf(x.id.source, m)))
  {
  }

  /** Whatever a listed node waits for is listed. */
  lemma {:induction false} WaitListed(
    all: seq<Node>, total: nat, t: Trace, lists: seq<seq<Node>>, m: nat, x: Node, u: Vertex)
    requires EmittedAs(all, total, t, lists) && DistinctIds(all) && MintedBefore(all, 5) && m < total && x in lists[m]
    requires u in WaitsOf(m, x)
    ensures Listed(lists, u)
  {
    WaitCase(m, x, u);
    if u.0 == m && u.1 in x.deps {
      DepWaitsListed(all, total, t, lists, m, x, u.1);
    } else {
      var k := RecvKey(all, total, t, lists, m, x);
      SendListed(all, total, t, lists, k);
    }
  }

  lemma {:induction false} WaitsListed(all: seq<Node>, total: nat, t: Trace, lists: seq<seq<Node>>)
    requires EmittedAs(all, total, t, lists) && DistinctIds(all) && MintedBefore(all, 5)
    ensures forall e :: e in Waits(lists) ==> e.0 in Vertices(lists) && e.1 in Vertices(lists)
  {
    forall e | e in Waits(lists) ensures e.0 in Vertices(lists) && e.1 in Vertices(lists) {
      var m, x := Waiter(lists, e);
      WaitListed(all, total, t, lists, m, x, e.0);
      ListedVertex(lists, e.0);
    }
  }

  /** The emitted lists can be run to the end if and only if nobody waits, directly or not, for himself. */
  lemma {:induction false} RunsThroughIff(all: seq<Node>, total: nat, t: Trace, lists: seq<seq<Node>>)
    requires EmittedAs(all, total, t, lists) && DistinctIds(all) && MintedBefore(all, 5)
    ensures (exists run :: RunsAll(lists, run)) <==> Acyclic(Waits(lists))
  {
    var g := Waits(lists);
    WaitsListed(all, total, t, lists);
    if run :| RunsAll(lists, run) { LinearAcyclic(g, run); }
    if Acyclic(g) { var _ := FullRun(lists, g); }
  }

  /** A graph that contains all waits and has no cycle gives a run of everything. */
  lemma {:induction false} FullRun(lists: seq<seq<Node>>, g: Graph<Vertex>) returns (run: seq<Vertex>)
    requires Waits(lists) <= g && Acyclic(g) && forall e :: e in g ==> e.0 in Vertices(lists)
    ensures RunsAll(lists, run) && IsLinear(g, run)
  {
    run := Linearise(g, Vertices(lists), []);
    forall i, u | 0 <= i < |run| && (u, run[i]) in Waits(lists) ensures u in run[..i] { assert (u, run[i]) in g; }
    forall v | v in run ensures Listed(lists, v) { ListedVertex(lists, v); }
  }

  // ---------------------------------------------------------------------------
  // Machines that exchange one way
  // ---------------------------------------------------------------------------

  ghost predicate ReceivesFrom(all: seq<Node>, m: nat, p: nat) {
    || (exists e :: IsCut(all, e, m) && HostOf(all, e) == p)
    || exists n :: n in all && Host(n) == m && RecvPeer(n) == Some(p)
  }

  ghost predicate SendsTo(all: seq<Node>, m: nat, p: nat) {
    || (exists e :: IsCut(all, e, p) && HostOf(all, e) == m)
    || exists n :: n in all && Host(n) == m && SendPeer(n) == Some(p)
  }

  /** No machine both receives from and sends to another. */
  ghost predicate OneWay(all: seq<Node>) {
    forall m: nat, p: nat :: ReceivesFrom(all, m, p) ==> !SendsTo(all, m, p)
  }

  lemma {:induction false} OutputStaysOutput(cuts: Cuts, k: Kind, deps: seq<Id>, m: nat)
    ensures ResolveOutput(cuts, k, deps, m).Output? == k.Output?
  {
    if k.Output? && deps != [] { OutputStaysOutput(cuts, k, deps[1..], m); }
  }

  lemma {:induction false} PeersKept(all: seq<Node>, cuts: Cuts, n: Node, y: Node)
    requires y == Rewritten(all, cuts, n, Host(n))
    ensures RecvPeer(y) == RecvPeer(n) && SendPeer(y) == SendPeer(n)
  {
    OutputStaysOutput(cuts, n.kind, n.deps, Host(n));
  }

  /** An emitted node that talks to a peer shows that its machine does. */
  lemma {:induction false} EmittedPeers(all: seq<Node>, keys: seq<Key>, cuts: Cuts, first: nat, y: Node, m: nat)
    requires CutsFor(all, keys, cuts, first) && KeysCut(keys, cuts) && y in Emitted(all, keys, cuts)
             && y.host == Some(m)
    ensures RecvPeer(y).Some? ==> ReceivesFrom(all, m, RecvPeer(y).value)
    ensures SendPeer(y).Some? ==> SendsTo(all, m, SendPeer(y).value)
  {
    CutsMatchDests(all, keys, cuts, first);
    var a, b, c := AllRecvs(keys, cuts), AllRewritten(all, cuts), AllSends(keys, cuts);
    if y in a {
      var i :| 0 <= i < |a| && a[i] == y;
      var _ := CutAt(all, keys, cuts, first, keys[i]);
    } else if y in c {
      var i :| 0 <= i < |c| && c[i] == y;
      var _ := CutAt(all, keys, cuts, first, keys[i]);
    } else {
      var i :| 0 <= i < |b| && b[i] == y;
      assert all[i] in all;
      PeersKept(all, cuts, all[i], y);
    }
  }

  lemma {:induction false} OneWayNoPairs(all: seq<Node>, keys: seq<Key>, cuts: Cuts, first: nat, m: nat, r: Id, s: Id)
    requires CutsFor(all, keys, cuts, first) && KeysCut(keys, cuts) && OneWay(all)
    ensures !SamePeer(On(Emitted(all, keys, cuts), m), r, s)
  {
    var list := On(Emitted(all, keys, cuts), m);
    if SamePeer(list, r, s) {
      var a, b :| a in list && b in list && a.id == r && b.id == s && RecvPeer(a).Some? && RecvPeer(a) == SendPeer(b);
      EmittedPeers(all, keys, cuts, first, a, m);
      EmittedPeers(all, keys, cuts, first, b, m);
    }
  }

  lemma {:induction false} OneWayDep(
    all: seq<Node>, total: nat, t: Trace, lists: seq<seq<Node>>, m: nat, x: Node, d: Id)
    requires EmittedAs(all, total, t, lists) && OneWay(all) && m < total && x in lists[m] && d in x.deps
    ensures ((m, d), (m, x.id)) in ClusterEdges(Emitted(all, t.keys, t.cuts), t.keys, t.cuts)
  {
    var list := On(Emitted(all, t.keys, t.cuts), m);
    OrderedGrew(list);
    var i :| 0 <= i < |lists[m]| && lists[m][i] == x;
    OneWayNoPairs(all, t.keys, t.cuts, t.first, m, list[i].id, d);
    assert list[i] in list && d in list[i].deps;
  }

  /** With one-way exchange the ordering pass adds nothing, so the lists wait only for what the cut graph orders. */
  lemma {:induction false} OneWayWait(
    all: seq<Node>, total: nat, t: Trace, lists: seq<seq<Node>>, m: nat, x: Node, u: Vertex)
    requires EmittedAs(all, total, t, lists) && DistinctIds(all) && MintedBefore(all, 5) && OneWay(all)
    requires m < total && x in lists[m] && u in WaitsOf(m, x)
    ensures (u, (m, x.id)) in ClusterEdges(Emitted(all, t.keys, t.cuts), t.keys, t.cuts)
  {
    WaitCase(m, x, u);
    if u.0 == m && u.1 in x.deps {
      OneWayDep(all, total, t, lists, m, x, u.1);
    } else {
      var k := RecvKey(all, total, t, lists, m, x);
    }
  }

  /** An acyclic graph whose machines exchange one way can always be run to the end. */
  lemma {:induction false} OneWayRuns(all: seq<Node>, total: nat, t: Trace, lists: seq<seq<Node>>)
    requires EmittedAs(all, total, t, lists) && DistinctIds(all) && MintedBefore(all, 5) && OneWay(all)
    requires Acyclic(Edges(all))
    ensures Acyclic(Waits(lists)) && exists run :: RunsAll(lists, run)
  {
    assert Edges(all) + {} == Edges(all);
    ClusterAcyclic(all, t.keys, t.cuts, t.first, {});
    var g := ClusterEdges(Emitted(all, t.keys, t.cuts), t.keys, t.cuts) + LinkEdges(all, {});
    forall e | e in Waits(lists) ensures e in g {
      var m, x := Waiter(lists, e);
      OneWayWait(all, total, t, lists, m, x, e.0);
    }
    SubgraphAcyclic(Waits(lists), g);
    RunsThroughIff(all, total, t, lists);
  }

  // ---------------------------------------------------------------------------
  // The lists wait for everything the cut graph orders
  // ---------------------------------------------------------------------------

  lemma {:induction false} EmittedHost(all: seq<Node>, total: nat, keys: seq<Key>, cuts: Cuts, first: nat, y: Node)
    requires Placed(all, total) && CutsFor(all, keys, cuts, first) && KeysCut(keys, cuts)
             && y in Emitted(all, keys, cuts)
    ensures y.host.Some? && y.host.value < total
  {
    CutsMatchDests(all, keys, cuts, first);
    var o := OriginOf(all, keys, cuts, y);
    if !o.FromNode? {
      var _ := CutAt(all, keys, cuts, first, o.key);
      var n :| n in all && o.key.0 in n.deps && n.host == Some(o.key.1);
      assert Lookup(all, o.key.0).value in all;
    }
  }

  /** An emitted node is on its machine's list, with at least its deps. */
  lemma {:induction false} EmittedListed(all: seq<Node>, total: nat, t: Trace, lists: seq<seq<Node>>, y: Node)
    returns (x: Node)
    requires EmittedAs(all, total, t, lists) && y in Emitted(all, t.keys, t.cuts)
    ensures y.host.Some? && y.host.value < |lists| && x in lists[y.host.value]
    ensures x == y.(deps := x.deps) && forall d :: d in y.deps ==> d in x.deps
  {
    EmittedHost(all, total, t.keys, t.cuts, t.first, y);
    var list := On(Emitted(all, t.keys, t.cuts), y.host.value);
    OrderedGrew(list);
    var i :| 0 <= i < |list| && list[i] == y;
    x := lists[y.host.value][i];
  }

  lemma {:induction false} RecvWaitsFor(x: Node, id: Id, e: CrossEdge)
    requires x == RecvNode(id, e).(deps := x.deps)
    ensures (e.srcMachine, SendOf(id, e.dest)) in WaitsOf(e.dest, x)
  {
  }

  lemma {:induction false} TransferWaits(all: seq<Node>, total: nat, t: Trace, lists: seq<seq<Node>>, k: Key)
    requires EmittedAs(all, total, t, lists) && k in t.keys && k in t.cuts
    ensures ((t.cuts[k].srcMachine, SendOf(k.0, t.cuts[k].dest)), (t.cuts[k].dest, RecvOf(k.0, t.cuts[k].srcMachine)))
            in Waits(lists)
  {
    var y := ItemEmitted(all, t.keys, t.cuts, FromRecv(k));
    var x := EmittedListed(all, total, t, lists, y);
    RecvWaitsFor(x, k.0, t.cuts[k]);
    WaitsFor(lists, t.cuts[k].dest, x, (t.cuts[k].srcMachine, SendOf(k.0, t.cuts[k].dest)));
  }

  /** What an item is emitted as. */
  lemma {:induction false} ItemEmitted(all: seq<Node>, keys: seq<Key>, cuts: Cuts, o: Origin) returns (y: Node)
    requires KeysCut(keys, cuts) && IsItem(all, keys, o) && (!o.FromNode? ==> o.key in cuts)
    ensures y in Emitted(all, keys, cuts) && y.host == Some(VertexOf(cuts, o).0) && y.id == VertexOf(cuts, o).1
    ensures o.FromRecv? ==> y == RecvNode(o.key.0, cuts[o.key])
  {
    match o {
      case FromNode(n) =>
        var i :| 0 <= i < |all| && all[i] == n;
        y := AllRewritten(all, cuts)[i];
      case FromSend(k) =>
        var i :| 0 <= i < |keys| && keys[i] == k;
        y := AllSends(keys, cuts)[i];
      case FromRecv(k) =>
        var i :| 0 <= i < |keys| && keys[i] == k;
        y := AllRecvs(keys, cuts)[i];
    }
    assert y in Emitted(all, keys, cuts);
  }

  lemma {:induction false} WaitsContain(all: seq<Node>, total: nat, t: Trace, lists: seq<seq<Node>>)
    requires EmittedAs(all, total, t, lists)
    ensures ClusterEdges(Emitted(all, t.keys, t.cuts), t.keys, t.cuts) <= Waits(lists)
  {
    var items := Emitted(all, t.keys, t.cuts);
    CutsMatchDests(all, t.keys, t.cuts, t.first);
    forall e | e in ClusterEdges(items, t.keys, t.cuts) ensures e in Waits(lists) {
      if y, d :| y in items && y.host.Some? && d in y.deps && e == ((y.host.value, d), (y.host.value, y.id)) {
        var x := EmittedListed(all, total, t, lists, y);
        WaitsFor(lists, y.host.value, x, (y.host.value, d));
      } else {
        var k :| k in t.keys && e == ((t.cuts[k].srcMachine, SendOf(k.0, t.cuts[k].dest)),
                                      (t.cuts[k].dest, RecvOf(k.0, t.cuts[k].srcMachine)));
        TransferWaits(all, total, t, lists, k);
      }
    }
  }

  /** Every item of the cut graph is listed. */
  lemma {:induction false} ItemListed(all: seq<Node>, total: nat, t: Trace, lists: seq<seq<Node>>, o: Origin)
    requires EmittedAs(all, total, t, lists) && IsItem(all, t.keys, o) && DestsMatch(t.keys, t.cuts)
    ensures VertexOf(t.cuts, o) in Vertices(lists)
  {
    var y := ItemEmitted(all, t.keys, t.cuts, o);
    var x := EmittedListed(all, total, t, lists, y);
  }
}
