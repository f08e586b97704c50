/**
  Freed slots: the lists keep the dataflow exactly when every free waits for the readers of what it frees.  If one
  does not, some order that the lists allow makes a node read an empty slot.
 */
module FreeOrder {
  import opened Prelude
  import opened Sequences
  import opened Graphs
  import opened SymbolicDag
  import Topo
  import opened Cut
  import opened CutProofs
  import opened Dataflow
  import opened ClusterRun
  import opened Partition
  import opened ListRuns

  /** f frees the place that a fills and o reads. */
  ghost predicate FreedUnder(all: seq<Node>, keys: seq<Key>, cuts: Cuts, a: Origin, f: Origin, o: Origin) {
    && IsItem(all, keys, a) && IsItem(all, keys, f) && IsItem(all, keys, o) && a != f
    && Target(cuts, a).Some? && FreesPlace(f, Target(cuts, a).value) && Reads(all, o, CellOf(a))
  }

  /** Every free comes after all readers of what it frees, or before it is written. */
  ghost predicate FreesInTurn(all: seq<Node>, keys: seq<Key>, cuts: Cuts, g: Graph<Vertex>) {
    && DestsMatch(keys, cuts)
    && forall a, f, o :: FreedUnder(all, keys, cuts, a, f, o) ==>
                           || Precedes(g, VertexOf(cuts, o), VertexOf(cuts, f))
                           || Precedes(g, VertexOf(cuts, f), VertexOf(cuts, a))
  }

  // ---------------------------------------------------------------------------
  // Enough
  // ---------------------------------------------------------------------------

  lemma {:induction false} RanItemIs(
    all: seq<Node>, keys: seq<Key>, cuts: Cuts, tr: seq<Origin>, run: seq<Vertex>, p: nat, o: Origin)
    requires MintedBefore(all, 5) && DistinctIds(all) && DestsMatch(keys, cuts) && AtVertices(cuts, tr, run)
    requires p <= |tr| && (forall i :: 0 <= i < |tr| ==> IsItem(all, keys, tr[i])) && IsItem(all, keys, o)
    requires VertexOf(cuts, o) in run[..p]
    ensures o in tr[..p]
  {
    var i :| 0 <= i < p && run[..p][i] == VertexOf(cuts, o);
    VertexInjective(all, keys, cuts, tr[i], o);
    assert tr[..p][i] == o;
  }

  lemma {:induction false} LinearBefore(g: Graph<Vertex>, run: seq<Vertex>, p: nat, u: Vertex)
    requires IsLinear(g, run) && p < |run| && Precedes(g, u, run[p])
    ensures u in run[..p]
  {
    var w: seq<Vertex> :| WalkFromTo(g, w, u, run[p]) && |w| >= 2;
    LinearPrecedes(g, run, p, w);
  }

  lemma {:induction false} TimelyAt(all: seq<Node>, keys: seq<Key>, cuts: Cuts, g: Graph<Vertex>, tr: seq<Origin>,
                                    run: seq<Vertex>, p: nat, q: nat, o: Origin)
    requires MintedBefore(all, 5) && DistinctIds(all) && DestsMatch(keys, cuts) && AtVertices(cuts, tr, run)
    requires (forall i :: 0 <= i < |tr| ==> IsItem(all, keys, tr[i])) && IsLinear(g, run)
    requires q < p < |tr| && FreedUnder(all, keys, cuts, tr[q], tr[p], o) && FreesInTurn(all, keys, cuts, g)
    ensures o in tr[..p]
  {
    if Precedes(g, VertexOf(cuts, o), run[p]) {
      LinearBefore(g, run, p, VertexOf(cuts, o));
      RanItemIs(all, keys, cuts, tr, run, p, o);
    } else {
      assert Precedes(g, run[p], run[q]);
      LinearBefore(g, run, q, run[p]);
    }
  }

  /** Runs of the lists free nothing too early. */
  lemma {:induction false} ListRunsTimely(all: seq<Node>, total: nat, t: Trace, lists: seq<seq<Node>>, run: seq<Vertex>)
    requires EmittedAs(all, total, t, lists) && DistinctIds(all) && MintedBefore(all, 5) && IsListRun(lists, run)
    requires FreesInTurn(all, t.keys, t.cuts, Waits(lists))
    ensures Timely(all, t.keys, t.cuts, Items(all, run))
  {
    var tr := Items(all, run);
    ListRunIsRun(all, total, t, lists, run);
    forall p, q | 0 <= q < p < |tr| && Target(t.cuts, tr[q]).Some? && FreesPlace(tr[p], Target(t.cuts, tr[q]).value)
      ensures !Pending(all, t.keys, tr, p, CellOf(tr[q]))
    {
      if Pending(all, t.keys, tr, p, CellOf(tr[q])) {
        var o :| IsItem(all, t.keys, o) && Reads(all, o, CellOf(tr[q])) && o !in tr[..p];
        TimelyAt(all, t.keys, t.cuts, Waits(lists), tr, run, p, q, o);
      }
    }
  }

  // ---------------------------------------------------------------------------
  // Not less: an empty slot stays empty, and its reader misses the value
  // ---------------------------------------------------------------------------

  lemma {:induction false} EmptyStays<V>(f: Fn<V>, nodes: seq<Node>, cuts: Cuts, init: Mem<V>, tr: seq<Origin>, i: nat,
                                         j: nat, pl: Place)
    requires i <= j <= |tr| && Peek(Run(f, nodes, cuts, init, tr, i).store, pl) == None
    requires forall q :: i <= q < j ==> Target(cuts, tr[q]) != Some(pl)
    ensures Peek(Run(f, nodes, cuts, init, tr, j).store, pl) == None
    decreases j
  {
    if i < j {
      EmptyStays(f, nodes, cuts, init, tr, i, j - 1, pl);
      ExecFrame(f, nodes, cuts, tr[j - 1], Run(f, nodes, cuts, init, tr, j - 1));
    }
  }

  lemma {:induction false} SeenStays<V>(f: Fn<V>, nodes: seq<Node>, cuts: Cuts, init: Mem<V>, tr: seq<Origin>, i: nat,
                                        j: nat, x: Id)
    requires i <= j <= |tr| && forall q :: i <= q < j ==> !(tr[q].FromNode? && tr[q].node.id == x)
    ensures Peek(Run(f, nodes, cuts, init, tr, j).seen, x) == Peek(Run(f, nodes, cuts, init, tr, i).seen, x)
    decreases j
  {
    if i < j {
      SeenStays(f, nodes, cuts, init, tr, i, j - 1, x);
      ExecFrame(f, nodes, cuts, tr[j - 1], Run(f, nodes, cuts, init, tr, j - 1));
    }
  }

  lemma {:induction false} RunsOnce(
    nodes: seq<Node>, keys: seq<Key>, cuts: Cuts, tr: seq<Origin>, l: nat, n: Node, q: nat)
    requires KeysCut(keys, cuts) && IsRun(nodes, keys, cuts, tr) && DistinctIds(nodes)
    requires l < |tr| && tr[l] == FromNode(n) && l < q < |tr|
    ensures !(tr[q].FromNode? && tr[q].node.id == n.id)
  {
    assert IsItem(nodes, keys, tr[q]) && IsItem(nodes, keys, tr[l]) && tr[q] != tr[l];
    if tr[q].FromNode? && tr[q].node.id == n.id { SameId(nodes, tr[q].node, n); }
  }

  lemma {:induction false} SeesNothing<V>(f: Fn<V>, nodes: seq<Node>, cuts: Cuts, n: Node, i: nat, mem: Mem<V>)
    requires i < |InputSlots(nodes, cuts, n)| && Peek(mem.store, (Host(n), InputSlots(nodes, cuts, n)[i])) == None
    ensures var after := Exec(f, nodes, cuts, FromNode(n), mem);
            n.id in after.seen && i < |after.seen[n.id]| && after.seen[n.id][i] == None
  {
    assert PlacesOn(Host(n), InputSlots(nodes, cuts, n))[i] == (Host(n), InputSlots(nodes, cuts, n)[i]);
  }

  lemma {:induction false} WrongInput<V>(tr: seq<Origin>, mem: Mem<V>, ref: map<Id, V>, n: Node, i: nat)
    requires FromNode(n) in tr && i < |ReadsOf(n)| && ReadsOf(n)[i] in ref
    requires n.id in mem.seen && i < |mem.seen[n.id]| && mem.seen[n.id][i] == None
    ensures !ReadsRight(tr, mem, ref)
  {
    assert PeekAll(ref, ReadsOf(n))[i] == Some(ref[ReadsOf(n)[i]]);
  }

  lemma {:induction false} SeenToEnd<V>(
    f: Fn<V>, nodes: seq<Node>, cuts: Cuts, init: Mem<V>, tr: seq<Origin>, l: nat, n: Node, i: nat)
    requires l < |tr| && tr[l] == FromNode(n) && i < |InputSlots(nodes, cuts, n)|
    requires Peek(Run(f, nodes, cuts, init, tr, l).store, (Host(n), InputSlots(nodes, cuts, n)[i])) == None
    requires forall q :: l < q < |tr| ==> !(tr[q].FromNode? && tr[q].node.id == n.id)
    ensures var end := Run(f, nodes, cuts, init, tr, |tr|);
            n.id in end.seen && i < |end.seen[n.id]| && end.seen[n.id][i] == None
  {
    SeesNothing(f, nodes, cuts, n, i, Run(f, nodes, cuts, init, tr, l));
    var mem, end := Run(f, nodes, cuts, init, tr, l + 1), Run(f, nodes, cuts, init, tr, |tr|);
    SeenStays(f, nodes, cuts, init, tr, l + 1, |tr|, n.id);
    assert Peek(end.seen, n.id) == Peek(mem.seen, n.id);
  }

  /** The place of a read among the inputs. */
  lemma {:induction false} InputAt(
    nodes: seq<Node>, total: nat, keys: seq<Key>, cuts: Cuts, first: nat, n: Node, e: Id, slot: nat) returns (i: nat)
    requires Sound(nodes, total, keys, cuts, first) && n in nodes
    requires e in ReadsOf(n) && ArrivalSlot(nodes, cuts, e, Host(n)) == Some(slot)
    ensures i < |ReadsOf(n)| && ReadsOf(n)[i] == e && e in Ids(nodes)
    ensures i < |InputSlots(nodes, cuts, n)| && InputSlots(nodes, cuts, n)[i] == slot
  {
    InputSlotsArrive(nodes, total, keys, cuts, first, n);
    i :| 0 <= i < |ReadsOf(n)| && ReadsOf(n)[i] == e;
    ReadIsDep(nodes, n, e);
  }

  /** A node whose input slot is empty when it runs has not read the value. */
  lemma {:induction false} ReaderMisses<V>(
    f: Fn<V>, nodes: seq<Node>, total: nat, keys: seq<Key>, cuts: Cuts, first: nat, ref: map<Id, V>, init: Mem<V>,
    tr: seq<Origin>, l: nat, n: Node, e: Id, slot: nat)
    requires Sound(nodes, total, keys, cuts, first) && IsRun(nodes, keys, cuts, tr) && IsMeaning(f, nodes, ref)
    requires l < |tr| && tr[l] == FromNode(n) && e in ReadsOf(n) && ArrivalSlot(nodes, cuts, e, Host(n)) == Some(slot)
    requires Peek(Run(f, nodes, cuts, init, tr, l).store, (Host(n), slot)) == None
    ensures !ReadsRight(tr, Run(f, nodes, cuts, init, tr, |tr|), ref)
  {
    assert IsItem(nodes, keys, tr[l]);
    var i := InputAt(nodes, total, keys, cuts, first, n, e, slot);
    forall q | l < q < |tr| ensures !(tr[q].FromNode? && tr[q].node.id == n.id) {
      RunsOnce(nodes, keys, cuts, tr, l, n, q);
    }
    SeenToEnd(f, nodes, cuts, init, tr, l, n, i);
    WrongInput(tr, Run(f, nodes, cuts, init, tr, |tr|), ref, n, i);
  }

  /** Where an item puts its value is where its cell is looked for. */
  lemma {:induction false} CellArrives(nodes: seq<Node>, total: nat, keys: seq<Key>, cuts: Cuts, first: nat, a: Origin)
    requires Sound(nodes, total, keys, cuts, first) && IsItem(nodes, keys, a) && Target(cuts, a).Some?
    ensures var c, pl := CellOf(a), Target(cuts, a).value;
            pl.0 == c.1 && ArrivalSlot(nodes, cuts, c.0, c.1) == Some(pl.1)
    ensures a.FromNode? ==> HostOf(nodes, a.node.id) == Host(a.node) && Lookup(nodes, a.node.id) == Some(a.node)
    ensures a.FromRecv? ==> HostOf(nodes, a.key.0) != a.key.1
  {
    CutsMatchDests(nodes, keys, cuts, first);
    match a {
      case FromNode(n) =>
        LookupUnique(nodes, n);
        LocalIsNotCut(nodes, keys, cuts, first, n.id, Host(n));
      case FromRecv(k) =>
        LocalIsNotCut(nodes, keys, cuts, first, k.0, k.1);
    }
  }

  lemma {:induction false} NobodyElse(
    nodes: seq<Node>, total: nat, keys: seq<Key>, cuts: Cuts, first: nat, tr: seq<Origin>, i: nat, q: nat, o: Origin)
    requires Sound(nodes, total, keys, cuts, first) && IsRun(nodes, keys, cuts, tr) && i < q < |tr|
    requires !tr[i].FromSend? && IsItem(nodes, keys, o) && Reads(nodes, o, CellOf(tr[i]))
    ensures Target(cuts, tr[i]).Some? ==> Target(cuts, tr[q]) != Target(cuts, tr[i])
  {
    assert Needed(nodes, CellOf(tr[i]).0);
    assert IsItem(nodes, keys, tr[i]) && IsItem(nodes, keys, tr[q]) && tr[q] != tr[i];
    PlacesApart(nodes, total, keys, cuts, first, tr[i], tr[q]);
  }

  lemma {:induction false} FreeEmpties<V>(
    f: Fn<V>, nodes: seq<Node>, cuts: Cuts, init: Mem<V>, tr: seq<Origin>, j: nat, l: nat, pl: Place)
    requires j < l < |tr| && FreesPlace(tr[j], pl) && forall q :: j <= q < l ==> Target(cuts, tr[q]) != Some(pl)
    ensures Peek(Run(f, nodes, cuts, init, tr, l).store, pl) == None
  {
    ExecFrame(f, nodes, cuts, tr[j], Run(f, nodes, cuts, init, tr, j));
    EmptyStays(f, nodes, cuts, init, tr, j + 1, l, pl);
  }

  /** What a free empties stays empty until its reader comes. */
  lemma {:induction false} FreedIsEmpty<V>(
    f: Fn<V>, nodes: seq<Node>, total: nat, keys: seq<Key>, cuts: Cuts, first: nat, init: Mem<V>, tr: seq<Origin>,
    i: nat, j: nat, l: nat)
    requires Sound(nodes, total, keys, cuts, first) && IsRun(nodes, keys, cuts, tr) && i < j < l < |tr|
    requires FreedUnder(nodes, keys, cuts, tr[i], tr[j], tr[l])
    ensures Peek(Run(f, nodes, cuts, init, tr, l).store, Target(cuts, tr[i]).value) == None
  {
    var pl := Target(cuts, tr[i]).value;
    forall q | j <= q < l ensures Target(cuts, tr[q]) != Some(pl) {
      NobodyElse(nodes, total, keys, cuts, first, tr, i, q, tr[l]);
    }
    FreeEmpties(f, nodes, cuts, init, tr, j, l, pl);
  }

  ghost function Blank<V>(): Mem<V> { Mem(map[], map[], map[]) }

  /** A send that finds its slot empty puts nothing on the wire. */
  lemma {:induction false} NothingSent<V>(f: Fn<V>, nodes: seq<Node>, cuts: Cuts, tr: seq<Origin>, k: Key, x: nat)
    requires x <= |tr| && k in cuts
    requires forall q :: 0 <= q < |tr| && tr[q] == FromSend(k) ==>
                           (cuts[k].srcMachine, cuts[k].srcSlot) !in Run(f, nodes, cuts, Blank(), tr, q).store
    ensures k !in Run(f, nodes, cuts, Blank(), tr, x).wire
  {
    if x > 0 {
      NothingSent(f, nodes, cuts, tr, k, x - 1);
      ExecFrame(f, nodes, cuts, tr[x - 1], Run(f, nodes, cuts, Blank(), tr, x - 1));
      if tr[x - 1] == FromSend(k) { assert k !in Run(f, nodes, cuts, Blank(), tr, x - 1).wire; }
    }
  }

  lemma {:induction false} RecvStaysEmpty<V>(
    f: Fn<V>, nodes: seq<Node>, total: nat, keys: seq<Key>, cuts: Cuts, first: nat, o: Origin, k: Key, mem: Mem<V>)
    requires Sound(nodes, total, keys, cuts, first) && IsItem(nodes, keys, o) && k in keys && k in cuts
             && k !in mem.wire
    requires Peek(mem.store, (cuts[k].dest, cuts[k].recvSlot)) == None
    ensures Peek(Exec(f, nodes, cuts, o, mem).store, (cuts[k].dest, cuts[k].recvSlot)) == None
  {
    if o != FromRecv(k) {
      RecvApart(nodes, total, keys, cuts, first, k, o);
      ExecFrame(f, nodes, cuts, o, mem);
    }
  }

  lemma {:induction false} NothingReceived<V>(
    f: Fn<V>, nodes: seq<Node>, total: nat, keys: seq<Key>, cuts: Cuts, first: nat, tr: seq<Origin>, k: Key, x: nat)
    requires Sound(nodes, total, keys, cuts, first) && x <= |tr| && k in keys && k in cuts
    requires forall i :: 0 <= i < |tr| ==> IsItem(nodes, keys, tr[i])
    requires forall y :: 0 <= y <= |tr| ==> k !in Run(f, nodes, cuts, Blank(), tr, y).wire
    ensures Peek(Run(f, nodes, cuts, Blank(), tr, x).store, (cuts[k].dest, cuts[k].recvSlot)) == None
  {
    if x > 0 {
      NothingReceived(f, nodes, total, keys, cuts, first, tr, k, x - 1);
      RecvStaysEmpty(f, nodes, total, keys, cuts, first, tr[x - 1], k, Run(f, nodes, cuts, Blank(), tr, x - 1));
    }
  }

  /** The send misses the value, so its remote reader does. */
  lemma {:induction false} SendMisses<V>(
    f: Fn<V>, nodes: seq<Node>, total: nat, keys: seq<Key>, cuts: Cuts, first: nat, ref: map<Id, V>, tr: seq<Origin>,
    i: nat, j: nat, l: nat, h: nat, n: Node)
    requires Sound(nodes, total, keys, cuts, first) && IsRun(nodes, keys, cuts, tr) && IsMeaning(f, nodes, ref)
    requires i < j < l < |tr| && FreedUnder(nodes, keys, cuts, tr[i], tr[j], tr[l]) && tr[l].FromSend?
    requires h < |tr| && tr[h] == FromNode(n) && tr[l].key.0 in ReadsOf(n) && Host(n) == tr[l].key.1
    ensures !ReadsRight(tr, Run(f, nodes, cuts, Blank(), tr, |tr|), ref)
  {
    var k := tr[l].key;
    assert IsItem(nodes, keys, tr[l]) && IsItem(nodes, keys, tr[i]) && k in cuts;
    CellArrives(nodes, total, keys, cuts, first, tr[i]);
    var _ := CutAt(nodes, keys, cuts, first, k);
    assert Target(cuts, tr[i]) == Some((cuts[k].srcMachine, cuts[k].srcSlot));
    FreedIsEmpty(f, nodes, total, keys, cuts, first, Blank(), tr, i, j, l);
    forall q | 0 <= q < |tr| && tr[q] == FromSend(k) ensures q == l { assert q < l || l < q || q == l; }
    forall y | 0 <= y <= |tr| ensures k !in Run(f, nodes, cuts, Blank(), tr, y).wire {
      NothingSent(f, nodes, cuts, tr, k, y);
    }
    NothingReceived(f, nodes, total, keys, cuts, first, tr, k, h);
    CutsMatchDests(nodes, keys, cuts, first);
    ReaderMisses(f, nodes, total, keys, cuts, first, ref, Blank(), tr, h, n, k.0, cuts[k].recvSlot);
  }

  /** A free between a value and its reader makes somebody misread. */
  lemma {:induction false} FreedIsMissed<V>(
    f: Fn<V>, nodes: seq<Node>, total: nat, keys: seq<Key>, cuts: Cuts, first: nat, ref: map<Id, V>, tr: seq<Origin>,
    i: nat, j: nat, l: nat)
    requires Sound(nodes, total, keys, cuts, first) && IsRun(nodes, keys, cuts, tr) && IsMeaning(f, nodes, ref)
    requires i < j < l < |tr| && FreedUnder(nodes, keys, cuts, tr[i], tr[j], tr[l])
    requires forall n :: n in nodes ==> FromNode(n) in tr
    ensures !ReadsRight(tr, Run(f, nodes, cuts, Blank(), tr, |tr|), ref)
  {
    var c := CellOf(tr[i]);
    match tr[l] {
      case FromNode(n) =>
        assert IsItem(nodes, keys, tr[i]);
        CellArrives(nodes, total, keys, cuts, first, tr[i]);
        FreedIsEmpty(f, nodes, total, keys, cuts, first, Blank(), tr, i, j, l);
        ReaderMisses(f, nodes, total, keys, cuts, first, ref, Blank(), tr, l, n, c.0, Target(cuts, tr[i]).value.1);
      case FromSend(k) =>
        var n :| n in nodes && k.0 in ReadsOf(n) && Host(n) == k.1;
        var h :| 0 <= h < |tr| && tr[h] == FromNode(n);
        SendMisses(f, nodes, total, keys, cuts, first, ref, tr, i, j, l, h, n);
    }
  }

  // ---------------------------------------------------------------------------
  // An order in which it happens
  // ---------------------------------------------------------------------------

  /** A reader waits, directly, for the item that fills its cell. */
  lemma {:induction false} ReaderWaits(nodes: seq<Node>, total: nat, keys: seq<Key>, cuts: Cuts, first: nat, a: Origin,
                                       o: Origin)
    requires Sound(nodes, total, keys, cuts, first) && DestsMatch(keys, cuts)
    requires IsItem(nodes, keys, a) && IsItem(nodes, keys, o) && Target(cuts, a).Some? && Reads(nodes, o, CellOf(a))
    ensures (VertexOf(cuts, a), VertexOf(cuts, o)) in ClusterEdges(Emitted(nodes, keys, cuts), keys, cuts)
  {
    CellArrives(nodes, total, keys, cuts, first, a);
    var c := CellOf(a);
    match o {
      case FromNode(n) =>
        ReadIsDep(nodes, n, c.0);
        DepEdge(nodes, keys, cuts, n, c.0);
        if a.FromRecv? { var _ := CutAt(nodes, keys, cuts, first, a.key); }
      case FromSend(k) =>
        SendEdge(nodes, keys, cuts, k);
        var _ := CutAt(nodes, keys, cuts, first, k);
    }
  }

  /** Putting f between a and o closes no cycle. */
  lemma {:induction false} Between(g: Graph<Vertex>, a: Vertex, f: Vertex, o: Vertex)
    requires Acyclic(g) && (a, o) in g && o != f && a != f
    requires !Precedes(g, o, f) && !Precedes(g, f, a)
    ensures Acyclic(g + {(f, o)} + {(a, f)})
  {
    PrecedesReaches(g, o, f);
    AddEdge(g, f, o);
    var h := g + {(f, o)};
    if Reaches(h, f, a) {
      var w: seq<Vertex> :| WalkFromTo(h, w, f, a);
      assert |w| >= 2;
      WalkWithNewEdge(g, f, o, w);
      EdgePrecedes(g, a, o);
      PrecedesReaches(g, a, o);
      ReachesTrans(g, a, o, a);
    }
    AddEdge(h, a, f);
  }

  lemma {:induction false} PlaceOf(g: Graph<Vertex>, run: seq<Vertex>, u: Vertex, v: Vertex) returns (i: nat, j: nat)
    requires IsLinear(g, run) && (u, v) in g && v in run
    ensures i < j < |run| && run[i] == u && run[j] == v
  {
    j :| 0 <= j < |run| && run[j] == v;
    i :| 0 <= i < j && run[..j][i] == u;
  }

  /** The item at a place of a list run. */
  lemma {:induction false} ItemAt(all: seq<Node>, keys: seq<Key>, cuts: Cuts, tr: seq<Origin>, run: seq<Vertex>, i: nat,
                                  o: Origin)
    requires MintedBefore(all, 5) && DistinctIds(all) && DestsMatch(keys, cuts) && AtVertices(cuts, tr, run)
    requires (forall p :: 0 <= p < |tr| ==> IsItem(all, keys, tr[p])) && IsItem(all, keys, o)
    requires i < |run| && run[i] == VertexOf(cuts, o)
    ensures tr[i] == o
  {
    VertexInjective(all, keys, cuts, tr[i], o);
  }

  lemma {:induction false} MisorderedVertices(lists: seq<seq<Node>>, u: Vertex, v: Vertex, w: Vertex)
    returns (run: seq<Vertex>, i: nat, j: nat, l: nat)
    requires Acyclic(Waits(lists)) && (u, w) in Waits(lists) && w != v && u != v && v in Vertices(lists)
    requires !Precedes(Waits(lists), w, v) && !Precedes(Waits(lists), v, u)
    requires forall e :: e in Waits(lists) ==> e.0 in Vertices(lists) && e.1 in Vertices(lists)
    ensures RunsAll(lists, run) && i < j < l < |run| && run[i] == u && run[j] == v && run[l] == w
  {
    var g := Waits(lists);
    Between(g, u, v, w);
    assert u in Vertices(lists) && w in Vertices(lists);
    var h := g + {(v, w)} + {(u, v)};
    run := FullRun(lists, h);
    i, j := PlaceOf(h, run, u, v);
    var j', l' := PlaceOf(h, run, v, w);
    assert j' == j;
    l := l';
  }

  /** Unless the lists forbid it, some order of everything puts the free between the value and its reader. */
  lemma {:induction false} MisorderedRun(
    all: seq<Node>, total: nat, t: Trace, lists: seq<seq<Node>>, a: Origin, f: Origin, o: Origin)
    returns (run: seq<Vertex>, i: nat, j: nat, l: nat)
    requires EmittedAs(all, total, t, lists) && Sound(all, total, t.keys, t.cuts, t.first) && DestsMatch(t.keys, t.cuts)
    requires FreedUnder(all, t.keys, t.cuts, a, f, o) && Acyclic(Waits(lists))
    requires !Precedes(Waits(lists), VertexOf(t.cuts, o), VertexOf(t.cuts, f))
    requires !Precedes(Waits(lists), VertexOf(t.cuts, f), VertexOf(t.cuts, a))
    ensures RunsAll(lists, run) && i < j < l < |run|
    ensures run[i] == VertexOf(t.cuts, a) && run[j] == VertexOf(t.cuts, f) && run[l] == VertexOf(t.cuts, o)
  {
    ReaderWaits(all, total, t.keys, t.cuts, t.first, a, o);
    WaitsContain(all, total, t, lists);
    ApartVertices(all, t.keys, t.cuts, a, f, o);
    ItemListed(all, total, t, lists, f);
    WaitsListed(all, total, t, lists);
    run, i, j, l := MisorderedVertices(lists, VertexOf(t.cuts, a), VertexOf(t.cuts, f), VertexOf(t.cuts, o));
  }

  lemma {:induction false} ApartVertices(all: seq<Node>, keys: seq<Key>, cuts: Cuts, a: Origin, f: Origin, o: Origin)
    requires MintedBefore(all, 5) && DistinctIds(all) && DestsMatch(keys, cuts) && FreedUnder(all, keys, cuts, a, f, o)
    ensures VertexOf(cuts, o) != VertexOf(cuts, f) && VertexOf(cuts, a) != VertexOf(cuts, f)
  {
    if VertexOf(cuts, o) == VertexOf(cuts, f) { VertexInjective(all, keys, cuts, o, f); }
    if VertexOf(cuts, a) == VertexOf(cuts, f) { VertexInjective(all, keys, cuts, a, f); }
  }

  // ---------------------------------------------------------------------------
  // The exact condition
  // ---------------------------------------------------------------------------

  /** From this memory, this order of the lists gives every node the inputs of the one-machine run. */
  ghost predicate RightRun<V>(f: Fn<V>, all: seq<Node>, cuts: Cuts, single: map<Id, V>, run: seq<Vertex>, init: Mem<V>)
  {
    ReadsRight(Items(all, run), Run(f, all, cuts, init, Items(all, run), |run|), single)
  }

  /** Every order of the lists, from every memory, does. */
  ghost predicate AlwaysRight<V(!new)>(f: Fn<V>, all: seq<Node>, cuts: Cuts, single: map<Id, V>,
                                       lists: seq<seq<Node>>)
  {
    forall run, init: Mem<V> :: IsListRun(lists, run) ==> RightRun(f, all, cuts, single, run, init)
  }

  lemma {:induction false} RightWhenInTurn<V(!new)>(
    f: Fn<V>, all: seq<Node>, total: nat, t: Trace, lists: seq<seq<Node>>, order: seq<nat>, init: Mem<V>,
    run: seq<Vertex>)
    requires Sound(all, total, t.keys, t.cuts, t.first) && EmittedAs(all, total, t, lists) && IsListRun(lists, run)
    requires IsPermutation(order, |all|) && Topo.DepsFirst(all, order)
    requires FreesInTurn(all, t.keys, t.cuts, Waits(lists))
    ensures RightRun(f, all, t.cuts, OneMachine(f, all, order, |order|), run, init)
  {
    ListRunIsRun(all, total, t, lists, run);
    ListRunsTimely(all, total, t, lists, run);
    DataflowPreserved(f, all, total, t.keys, t.cuts, t.first, order, init, Items(all, run));
  }

  lemma {:induction false} AllRan(
    all: seq<Node>, total: nat, t: Trace, lists: seq<seq<Node>>, run: seq<Vertex>, n: Node)
    requires EmittedAs(all, total, t, lists) && DestsMatch(t.keys, t.cuts) && MintedBefore(all, 5) && DistinctIds(all)
    requires RunsAll(lists, run) && n in all
    ensures FromNode(n) in Items(all, run)
  {
    ItemListed(all, total, t, lists, FromNode(n));
    NodeInRun(all, run, n);
  }

  lemma {:induction false} NodeInRun(all: seq<Node>, run: seq<Vertex>, n: Node)
    requires DistinctIds(all) && MintedBefore(all, 5) && n in all && (Host(n), n.id) in run
    ensures FromNode(n) in Items(all, run)
  {
    var p :| 0 <= p < |run| && run[p] == (Host(n), n.id);
    LookupUnique(all, n);
    assert Items(all, run)[p] == FromNode(n);
  }

  lemma {:induction false} WrongWhenNot<V(!new)>(
    f: Fn<V>, all: seq<Node>, total: nat, t: Trace, lists: seq<seq<Node>>, single: map<Id, V>, a: Origin, b: Origin,
    o: Origin) returns (run: seq<Vertex>)
    requires Sound(all, total, t.keys, t.cuts, t.first) && EmittedAs(all, total, t, lists) && IsMeaning(f, all, single)
    requires DestsMatch(t.keys, t.cuts) && Acyclic(Waits(lists)) && FreedUnder(all, t.keys, t.cuts, a, b, o)
    requires !Precedes(Waits(lists), VertexOf(t.cuts, o), VertexOf(t.cuts, b))
    requires !Precedes(Waits(lists), VertexOf(t.cuts, b), VertexOf(t.cuts, a))
    ensures RunsAll(lists, run) && !RightRun(f, all, t.cuts, single, run, Blank())
  {
    var i, j, l;
    run, i, j, l := MisorderedRun(all, total, t, lists, a, b, o);
    ListRunIsRun(all, total, t, lists, run);
    var tr := Items(all, run);
    ItemAt(all, t.keys, t.cuts, tr, run, i, a);
    ItemAt(all, t.keys, t.cuts, tr, run, j, b);
    ItemAt(all, t.keys, t.cuts, tr, run, l, o);
    forall n | n in all ensures FromNode(n) in tr { AllRan(all, total, t, lists, run, n); }
    FreedIsMissed(f, all, total, t.keys, t.cuts, t.first, single, tr, i, j, l);
  }

  lemma {:induction false} WrongSomewhere<V(!new)>(
    f: Fn<V>, all: seq<Node>, total: nat, t: Trace, lists: seq<seq<Node>>, single: map<Id, V>)
    requires Sound(all, total, t.keys, t.cuts, t.first) && EmittedAs(all, total, t, lists) && IsMeaning(f, all, single)
    requires Acyclic(Waits(lists)) && DestsMatch(t.keys, t.cuts) && !FreesInTurn(all, t.keys, t.cuts, Waits(lists))
    ensures exists run :: RunsAll(lists, run) && !RightRun(f, all, t.cuts, single, run, Blank())
  {
    var a, b, o :| FreedUnder(all, t.keys, t.cuts, a, b, o)
                   && !Precedes(Waits(lists), VertexOf(t.cuts, o), VertexOf(t.cuts, b))
                   && !Precedes(Waits(lists), VertexOf(t.cuts, b), VertexOf(t.cuts, a));
    var run := WrongWhenNot(f, all, total, t, lists, single, a, b, o);
  }

  /** Lists that can be run to the end keep the dataflow in every order and from every memory if and only if every
      free comes in turn. */
  lemma {:induction false} AlwaysRightIff<V(!new)>(
    f: Fn<V>, all: seq<Node>, total: nat, t: Trace, lists: seq<seq<Node>>, order: seq<nat>)
    requires Sound(all, total, t.keys, t.cuts, t.first) && EmittedAs(all, total, t, lists) && Acyclic(Waits(lists))
    requires IsPermutation(order, |all|) && Topo.DepsFirst(all, order)
    ensures AlwaysRight(f, all, t.cuts, OneMachine(f, all, order, |order|), lists)
       <==> FreesInTurn(all, t.keys, t.cuts, Waits(lists))
  {
    var single := OneMachine(f, all, order, |order|);
    if FreesInTurn(all, t.keys, t.cuts, Waits(lists)) {
      forall run, init: Mem<V> | IsListRun(lists, run) ensures RightRun(f, all, t.cuts, single, run, init) {
        RightWhenInTurn(f, all, total, t, lists, order, init, run);
      }
    } else {
      OneMachineMeaning(f, all, order);
      CutsMatchDests(all, t.keys, t.cuts, t.first);
      WrongSomewhere(f, all, total, t, lists, single);
      var run :| RunsAll(lists, run) && !RightRun(f, all, t.cuts, single, run, Blank());
    }
  }

  // ---------------------------------------------------------------------------
  // When nothing that is needed is freed
  // ---------------------------------------------------------------------------

  /** b frees the slot of d. */
  ghost predicate FreesSlotOf(b: Node, d: Node) {
    b.id != d.id && b.host == d.host && SlotOf(d).Some? && SlotOf(d).value in Freed(b)
  }

  /** No node that is read or sent sits on a slot that is freed on its machine. */
  ghost predicate NeededKept(all: seq<Node>) {
    forall d, b :: d in all && b in all && FreesSlotOf(b, d) ==> !Needed(all, d.id)
  }

  /** Freed slots are 32-bit numbers, as all slots are. */
  ghost predicate FreesFit(all: seq<Node>) {
    forall b, x :: b in all && x in Freed(b) ==> x <= U32_MAX
  }

  lemma {:induction false} RecvNotFreed(all: seq<Node>, keys: seq<Key>, cuts: Cuts, first: nat, k: Key, b: Node)
    requires CutsFor(all, keys, cuts, first) && IsFirstFresh(all, first) && FreesFit(all) && k in keys && b in all
    ensures k in cuts && cuts[k].recvSlot !in Freed(b)
  {
    var i := CutAt(all, keys, cuts, first, k);
    assert forall x :: x in Freed(b) ==> x in Scanned(b.kind);
  }

  lemma {:induction false} NodeNotFreed(all: seq<Node>, total: nat, keys: seq<Key>, d: Node, b: Node, o: Origin)
    requires Placed(all, total) && DistinctIds(all) && NeededKept(all) && d in all && b in all && d != b
    requires IsItem(all, keys, o) && Reads(all, o, (d.id, Host(d))) && SlotOf(d).Some?
    ensures !FreesPlace(FromNode(b), (Host(d), SlotOf(d).value))
  {
    assert d.host.Some? && b.host.Some? && Needed(all, d.id);
    if d.id == b.id { SameId(all, d, b); }
    assert !FreesSlotOf(b, d);
  }

  lemma {:induction false} NothingFreedUnder(
    all: seq<Node>, total: nat, keys: seq<Key>, cuts: Cuts, first: nat, a: Origin, f: Origin, o: Origin)
    requires CutsFor(all, keys, cuts, first) && IsFirstFresh(all, first) && Placed(all, total) && DistinctIds(all)
    requires NeededKept(all) && FreesFit(all)
    ensures !FreedUnder(all, keys, cuts, a, f, o)
  {
    if FreedUnder(all, keys, cuts, a, f, o) {
      match a {
        case FromRecv(k) => RecvNotFreed(all, keys, cuts, first, k, f.node);
        case FromNode(d) => NodeNotFreed(all, total, keys, d, f.node, o);
      }
    }
  }

  /** If nothing needed is freed, every free comes in turn, whatever the lists order. */
  lemma {:induction false} KeptIsInTurn(all: seq<Node>, total: nat, keys: seq<Key>, cuts: Cuts, first: nat,
                                        g: Graph<Vertex>)
    requires CutsFor(all, keys, cuts, first) && IsFirstFresh(all, first) && Placed(all, total) && DistinctIds(all)
    requires NeededKept(all) && FreesFit(all)
    ensures FreesInTurn(all, keys, cuts, g)
  {
    CutsMatchDests(all, keys, cuts, first);
    forall a, f, o ensures !FreedUnder(all, keys, cuts, a, f, o) {
      NothingFreedUnder(all, total, keys, cuts, first, a, f, o);
    }
  }
}
