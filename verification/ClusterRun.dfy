/** Every run of the cut graph on the cluster delivers the one-machine values. */
module ClusterRun {
  import opened Prelude
  import opened Sequences
  import opened SymbolicDag
  import opened Topo
  import opened Slots
  import opened Cut
  import opened CutProofs
  import opened Dataflow

  // ---------------------------------------------------------------------------
  // Semantics
  // ---------------------------------------------------------------------------

  type Place = (nat, nat)   // (machine, slot)

  /** Slot contents of every machine, values in flight, and the inputs each node has read. */
  datatype Mem<V> = Mem(store: map<Place, V>, wire: map<Key, V>, seen: map<Id, seq<Option<V>>>)

  function Host(n: Node): nat { OrElse(n.host, 0) }

  /** The slots the emitted kind of n names as its inputs. */
  function InputSlots(nodes: seq<Node>, cuts: Cuts, n: Node): seq<nat> {
    var k := EmitKind(nodes, cuts, n, Host(n));
    if k.None? then []
    else match (n.kind, k.value)
         case (Aggregate(Some(_), _, _), Aggregate(_, Some(slots), _)) => slots
         case (Bridge(Some(_), _, _), Bridge(_, Some(slots), _)) => slots
         case (Other(_, Some(_), _), Other(_, _, Some(slots))) => slots
         case (Output(_, _), Output(Some(slot), _)) => if |n.deps| == 1 then [slot] else []
         case _ => []
  }

  function PlacesOn(m: nat, slots: seq<nat>): (r: seq<Place>)
    ensures |r| == |slots|
  {
    seq(|slots|, i requires 0 <= i < |slots| => (m, slots[i]))
  }

  /** The slots that n empties on its machine. */
  function Freed(n: Node): set<nat> {
    if n.kind.FreeSlots? then Elems(n.kind.stream) else {}
  }

  ghost function Emptied<V>(store: map<Place, V>, n: Node): map<Place, V> {
    map p | p in store && !(p.0 == Host(n) && p.1 in Freed(n)) :: store[p]
  }

  /** One step: a send copies a slot to the wire, a recv the wire to a slot; a node reads its input slots, empties
      the slots it frees and fills its own. */
  ghost function Exec<V>(f: Fn<V>, nodes: seq<Node>, cuts: Cuts, o: Origin, mem: Mem<V>): Mem<V> {
    match o
    case FromSend(k) =>
      if k in cuts && (cuts[k].srcMachine, cuts[k].srcSlot) in mem.store
      then mem.(wire := mem.wire[k := mem.store[(cuts[k].srcMachine, cuts[k].srcSlot)]]) else mem
    case FromRecv(k) =>
      if k in cuts && k in mem.wire
      then mem.(store := mem.store[(cuts[k].dest, cuts[k].recvSlot) := mem.wire[k]]) else mem
    case FromNode(n) =>
      var inputs := PeekAll(mem.store, PlacesOn(Host(n), InputSlots(nodes, cuts, n)));
      var slot, kept := SlotOf(n), Emptied(mem.store, n);
      mem.(seen := mem.seen[n.id := inputs],
      store := if slot.Some? then kept[(Host(n), slot.value) := f(n.id, inputs)] else kept)
  }

  /** The first k steps of a run, from any initial memory. */
  ghost function Run<V>(f: Fn<V>, nodes: seq<Node>, cuts: Cuts, init: Mem<V>, tr: seq<Origin>, k: nat): Mem<V>
    requires k <= |tr|
  {
    if k == 0 then init else Exec(f, nodes, cuts, tr[k - 1], Run(f, nodes, cuts, init, tr, k - 1))
  }

  // ---------------------------------------------------------------------------
  // Runs: linearisations of the cluster order
  // ---------------------------------------------------------------------------

  ghost predicate IsItem(nodes: seq<Node>, keys: seq<Key>, o: Origin) {
    match o
    case FromSend(k) => k in keys
    case FromRecv(k) => k in keys
    case FromNode(n) => n in nodes
  }

  ghost function VertexOf(cuts: Cuts, o: Origin): Vertex
    requires o.FromNode? || o.key in cuts
  {
    match o
    case FromSend(k) => (cuts[k].srcMachine, SendOf(k.0, cuts[k].dest))
    case FromRecv(k) => (cuts[k].dest, RecvOf(k.0, cuts[k].srcMachine))
    case FromNode(n) => (Host(n), n.id)
  }

  ghost predicate Ran(cuts: Cuts, tr: seq<Origin>, p: nat, v: Vertex)
    requires forall i :: 0 <= i < |tr| ==> !tr[i].FromNode? ==> tr[i].key in cuts
  {
    exists q :: 0 <= q < p && q < |tr| && VertexOf(cuts, tr[q]) == v
  }

  /** Distinct items, each after everything that precedes it in the cluster order. */
  ghost predicate IsRun(nodes: seq<Node>, keys: seq<Key>, cuts: Cuts, tr: seq<Origin>)
    requires KeysCut(keys, cuts)
  {
    && (forall i :: 0 <= i < |tr| ==> IsItem(nodes, keys, tr[i]))
    && (forall i :: 0 <= i < |tr| ==> !tr[i].FromNode? ==> tr[i].key in cuts)
    && (forall i, j :: 0 <= i < j < |tr| ==> tr[i] != tr[j])
    && forall p, u ::
         (0 <= p < |tr| && (u, VertexOf(cuts, tr[p])) in ClusterEdges(Emitted(nodes, keys, cuts), keys, cuts)) ==>
           Ran(cuts, tr, p, u)
  }

  /** What must have run before step p, item by item. */
  ghost predicate Waited(nodes: seq<Node>, cuts: Cuts, tr: seq<Origin>, p: nat)
    requires p < |tr| && forall i :: 0 <= i < |tr| ==> !tr[i].FromNode? ==> tr[i].key in cuts
  {
    match tr[p]
    case FromNode(n) => forall d :: d in n.deps ==> Ran(cuts, tr, p, (Host(n), LocalDep(nodes, d, Host(n))))
    case FromSend(k) => Ran(cuts, tr, p, (cuts[k].srcMachine, k.0))
    case FromRecv(k) => Ran(cuts, tr, p, (cuts[k].srcMachine, SendOf(k.0, cuts[k].dest)))
  }

  /** Each transfer goes to the machine its key names. */
  ghost predicate DestsMatch(keys: seq<Key>, cuts: Cuts) {
    forall k :: k in keys ==> k in cuts && cuts[k].dest == k.1
  }

  /** A vertex of the cluster order determines its item. */
  lemma {:induction false} VertexInjective(nodes: seq<Node>, keys: seq<Key>, cuts: Cuts, a: Origin, b: Origin)
    requires MintedBefore(nodes, 5) && DistinctIds(nodes) && DestsMatch(keys, cuts)
    requires IsItem(nodes, keys, a) && IsItem(nodes, keys, b) && VertexOf(cuts, a) == VertexOf(cuts, b)
    ensures a == b
  {
    if a.FromNode? && b.FromNode? { SameId(nodes, a.node, b.node); }
  }

  lemma {:induction false} EdgeWaited(nodes: seq<Node>, keys: seq<Key>, cuts: Cuts, tr: seq<Origin>, p: nat, u: Vertex)
    requires MintedBefore(nodes, 5) && DistinctIds(nodes) && DestsMatch(keys, cuts) && KeysCut(keys, cuts)
    requires forall i :: 0 <= i < |tr| ==> !tr[i].FromNode? ==> tr[i].key in cuts
    requires p < |tr| && IsItem(nodes, keys, tr[p]) && Waited(nodes, cuts, tr, p)
    requires (u, VertexOf(cuts, tr[p])) in ClusterEdges(Emitted(nodes, keys, cuts), keys, cuts)
    ensures Ran(cuts, tr, p, u)
  {
    var items, v := Emitted(nodes, keys, cuts), VertexOf(cuts, tr[p]);
    if k :| k in keys && u == (cuts[k].srcMachine, SendOf(k.0, cuts[k].dest)) && v == VertexOf(cuts, FromRecv(k)) {
      VertexInjective(nodes, keys, cuts, FromRecv(k), tr[p]);
    } else {
      var x, d :| x in items && x.host.Some? && d in x.deps && u == (x.host.value, d) && v == (x.host.value, x.id);
      var o := OriginOf(nodes, keys, cuts, x);
      VertexInjective(nodes, keys, cuts, o, tr[p]);
    }
  }

  /** Waiting item by item is all a run asks for. */
  lemma {:induction false} RunIntro(nodes: seq<Node>, keys: seq<Key>, cuts: Cuts, tr: seq<Origin>)
    requires MintedBefore(nodes, 5) && DistinctIds(nodes) && DestsMatch(keys, cuts) && KeysCut(keys, cuts)
    requires forall i :: 0 <= i < |tr| ==> IsItem(nodes, keys, tr[i])
    requires forall i :: 0 <= i < |tr| ==> !tr[i].FromNode? ==> tr[i].key in cuts
    requires forall i, j :: 0 <= i < j < |tr| ==> tr[i] != tr[j]
    requires forall p :: 0 <= p < |tr| ==> Waited(nodes, cuts, tr, p)
    ensures IsRun(nodes, keys, cuts, tr)
  {
    forall p, u | 0 <= p < |tr| && (u, VertexOf(cuts, tr[p])) in ClusterEdges(Emitted(nodes, keys, cuts), keys, cuts)
      ensures Ran(cuts, tr, p, u)
    {
      EdgeWaited(nodes, keys, cuts, tr, p, u);
    }
  }

  // ---------------------------------------------------------------------------
  // Premises on slots
  // ---------------------------------------------------------------------------

  /** Someone reads the node by slot, or its value is sent to another machine. */
  ghost predicate Needed(nodes: seq<Node>, id: Id) {
    (exists n :: n in nodes && id in ReadsOf(n)) || exists m: nat :: IsCut(nodes, id, m)
  }

  ghost predicate SharesSlot(a: Node, b: Node) {
    a.host == b.host && SlotOf(a).Some? && SlotOf(a) == SlotOf(b)
  }

  /** The slot of n on its machine is also the slot of a transfer to that machine. */
  ghost predicate Clashes(cuts: Cuts, n: Node) {
    exists k :: k in cuts && n.host == Some(cuts[k].dest) && SlotOf(n) == Some(cuts[k].recvSlot)
  }

  /** No two nodes of a machine share the slot of a needed one, and no producer shares the slot of a transfer. */
  ghost predicate SlotsSafe(nodes: seq<Node>, cuts: Cuts) {
    && (forall a, b :: a in nodes && b in nodes && a.id != b.id && SharesSlot(a, b) ==> !Needed(nodes, a.id))
    && forall n :: n in nodes ==> !Clashes(cuts, n)
  }

  /** A single-dep Output on its dep's machine names the slot its dep writes. */
  ghost predicate OutputsCarrySlots(nodes: seq<Node>) {
    forall n, d :: n in nodes && d in nodes && n.kind.Output? && n.deps == [d.id] && n.host == d.host ==>
                     n.kind.outSlot.Some? && n.kind.outSlot == SlotOf(d)
  }

  ghost predicate Sound(nodes: seq<Node>, total: nat, keys: seq<Key>, cuts: Cuts, first: nat) {
    && Placed(nodes, total) && DistinctIds(nodes) && MintedBefore(nodes, 5)
    && CutsFor(nodes, keys, cuts, first) && KeysCut(keys, cuts)
    && (forall n :: n in nodes ==> EmitKind(nodes, cuts, n, Host(n)).Some?)
    && ReadsAreDeps(nodes) && SlotsSafe(nodes, cuts) && OutputsCarrySlots(nodes)
  }

  // ---------------------------------------------------------------------------
  // Input slots are arrival slots
  // ---------------------------------------------------------------------------

  lemma {:induction false} ResolveRefsAt(nodes: seq<Node>, cuts: Cuts, refs: seq<Id>, m: nat)
    requires ResolveRefs(nodes, cuts, refs, m).Some?
    ensures var slots := ResolveRefs(nodes, cuts, refs, m).value;
            |slots| == |refs| && forall i :: 0 <= i < |refs| ==> ArrivalSlot(nodes, cuts, refs[i], m) == Some(slots[i])
  {
    if refs != [] {
      ResolveRefsAt(nodes, cuts, refs[..|refs| - 1], m);
    }
  }

  /** The dep of a single-dep Output is local or cut, and its slot is named accordingly. */
  lemma {:induction false} OutputSlotAt(nodes: seq<Node>, total: nat, keys: seq<Key>, cuts: Cuts, first: nat, n: Node)
    requires Sound(nodes, total, keys, cuts, first) && n in nodes && n.kind.Output? && |n.deps| == 1
    ensures ResolveOutput(cuts, n.kind, n.deps, Host(n)).Output?
    ensures var s := ResolveOutput(cuts, n.kind, n.deps, Host(n)).outSlot;
            s.Some? && ArrivalSlot(nodes, cuts, n.deps[0], Host(n)) == s
  {
    var d, m := n.deps[0], Host(n);
    assert n.deps == [d] && d in n.deps && n.deps[1..] == [];
    var dn := Lookup(nodes, d).value;
    assert dn in nodes && dn.id == d && dn.host.Some? && n.host.Some?;
    if (d, m) !in cuts {
      assert !IsCut(nodes, d, m);
      assert HostOf(nodes, d) == m;
      assert n.kind.outSlot == SlotOf(dn);
    }
  }

  /** n names the nodes it reads. */
  predicate Routes(n: Node) {
    (n.kind.Aggregate? || n.kind.Bridge? || n.kind.Other?) && n.kind.upstreamNodes.Some?
  }

  lemma {:induction false} RoutedSlots(nodes: seq<Node>, cuts: Cuts, n: Node)
    requires Routes(n)
    requires EmitKind(nodes, cuts, n, Host(n)).Some?
    ensures ReadsOf(n) == n.kind.upstreamNodes.value
    ensures ResolveRefs(nodes, cuts, ReadsOf(n), Host(n)) == Some(InputSlots(nodes, cuts, n))
  {
  }

  lemma {:induction false} ReturnedSlot(nodes: seq<Node>, cuts: Cuts, n: Node)
    requires n.kind.Output? && |n.deps| == 1
    requires var k := ResolveOutput(cuts, n.kind, n.deps, Host(n)); k.Output? && k.outSlot.Some?
    ensures InputSlots(nodes, cuts, n) == [ResolveOutput(cuts, n.kind, n.deps, Host(n)).outSlot.value]
    ensures ReadsOf(n) == n.deps
  {
  }

  lemma {:induction false} OpaqueSlots(nodes: seq<Node>, cuts: Cuts, n: Node)
    requires !Routes(n)
    requires !(n.kind.Output? && |n.deps| == 1)
    ensures InputSlots(nodes, cuts, n) == [] && ReadsOf(n) == []
  {
  }

  /** The i-th input slot is where the i-th read node's value arrives on n's machine. */
  lemma {:induction false} InputSlotsArrive(
    nodes: seq<Node>, total: nat, keys: seq<Key>, cuts: Cuts, first: nat, n: Node)
    requires Sound(nodes, total, keys, cuts, first) && n in nodes
    ensures |InputSlots(nodes, cuts, n)| == |ReadsOf(n)|
    ensures forall i :: 0 <= i < |ReadsOf(n)| ==>
                          ArrivalSlot(nodes, cuts, ReadsOf(n)[i], Host(n)) == Some(InputSlots(nodes, cuts, n)[i])
  {
    if Routes(n) {
      RoutedSlots(nodes, cuts, n);
      ResolveRefsAt(nodes, cuts, ReadsOf(n), Host(n));
    } else if n.kind.Output? && |n.deps| == 1 {
      OutputSlotAt(nodes, total, keys, cuts, first, n);
      ReturnedSlot(nodes, cuts, n);
    } else {
      OpaqueSlots(nodes, cuts, n);
    }
  }

  // ---------------------------------------------------------------------------
  // What must have run before an item
  // ---------------------------------------------------------------------------

  /** The item that makes node e's value available on machine m. */
  ghost function Deliverer(nodes: seq<Node>, e: Id, m: nat): Origin
    requires e in Ids(nodes)
  {
    if HostOf(nodes, e) == m then FromNode(Lookup(nodes, e).value) else FromRecv((e, m))
  }

  lemma {:induction false} DepEdge(nodes: seq<Node>, keys: seq<Key>, cuts: Cuts, n: Node, e: Id)
    requires KeysCut(keys, cuts) && n in nodes && e in n.deps
    ensures ((Host(n), LocalDep(nodes, e, Host(n))), (Host(n), n.id))
            in ClusterEdges(Emitted(nodes, keys, cuts), keys, cuts)
  {
    var i :| 0 <= i < |nodes| && nodes[i] == n;
    var x := AllRewritten(nodes, cuts)[i];
    assert x in Emitted(nodes, keys, cuts);
    var j :| 0 <= j < |n.deps| && n.deps[j] == e;
    assert x.deps[j] == LocalDep(nodes, e, Host(n));
    assert x.deps[j] in x.deps;
  }

  lemma {:induction false} SendEdge(nodes: seq<Node>, keys: seq<Key>, cuts: Cuts, k: Key)
    requires KeysCut(keys, cuts) && k in keys
    ensures ((cuts[k].srcMachine, k.0), (cuts[k].srcMachine, SendOf(k.0, cuts[k].dest)))
            in ClusterEdges(Emitted(nodes, keys, cuts), keys, cuts)
  {
    var i :| 0 <= i < |keys| && keys[i] == k;
    var x := AllSends(keys, cuts)[i];
    assert x in Emitted(nodes, keys, cuts) && k.0 in x.deps;
  }

  lemma {:induction false} VertexNode(
    nodes: seq<Node>, total: nat, keys: seq<Key>, cuts: Cuts, first: nat, o: Origin, e: Id)
    requires Sound(nodes, total, keys, cuts, first) && IsItem(nodes, keys, o) && (!o.FromNode? ==> o.key in cuts)
    requires e in Ids(nodes) && VertexOf(cuts, o) == (HostOf(nodes, e), e)
    ensures o == FromNode(Lookup(nodes, e).value)
  {
    var n :| n in nodes && n.id == e;
    LookupUnique(nodes, n);
    if o.FromNode? { SameId(nodes, o.node, n); }
  }

  lemma {:induction false} CutsMatchDests(nodes: seq<Node>, keys: seq<Key>, cuts: Cuts, first: nat)
    requires CutsFor(nodes, keys, cuts, first)
    ensures DestsMatch(keys, cuts)
  {
    forall k | k in keys ensures k in cuts && cuts[k].dest == k.1 {
      var _ := CutAt(nodes, keys, cuts, first, k);
    }
  }

  lemma {:induction false} VertexRecv(nodes: seq<Node>, keys: seq<Key>, cuts: Cuts, o: Origin, k: Key)
    requires MintedBefore(nodes, 5) && DestsMatch(keys, cuts) && IsItem(nodes, keys, o)
    requires k in keys && VertexOf(cuts, o) == (k.1, RecvOf(k.0, cuts[k].srcMachine))
    ensures o == FromRecv(k)
  {
  }

  lemma {:induction false} VertexSend(nodes: seq<Node>, keys: seq<Key>, cuts: Cuts, o: Origin, k: Key)
    requires MintedBefore(nodes, 5) && DestsMatch(keys, cuts) && IsItem(nodes, keys, o)
    requires k in keys && VertexOf(cuts, o) == (cuts[k].srcMachine, SendOf(k.0, cuts[k].dest))
    ensures o == FromSend(k)
  {
  }

  ghost predicate RanItem(tr: seq<Origin>, p: nat, o: Origin) {
    exists q :: 0 <= q < p && q < |tr| && tr[q] == o
  }

  /** The item that ran as the local name of a dep is the one that delivers it. */
  lemma {:induction false} DelivererIs(
    nodes: seq<Node>, total: nat, keys: seq<Key>, cuts: Cuts, first: nat, n: Node, e: Id, o: Origin)
    requires Sound(nodes, total, keys, cuts, first) && n in nodes && e in n.deps && e in Ids(nodes)
    requires IsItem(nodes, keys, o) && (!o.FromNode? ==> o.key in cuts)
    requires VertexOf(cuts, o) == (Host(n), LocalDep(nodes, e, Host(n)))
    ensures o == Deliverer(nodes, e, Host(n))
  {
    if HostOf(nodes, e) == Host(n) {
      VertexNode(nodes, total, keys, cuts, first, o, e);
    } else {
      RemoteDeliverer(nodes, total, keys, cuts, first, n, e, o);
    }
  }

  lemma {:induction false} RemoteDeliverer(
    nodes: seq<Node>, total: nat, keys: seq<Key>, cuts: Cuts, first: nat, n: Node, e: Id, o: Origin)
    requires Sound(nodes, total, keys, cuts, first) && n in nodes && e in n.deps && e in Ids(nodes)
    requires IsItem(nodes, keys, o) && (!o.FromNode? ==> o.key in cuts) && HostOf(nodes, e) != Host(n)
    requires VertexOf(cuts, o) == (Host(n), LocalDep(nodes, e, Host(n)))
    ensures o == Deliverer(nodes, e, Host(n))
  {
    assert IsCut(nodes, e, Host(n));
    var k := (e, Host(n));
    assert k in keys;
    var _ := CutAt(nodes, keys, cuts, first, k);
    CutsMatchDests(nodes, keys, cuts, first);
    VertexRecv(nodes, keys, cuts, o, k);
  }

  lemma {:induction false} DepDelivered(
    nodes: seq<Node>, total: nat, keys: seq<Key>, cuts: Cuts, first: nat, tr: seq<Origin>, p: nat, e: Id)
    requires Sound(nodes, total, keys, cuts, first) && IsRun(nodes, keys, cuts, tr)
    requires p < |tr| && tr[p].FromNode? && e in tr[p].node.deps
    ensures e in Ids(nodes) && RanItem(tr, p, Deliverer(nodes, e, Host(tr[p].node)))
  {
    var n := tr[p].node;
    assert IsItem(nodes, keys, tr[p]);
    DepEdge(nodes, keys, cuts, n, e);
    var u := (Host(n), LocalDep(nodes, e, Host(n)));
    assert Ran(cuts, tr, p, u);
    var q :| 0 <= q < p && VertexOf(cuts, tr[q]) == u;
    assert IsItem(nodes, keys, tr[q]);
    DelivererIs(nodes, total, keys, cuts, first, n, e, tr[q]);
  }

  lemma {:induction false} SourceRan(
    nodes: seq<Node>, total: nat, keys: seq<Key>, cuts: Cuts, first: nat, tr: seq<Origin>, p: nat)
    requires Sound(nodes, total, keys, cuts, first) && IsRun(nodes, keys, cuts, tr)
    requires p < |tr| && tr[p].FromSend?
    ensures tr[p].key.0 in Ids(nodes) && RanItem(tr, p, FromNode(Lookup(nodes, tr[p].key.0).value))
  {
    var k := tr[p].key;
    assert IsItem(nodes, keys, tr[p]);
    var _ := CutAt(nodes, keys, cuts, first, k);
    SendEdge(nodes, keys, cuts, k);
    var u := (cuts[k].srcMachine, k.0);
    assert Ran(cuts, tr, p, u);
    var q :| 0 <= q < p && VertexOf(cuts, tr[q]) == u;
    assert IsItem(nodes, keys, tr[q]);
    VertexNode(nodes, total, keys, cuts, first, tr[q], k.0);
  }

  lemma {:induction false} SendRan(
    nodes: seq<Node>, total: nat, keys: seq<Key>, cuts: Cuts, first: nat, tr: seq<Origin>, p: nat)
    requires Sound(nodes, total, keys, cuts, first) && IsRun(nodes, keys, cuts, tr)
    requires p < |tr| && tr[p].FromRecv?
    ensures RanItem(tr, p, FromSend(tr[p].key))
  {
    var k := tr[p].key;
    assert IsItem(nodes, keys, tr[p]);
    var u := (cuts[k].srcMachine, SendOf(k.0, cuts[k].dest));
    assert (u, VertexOf(cuts, tr[p])) in ClusterEdges(Emitted(nodes, keys, cuts), keys, cuts);
    assert Ran(cuts, tr, p, u);
    var q :| 0 <= q < p && VertexOf(cuts, tr[q]) == u;
    assert IsItem(nodes, keys, tr[q]);
    CutsMatchDests(nodes, keys, cuts, first);
    VertexSend(nodes, keys, cuts, tr[q], k);
  }

  // ---------------------------------------------------------------------------
  // The invariant of every run
  // ---------------------------------------------------------------------------

  /** The value of node c.0 on machine c.1. */
  type Cell = Key

  /** Some node on machine k.1 reads node k.0. */
  ghost predicate ReadAt(nodes: seq<Node>, k: Cell) {
    exists n :: n in nodes && k.0 in ReadsOf(n) && Host(n) == k.1
  }

  /** o reads the cell: a node on its machine, or the send of a value that is read elsewhere. */
  ghost predicate Reads(nodes: seq<Node>, o: Origin, c: Cell) {
    match o
    case FromNode(n) => Host(n) == c.1 && c.0 in ReadsOf(n)
    case FromSend(k) => k.0 == c.0 && HostOf(nodes, c.0) == c.1 && ReadAt(nodes, k)
    case FromRecv(_) => false
  }

  /** The cell an item fills. */
  ghost function CellOf(o: Origin): Cell {
    match o
    case FromNode(n) => (n.id, Host(n))
    case FromSend(k) => k
    case FromRecv(k) => k
  }

  /** Some reader of the cell has not run within the first k steps. */
  ghost predicate Pending(nodes: seq<Node>, keys: seq<Key>, tr: seq<Origin>, k: nat, c: Cell)
    requires k <= |tr|
  {
    exists o :: IsItem(nodes, keys, o) && Reads(nodes, o, c) && o !in tr[..k]
  }

  lemma {:induction false} PendingEarlier(nodes: seq<Node>, keys: seq<Key>, tr: seq<Origin>, k: nat, l: nat, c: Cell)
    requires k <= l <= |tr| && Pending(nodes, keys, tr, l, c)
    ensures Pending(nodes, keys, tr, k, c)
  {
    var o :| IsItem(nodes, keys, o) && Reads(nodes, o, c) && o !in tr[..l];
    assert o !in tr[..k];
  }

  ghost predicate FreesPlace(o: Origin, p: Place) {
    o.FromNode? && p.0 == Host(o.node) && p.1 in Freed(o.node)
  }

  /** No slot is freed while a reader of what was put there is still to come. */
  ghost predicate Timely(nodes: seq<Node>, keys: seq<Key>, cuts: Cuts, tr: seq<Origin>) {
    forall p, q :: 0 <= q < p < |tr| && Target(cuts, tr[q]).Some? && FreesPlace(tr[p], Target(cuts, tr[q]).value) ==>
                     !Pending(nodes, keys, tr, p, CellOf(tr[q]))
  }

  /** After k steps, an item that ran left the reference value where readers still to come expect it. */
  ghost predicate Done<V>(nodes: seq<Node>, keys: seq<Key>, cuts: Cuts, ref: map<Id, V>, tr: seq<Origin>, k: nat,
                          o: Origin, mem: Mem<V>)
    requires k <= |tr|
  {
    match o
    case FromSend(key) => ReadAt(nodes, key) ==> key.0 in ref && Peek(mem.wire, key) == Some(ref[key.0])
    case FromRecv(key) =>
      Pending(nodes, keys, tr, k, key) ==>
        key in cuts && key.0 in ref && Peek(mem.store, (cuts[key].dest, cuts[key].recvSlot)) == Some(ref[key.0])
    case FromNode(n) =>
      && n.id in ref && n.id in mem.seen && mem.seen[n.id] == PeekAll(ref, ReadsOf(n))
      && (Pending(nodes, keys, tr, k, (n.id, Host(n))) && SlotOf(n).Some? ==>
            Peek(mem.store, (Host(n), SlotOf(n).value)) == Some(ref[n.id]))
  }

  /** The place an item writes. */
  ghost function Target(cuts: Cuts, o: Origin): Option<Place> {
    match o
    case FromSend(_) => None
    case FromRecv(k) => if k in cuts then Some((cuts[k].dest, cuts[k].recvSlot)) else None
    case FromNode(n) => if SlotOf(n).Some? then Some((Host(n), SlotOf(n).value)) else None
  }

  lemma {:induction false} NodesApart(nodes: seq<Node>, total: nat, cuts: Cuts, a: Node, b: Node)
    requires Placed(nodes, total) && DistinctIds(nodes) && SlotsSafe(nodes, cuts)
    requires a in nodes && b in nodes && a != b && Needed(nodes, a.id)
    ensures SlotOf(a).Some? && SlotOf(a) == SlotOf(b) ==> Host(a) != Host(b)
  {
    if a.id == b.id { SameId(nodes, a, b); }
    assert a.host.Some? && b.host.Some?;
    assert !SharesSlot(a, b);
  }

  lemma {:induction false} RecvsApart(nodes: seq<Node>, keys: seq<Key>, cuts: Cuts, first: nat, k: Key, l: Key)
    requires CutsFor(nodes, keys, cuts, first) && k in keys && l in keys && k != l
    ensures k in cuts && l in cuts && cuts[k].recvSlot != cuts[l].recvSlot
  {
    var i := CutIndex(nodes, keys, cuts, first, k);
    var j := CutIndex(nodes, keys, cuts, first, l);
  }

  lemma {:induction false} RecvApart(
    nodes: seq<Node>, total: nat, keys: seq<Key>, cuts: Cuts, first: nat, k: Key, b: Origin)
    requires CutsFor(nodes, keys, cuts, first) && Placed(nodes, total) && SlotsSafe(nodes, cuts)
    requires k in keys && IsItem(nodes, keys, b) && b != FromRecv(k)
    ensures Target(cuts, FromRecv(k)).Some? && Target(cuts, FromRecv(k)) != Target(cuts, b)
  {
    var i := CutIndex(nodes, keys, cuts, first, k);
    match b
    case FromSend(_) =>
    case FromRecv(l) => RecvsApart(nodes, keys, cuts, first, k, l);
    case FromNode(n) => assert n.host.Some? && !Clashes(cuts, n);
  }

  /** No other item overwrites the place of a recv or of a needed node. */
  lemma {:induction false} PlacesApart(
    nodes: seq<Node>, total: nat, keys: seq<Key>, cuts: Cuts, first: nat, a: Origin, b: Origin)
    requires Sound(nodes, total, keys, cuts, first) && IsItem(nodes, keys, a) && IsItem(nodes, keys, b) && a != b
    requires a.FromRecv? || (a.FromNode? && Needed(nodes, a.node.id))
    ensures Target(cuts, a).Some? ==> Target(cuts, a) != Target(cuts, b)
  {
    if a.FromRecv? {
      RecvApart(nodes, total, keys, cuts, first, a.key, b);
    } else if b.FromRecv? {
      RecvApart(nodes, total, keys, cuts, first, b.key, a);
    } else if b.FromNode? {
      NodesApart(nodes, total, cuts, a.node, b.node);
    }
  }

  ghost function CutIndex(nodes: seq<Node>, keys: seq<Key>, cuts: Cuts, first: nat, k: Key): (i: nat)
    requires CutsFor(nodes, keys, cuts, first) && k in keys
    ensures i < |keys| && keys[i] == k && k in cuts && cuts[k].recvSlot == first + i
  {
    var i :| 0 <= i < |keys| && keys[i] == k;
    i
  }

  /** One item changes only its own wire entry and log entry, fills its own place and empties those it frees. */
  lemma {:induction false} ExecFrame<V>(f: Fn<V>, nodes: seq<Node>, cuts: Cuts, b: Origin, mem: Mem<V>)
    ensures var after := Exec(f, nodes, cuts, b, mem);
            && (forall k :: b != FromSend(k) ==> Peek(after.wire, k) == Peek(mem.wire, k))
            && (forall x :: !(b.FromNode? && b.node.id == x) ==> Peek(after.seen, x) == Peek(mem.seen, x))
            && (forall p :: Target(cuts, b) != Some(p) ==>
                              Peek(after.store, p) == if FreesPlace(b, p) then None else Peek(mem.store, p))
  {
  }

  /** Running one item leaves the others' results in place. */
  lemma {:induction false} DoneFrame<V>(
    f: Fn<V>, nodes: seq<Node>, keys: seq<Key>, cuts: Cuts, ref: map<Id, V>, tr: seq<Origin>, k: nat, a: Origin,
    b: Origin, mem: Mem<V>)
    requires k < |tr| && a != b && Done(nodes, keys, cuts, ref, tr, k, a, mem)
    requires !a.FromSend? && Pending(nodes, keys, tr, k + 1, CellOf(a)) && Target(cuts, a).Some? ==>
               Target(cuts, a) != Target(cuts, b) && !FreesPlace(b, Target(cuts, a).value)
    requires a.FromNode? && b.FromNode? ==> a.node.id != b.node.id
    ensures Done(nodes, keys, cuts, ref, tr, k + 1, a, Exec(f, nodes, cuts, b, mem))
  {
    ExecFrame(f, nodes, cuts, b, mem);
    var after := Exec(f, nodes, cuts, b, mem);
    if Pending(nodes, keys, tr, k + 1, CellOf(a)) { PendingEarlier(nodes, keys, tr, k, k + 1, CellOf(a)); }
    match a {
      case FromSend(key) => assert Peek(after.wire, key) == Peek(mem.wire, key);
      case FromRecv(key) =>
      case FromNode(n) => assert Peek(after.seen, n.id) == Peek(mem.seen, n.id);
    }
  }

  lemma {:induction false} PendingIsNeeded(nodes: seq<Node>, keys: seq<Key>, tr: seq<Origin>, k: nat, c: Cell)
    requires k <= |tr| && Pending(nodes, keys, tr, k, c)
    ensures Needed(nodes, c.0)
  {
    var o :| IsItem(nodes, keys, o) && Reads(nodes, o, c) && o !in tr[..k];
  }

  lemma {:induction false} OthersStay<V>(
    f: Fn<V>, nodes: seq<Node>, total: nat, keys: seq<Key>, cuts: Cuts, first: nat, ref: map<Id, V>, tr: seq<Origin>,
    q: nat, p: nat, mem: Mem<V>)
    requires Sound(nodes, total, keys, cuts, first) && IsRun(nodes, keys, cuts, tr) && Timely(nodes, keys, cuts, tr)
    requires q < p < |tr| && Done(nodes, keys, cuts, ref, tr, p, tr[q], mem)
    ensures Done(nodes, keys, cuts, ref, tr, p + 1, tr[q], Exec(f, nodes, cuts, tr[p], mem))
  {
    var a, b := tr[q], tr[p];
    assert IsItem(nodes, keys, a) && IsItem(nodes, keys, b) && a != b;
    if !a.FromSend? && Pending(nodes, keys, tr, p + 1, CellOf(a)) {
      PendingEarlier(nodes, keys, tr, p, p + 1, CellOf(a));
      PendingIsNeeded(nodes, keys, tr, p, CellOf(a));
      PlacesApart(nodes, total, keys, cuts, first, a, b);
    }
    if a.FromNode? && b.FromNode? && a.node.id == b.node.id {
      SameId(nodes, a.node, b.node);
    }
    DoneFrame(f, nodes, keys, cuts, ref, tr, p, a, b, mem);
  }

  lemma {:induction false} LocalIsNotCut(nodes: seq<Node>, keys: seq<Key>, cuts: Cuts, first: nat, e: Id, m: nat)
    requires CutsFor(nodes, keys, cuts, first)
    ensures HostOf(nodes, e) == m ==> (e, m) !in cuts
  {
    if (e, m) in cuts { assert IsCut(nodes, e, m); }
  }

  /** What a delivered dep left at its arrival slot. */
  lemma {:induction false} ArrivedValue<V>(
    nodes: seq<Node>, total: nat, keys: seq<Key>, cuts: Cuts, first: nat, ref: map<Id, V>, tr: seq<Origin>, p: nat,
    mem: Mem<V>, n: Node, e: Id, slot: nat)
    requires Sound(nodes, total, keys, cuts, first) && n in nodes && e in ReadsOf(n) && e in Ids(nodes)
    requires ArrivalSlot(nodes, cuts, e, Host(n)) == Some(slot) && p <= |tr| && FromNode(n) !in tr[..p]
    requires Done(nodes, keys, cuts, ref, tr, p, Deliverer(nodes, e, Host(n)), mem)
    ensures e in ref && Peek(mem.store, (Host(n), slot)) == Some(ref[e])
  {
    var m := Host(n);
    assert IsItem(nodes, keys, FromNode(n)) && Reads(nodes, FromNode(n), (e, m));
    assert Pending(nodes, keys, tr, p, (e, m));
    if HostOf(nodes, e) == m {
      LocalIsNotCut(nodes, keys, cuts, first, e, m);
    } else {
      assert n.host.Some? && IsCut(nodes, e, m);
      CutsMatchDests(nodes, keys, cuts, first);
    }
  }

  /** All items before k are done. */
  ghost predicate AllDone<V>(nodes: seq<Node>, keys: seq<Key>, cuts: Cuts, ref: map<Id, V>, tr: seq<Origin>, k: nat,
                             mem: Mem<V>)
    requires k <= |tr|
  {
    forall q :: 0 <= q < k ==> Done(nodes, keys, cuts, ref, tr, k, tr[q], mem)
  }

  lemma {:induction false} NotYet(tr: seq<Origin>, p: nat)
    requires p < |tr| && forall i, j :: 0 <= i < j < |tr| ==> tr[i] != tr[j]
    ensures tr[p] !in tr[..p]
  {
  }

  lemma {:induction false} NodeStep<V>(f: Fn<V>, nodes: seq<Node>, total: nat, keys: seq<Key>, cuts: Cuts, first: nat,
                                       ref: map<Id, V>, tr: seq<Origin>, p: nat, mem: Mem<V>)
    requires Sound(nodes, total, keys, cuts, first) && IsRun(nodes, keys, cuts, tr) && IsMeaning(f, nodes, ref)
    requires p < |tr| && tr[p].FromNode? && AllDone(nodes, keys, cuts, ref, tr, p, mem)
    ensures Done(nodes, keys, cuts, ref, tr, p + 1, tr[p], Exec(f, nodes, cuts, tr[p], mem))
  {
    var n := tr[p].node;
    assert IsItem(nodes, keys, tr[p]);
    NotYet(tr, p);
    InputSlotsArrive(nodes, total, keys, cuts, first, n);
    var ids, slots := ReadsOf(n), InputSlots(nodes, cuts, n);
    var inputs := PeekAll(mem.store, PlacesOn(Host(n), slots));
    forall i | 0 <= i < |ids| ensures inputs[i] == Peek(ref, ids[i]) {
      var e := ids[i];
      assert e in ReadsOf(n);
      ReadIsDep(nodes, n, e);
      DepDelivered(nodes, total, keys, cuts, first, tr, p, e);
      ArrivedValue(nodes, total, keys, cuts, first, ref, tr, p, mem, n, e, slots[i]);
    }
    assert inputs == PeekAll(ref, ids);
  }

  /** What a send that somebody waits for finds in its slot. */
  lemma {:induction false} SendFinds<V>(
    nodes: seq<Node>, total: nat, keys: seq<Key>, cuts: Cuts, first: nat, ref: map<Id, V>, tr: seq<Origin>, p: nat,
    n: Node, k: Key, mem: Mem<V>)
    requires Sound(nodes, total, keys, cuts, first) && k in keys && n in nodes && n.id == k.0 && p <= |tr|
    requires Done(nodes, keys, cuts, ref, tr, p, FromNode(n), mem) && FromSend(k) !in tr[..p] && ReadAt(nodes, k)
    ensures k in cuts && k.0 in ref && Peek(mem.store, (cuts[k].srcMachine, cuts[k].srcSlot)) == Some(ref[k.0])
  {
    var _ := CutAt(nodes, keys, cuts, first, k);
    LookupUnique(nodes, n);
    assert Sendable(nodes, k.0);
    assert IsItem(nodes, keys, FromSend(k)) && Reads(nodes, FromSend(k), (n.id, Host(n)));
    assert Pending(nodes, keys, tr, p, (n.id, Host(n)));
  }

  lemma {:induction false} SendStep<V>(f: Fn<V>, nodes: seq<Node>, total: nat, keys: seq<Key>, cuts: Cuts, first: nat,
                                       ref: map<Id, V>, tr: seq<Origin>, p: nat, mem: Mem<V>)
    requires Sound(nodes, total, keys, cuts, first) && IsRun(nodes, keys, cuts, tr)
    requires p < |tr| && tr[p].FromSend? && AllDone(nodes, keys, cuts, ref, tr, p, mem)
    ensures Done(nodes, keys, cuts, ref, tr, p + 1, tr[p], Exec(f, nodes, cuts, tr[p], mem))
  {
    var k := tr[p].key;
    assert IsItem(nodes, keys, tr[p]);
    NotYet(tr, p);
    SourceRan(nodes, total, keys, cuts, first, tr, p);
    var n := Lookup(nodes, k.0).value;
    var q :| 0 <= q < p && tr[q] == FromNode(n);
    assert Done(nodes, keys, cuts, ref, tr, p, tr[q], mem);
    if ReadAt(nodes, k) { SendFinds(nodes, total, keys, cuts, first, ref, tr, p, n, k, mem); }
  }

  lemma {:induction false} RecvStep<V>(f: Fn<V>, nodes: seq<Node>, total: nat, keys: seq<Key>, cuts: Cuts, first: nat,
                                       ref: map<Id, V>, tr: seq<Origin>, p: nat, mem: Mem<V>)
    requires Sound(nodes, total, keys, cuts, first) && IsRun(nodes, keys, cuts, tr)
    requires p < |tr| && tr[p].FromRecv? && AllDone(nodes, keys, cuts, ref, tr, p, mem)
    ensures Done(nodes, keys, cuts, ref, tr, p + 1, tr[p], Exec(f, nodes, cuts, tr[p], mem))
  {
    var k := tr[p].key;
    SendRan(nodes, total, keys, cuts, first, tr, p);
    var q :| 0 <= q < p && tr[q] == FromSend(k);
    assert Done(nodes, keys, cuts, ref, tr, p, tr[q], mem);
    assert IsItem(nodes, keys, tr[p]) && k in cuts;
    if Pending(nodes, keys, tr, p + 1, k) {
      var o :| IsItem(nodes, keys, o) && Reads(nodes, o, k) && o !in tr[..p + 1];
      LocalIsNotCut(nodes, keys, cuts, first, k.0, k.1);
      assert ReadAt(nodes, k);
    }
  }

  lemma {:induction false} ItemStep<V>(f: Fn<V>, nodes: seq<Node>, total: nat, keys: seq<Key>, cuts: Cuts, first: nat,
                                       ref: map<Id, V>, tr: seq<Origin>, p: nat, mem: Mem<V>)
    requires Sound(nodes, total, keys, cuts, first) && IsRun(nodes, keys, cuts, tr) && IsMeaning(f, nodes, ref)
    requires p < |tr| && AllDone(nodes, keys, cuts, ref, tr, p, mem)
    ensures Done(nodes, keys, cuts, ref, tr, p + 1, tr[p], Exec(f, nodes, cuts, tr[p], mem))
  {
    match tr[p]
    case FromNode(_) => NodeStep(f, nodes, total, keys, cuts, first, ref, tr, p, mem);
    case FromSend(_) => SendStep(f, nodes, total, keys, cuts, first, ref, tr, p, mem);
    case FromRecv(_) => RecvStep(f, nodes, total, keys, cuts, first, ref, tr, p, mem);
  }

  lemma {:induction false} RunStep<V>(f: Fn<V>, nodes: seq<Node>, total: nat, keys: seq<Key>, cuts: Cuts, first: nat,
                                      ref: map<Id, V>, tr: seq<Origin>, p: nat, mem: Mem<V>)
    requires Sound(nodes, total, keys, cuts, first) && IsRun(nodes, keys, cuts, tr) && Timely(nodes, keys, cuts, tr)
    requires IsMeaning(f, nodes, ref) && p < |tr| && AllDone(nodes, keys, cuts, ref, tr, p, mem)
    ensures AllDone(nodes, keys, cuts, ref, tr, p + 1, Exec(f, nodes, cuts, tr[p], mem))
  {
    ItemStep(f, nodes, total, keys, cuts, first, ref, tr, p, mem);
    var after := Exec(f, nodes, cuts, tr[p], mem);
    forall q | 0 <= q < p ensures Done(nodes, keys, cuts, ref, tr, p + 1, tr[q], after) {
      OthersStay(f, nodes, total, keys, cuts, first, ref, tr, q, p, mem);
    }
  }

  ghost predicate StepKeeps<V(!new)>(f: Fn<V>, nodes: seq<Node>, keys: seq<Key>, cuts: Cuts, ref: map<Id, V>,
                                     tr: seq<Origin>, p: nat)
    requires p < |tr|
  {
    forall mem: Mem<V> :: AllDone(nodes, keys, cuts, ref, tr, p, mem) ==>
                            AllDone(nodes, keys, cuts, ref, tr, p + 1, Exec(f, nodes, cuts, tr[p], mem))
  }

  lemma {:induction false} StepsKeep<V(!new)>(
    f: Fn<V>, nodes: seq<Node>, keys: seq<Key>, cuts: Cuts, ref: map<Id, V>, init: Mem<V>, tr: seq<Origin>, p: nat)
    requires p <= |tr| && forall q :: 0 <= q < |tr| ==> StepKeeps(f, nodes, keys, cuts, ref, tr, q)
    ensures AllDone(nodes, keys, cuts, ref, tr, p, Run(f, nodes, cuts, init, tr, p))
    decreases p
  {
    if p > 0 {
      StepsKeep(f, nodes, keys, cuts, ref, init, tr, p - 1);
      assert StepKeeps(f, nodes, keys, cuts, ref, tr, p - 1);
    }
  }

  lemma {:induction false} RunKeepsValues<V(!new)>(
    f: Fn<V>, nodes: seq<Node>, total: nat, keys: seq<Key>, cuts: Cuts, first: nat, ref: map<Id, V>, init: Mem<V>,
    tr: seq<Origin>)
    requires Sound(nodes, total, keys, cuts, first) && IsRun(nodes, keys, cuts, tr) && Timely(nodes, keys, cuts, tr)
    requires IsMeaning(f, nodes, ref)
    ensures AllDone(nodes, keys, cuts, ref, tr, |tr|, Run(f, nodes, cuts, init, tr, |tr|))
  {
    forall q | 0 <= q < |tr| ensures StepKeeps(f, nodes, keys, cuts, ref, tr, q) {
      forall mem: Mem<V> | AllDone(nodes, keys, cuts, ref, tr, q, mem)
        ensures AllDone(nodes, keys, cuts, ref, tr, q + 1, Exec(f, nodes, cuts, tr[q], mem))
      {
        RunStep(f, nodes, total, keys, cuts, first, ref, tr, q, mem);
      }
    }
    StepsKeep(f, nodes, keys, cuts, ref, init, tr, |tr|);
  }

  /** Every node that has run read exactly what it reads in the reference run. */
  ghost predicate ReadsRight<V>(tr: seq<Origin>, mem: Mem<V>, single: map<Id, V>) {
    forall n :: FromNode(n) in tr ==> n.id in mem.seen && mem.seen[n.id] == PeekAll(single, ReadsOf(n))
  }

  /** In every run of the cluster that frees no slot too early, from any initial memory, every node that has run
      read exactly the inputs it reads when all nodes run on one machine in dependency order. */
  lemma {:induction false} DataflowPreserved<V(!new)>(
    f: Fn<V>, nodes: seq<Node>, total: nat, keys: seq<Key>, cuts: Cuts, first: nat, order: seq<nat>, init: Mem<V>,
    tr: seq<Origin>)
    requires Sound(nodes, total, keys, cuts, first) && IsRun(nodes, keys, cuts, tr) && Timely(nodes, keys, cuts, tr)
    requires IsPermutation(order, |nodes|) && DepsFirst(nodes, order)
    ensures ReadsRight(tr, Run(f, nodes, cuts, init, tr, |tr|), OneMachine(f, nodes, order, |order|))
  {
    var single, mem := OneMachine(f, nodes, order, |order|), Run(f, nodes, cuts, init, tr, |tr|);
    OneMachineMeaning(f, nodes, order);
    RunKeepsValues(f, nodes, total, keys, cuts, first, single, init, tr);
    forall n | FromNode(n) in tr
      ensures n.id in mem.seen && mem.seen[n.id] == PeekAll(single, ReadsOf(n))
    {
      var q :| 0 <= q < |tr| && tr[q] == FromNode(n);
      assert Done(nodes, keys, cuts, single, tr, |tr|, tr[q], mem);
    }
  }
}
