/**
  Validation, fresh-slot scan, cross-machine edges and the per-machine node lists
  (Partitioner/partitioner/src/splitter.rs and slot.rs).
 */
module Cut {
  import opened Prelude
  import opened Sequences
  import opened SymbolicDag
  import opened Slots

  // ---------------------------------------------------------------------------
  // Slots seen by the splitter
  // ---------------------------------------------------------------------------

  function DetectedSlot(k: Kind): Option<nat> {
    match k
    case Aggregate(_, _, down) => down
    case Bridge(_, _, to) => to
    case Input(_, slot, _, _, _) => Some(OrElse(slot, 0))
    case _ => None
  }

  function SlotOf(n: Node): Option<nat> {
    if n.outputSlot.Some? then n.outputSlot else DetectedSlot(n.kind)
  }

  function One(x: Option<nat>): set<nat> { if x.Some? then {x.value} else {} }

  function OfLink(l: Option<Link>): set<nat> { if l.Some? then {l.value.peer, l.value.slot} else {} }

  function OfStages(stages: seq<Stage>): set<nat> {
    (set s | s in stages :: s.arg0) + (set s | s in stages && s.arg1.Some? :: s.arg1.value)
  }

  function OfSeq(xs: Option<seq<nat>>): set<nat> { if xs.Some? then Elems(xs.value) else {} }

  /** Every integer in a kind's JSON, `wasm_arg` excepted. */
  function Numbers(k: Kind): set<nat> {
    match k
    case Input(_, slot, _, _, _) => One(slot)
    case Func(_, arg, arg2, _, outBase, offset) => One(arg) + One(arg2) + One(outBase) + One(offset)
    case WasmVoid(_, arg) => One(arg)
    case Aggregate(_, up, down) => OfSeq(up) + One(down)
    case Bridge(_, up, to) => OfSeq(up) + One(to)
    case Output(slot, _) => One(slot)
    case StreamPipeline(rounds, stages, cuts, segments, recv, send) =>
      One(rounds) + OfStages(stages) + OfSeq(cuts) + One(segments) + OfLink(recv) + OfLink(send)
    case StreamOutput(rounds, slot, recv, _) => {rounds, slot} + OfLink(Some(recv))
    case FreeSlots(stream) => Elems(stream)
    case RemoteRecv(slot, _, peer) => {slot, peer}
    case RemoteSend(slot, _, peer) => {slot, peer}
    case Other(numbers, _, up) => numbers + OfSeq(up)
  }

  const U32_MAX: nat := 0xFFFF_FFFF

  function Scanned(k: Kind): set<nat> {
    set x | x in Numbers(k) && x <= U32_MAX
  }

  method MaxOf(s: set<nat>, floor: nat) returns (m: nat)
    ensures m >= floor && (forall x :: x in s ==> x <= m) && (m == floor || m in s)
  {
    m := floor;
    var rest := s;
    while rest != {}
      invariant rest <= s && m >= floor && (m == floor || m in s)
      invariant forall x :: x in s && x !in rest ==> x <= m
      decreases |rest|
    {
      var x :| x in rest;
      rest := rest - {x};
      if x > m { m := x; }
    }
  }

  /** One past the greatest integer scanned from any kind. */
  ghost predicate IsFirstFresh(nodes: seq<Node>, first: nat) {
    && first >= 1 && (forall n, x :: n in nodes && x in Scanned(n.kind) ==> x < first)
    && (first == 1 || exists n :: n in nodes && first - 1 in Scanned(n.kind))
  }

  lemma {:induction false} FirstFreshUnique(nodes: seq<Node>, a: nat, b: nat)
    requires IsFirstFresh(nodes, a) && IsFirstFresh(nodes, b)
    ensures a == b
  {
  }

  method NextFreeSlot(nodes: seq<Node>) returns (next: nat)
    ensures IsFirstFresh(nodes, next)
  {
    var m := 0;
    for i := 0 to |nodes|
      invariant forall k, x :: 0 <= k < i && x in Scanned(nodes[k].kind) ==> x <= m
      invariant m == 0 || exists n :: n in nodes && m in Scanned(n.kind)
    {
      var m2 := MaxOf(Scanned(nodes[i].kind), m);
      assert m2 == m || (nodes[i] in nodes && m2 in Scanned(nodes[i].kind));
      m := m2;
    }
    next := m + 1;
  }

  // ---------------------------------------------------------------------------
  // Validation
  // ---------------------------------------------------------------------------

  /** Every node has a host below `total` and only known deps. */
  ghost predicate Placed(nodes: seq<Node>, total: nat) {
    forall n :: n in nodes ==>
                  n.host.Some? && n.host.value < total && forall d :: d in n.deps ==> d in Ids(nodes)
  }

  method Validate(nodes: seq<Node>, total: nat) returns (ok: bool)
    ensures ok <==> Placed(nodes, total)
  {
    var ids := Ids(nodes);
    for i := 0 to |nodes|
      invariant forall k :: 0 <= k < i ==>
                              nodes[k].host.Some? && nodes[k].host.value < total
                              && forall d :: d in nodes[k].deps ==> d in ids
    {
      var n := nodes[i];
      if n.host.None? || n.host.value >= total {
        return false;
      }
      for j := 0 to |n.deps|
        invariant forall k :: 0 <= k < j ==> n.deps[k] in ids
      {
        if n.deps[j] !in ids {
          assert n.deps[j] in n.deps;
          return false;
        }
      }
    }
    ok := true;
  }

  // ---------------------------------------------------------------------------
  // Cross-machine edges
  // ---------------------------------------------------------------------------

  /** One transfer: the source's slot on its machine, and a fresh slot on the destination. */
  datatype CrossEdge = CrossEdge(srcMachine: nat, srcSlot: nat, dest: nat, recvSlot: nat)

  type Key = (Id, nat)
  type Cuts = map<Key, CrossEdge>

  function HostOf(nodes: seq<Node>, id: Id): nat {
    var n := Lookup(nodes, id);
    if n.Some? && n.value.host.Some? then n.value.host.value else 0
  }

  /** Some node on machine m depends on `id`, which lives elsewhere. */
  ghost predicate IsCut(nodes: seq<Node>, id: Id, m: nat) {
    exists n :: n in nodes && id in n.deps && n.host == Some(m) && HostOf(nodes, id) != m
  }

  predicate Sendable(nodes: seq<Node>, id: Id) {
    var n := Lookup(nodes, id);
    n.Some? && !n.value.kind.Input? && SlotOf(n.value).Some?
  }

  function EdgeFor(nodes: seq<Node>, id: Id, m: nat, recv: nat): CrossEdge {
    var n := Lookup(nodes, id);
    CrossEdge(HostOf(nodes, id), if n.Some? then OrElse(SlotOf(n.value), 0) else 0, m, recv)
  }

  /** The keys in discovery order get consecutive fresh slots. */
  ghost predicate Numbered(nodes: seq<Node>, keys: seq<Key>, cuts: Cuts, first: nat) {
    && (forall i, j :: 0 <= i < j < |keys| ==> keys[i] != keys[j])
    && (forall k :: k in cuts <==> k in keys)
    && forall i :: 0 <= i < |keys| ==> cuts[keys[i]] == EdgeFor(nodes, keys[i].0, keys[i].1, first + i)
  }

  /** Exactly the cut pairs are recorded, all of them sendable. */
  ghost predicate CutsFor(nodes: seq<Node>, keys: seq<Key>, cuts: Cuts, first: nat) {
    && Numbered(nodes, keys, cuts, first)
    && (forall k :: k in cuts ==> IsCut(nodes, k.0, k.1) && Sendable(nodes, k.0))
    && forall id, m: nat :: IsCut(nodes, id, m) ==> (id, m) in cuts
  }

  lemma {:induction false} NumberedStep(nodes: seq<Node>, keys: seq<Key>, cuts: Cuts, first: nat, key: Key)
    requires Numbered(nodes, keys, cuts, first) && key !in cuts
    ensures Numbered(nodes, keys + [key], cuts[key := EdgeFor(nodes, key.0, key.1, first + |keys|)], first)
  {
  }

  /** The keys once the first j deps of n have been looked at. */
  function NodeCuts(nodes: seq<Node>, n: Node, j: nat, keys: seq<Key>): seq<Key>
    requires j <= |n.deps|
  {
    if j == 0 then keys
    else
      var was, key := NodeCuts(nodes, n, j - 1, keys), (n.deps[j - 1], OrElse(n.host, 0));
      if HostOf(nodes, key.0) != key.1 && key !in was then was + [key] else was
  }

  function CutsUpTo(nodes: seq<Node>, i: nat): seq<Key>
    requires i <= |nodes|
  {
    if i == 0 then [] else NodeCuts(nodes, nodes[i - 1], |nodes[i - 1].deps|, CutsUpTo(nodes, i - 1))
  }

  /** The crossing dep/machine pairs in the order in which they are discovered: nodes, then their deps. */
  function CutOrder(nodes: seq<Node>): seq<Key> {
    CutsUpTo(nodes, |nodes|)
  }

  lemma {:induction false} NodeCutsIff(nodes: seq<Node>, n: Node, j: nat, keys: seq<Key>, k: Key)
    requires j <= |n.deps|
    ensures k in NodeCuts(nodes, n, j, keys) <==>
            k in keys || (k.1 == OrElse(n.host, 0) && HostOf(nodes, k.0) != k.1 && k.0 in n.deps[..j])
  {
    if j > 0 {
      NodeCutsIff(nodes, n, j - 1, keys, k);
      assert n.deps[..j] == n.deps[..j - 1] + [n.deps[j - 1]];
    }
  }

  /** Node p, which sits on the key's machine, depends on the key's node, which does not. */
  ghost predicate Crosses(nodes: seq<Node>, p: nat, k: Key) {
    p < |nodes| && k.0 in nodes[p].deps && k.1 == OrElse(nodes[p].host, 0) && HostOf(nodes, k.0) != k.1
  }

  lemma {:induction false} CutsUpToIff(nodes: seq<Node>, i: nat, k: Key)
    requires i <= |nodes|
    ensures k in CutsUpTo(nodes, i) <==> exists p: nat :: p < i && Crosses(nodes, p, k)
  {
    if i > 0 {
      var n := nodes[i - 1];
      CutsUpToIff(nodes, i - 1, k);
      NodeCutsIff(nodes, n, |n.deps|, CutsUpTo(nodes, i - 1), k);
      assert n.deps[..|n.deps|] == n.deps;
      assert k in CutsUpTo(nodes, i) ==> k in CutsUpTo(nodes, i - 1) || Crosses(nodes, i - 1, k);
    }
  }

  /** The discovery order lists exactly the crossing pairs. */
  lemma {:induction false} CutOrderIff(nodes: seq<Node>, k: Key)
    requires forall n :: n in nodes ==> n.host.Some?
    ensures k in CutOrder(nodes) <==> IsCut(nodes, k.0, k.1)
  {
    CutsUpToIff(nodes, |nodes|, k);
    if p: nat :| p < |nodes| && Crosses(nodes, p, k) {
      assert nodes[p] in nodes;
    }
    if IsCut(nodes, k.0, k.1) {
      var n :| n in nodes && k.0 in n.deps && n.host == Some(k.1) && HostOf(nodes, k.0) != k.1;
      var p :| 0 <= p < |nodes| && nodes[p] == n;
      assert Crosses(nodes, p, k);
    }
  }

  ghost predicate AllSendable(nodes: seq<Node>, keys: seq<Key>) {
    forall k :: k in keys ==> Sendable(nodes, k.0)
  }

  /** The cross edges of one node. */
  method CutNode(nodes: seq<Node>, n: Node, first: nat, keys0: seq<Key>, cuts0: Cuts)
    returns (ok: bool, keys: seq<Key>, cuts: Cuts)
    requires n in nodes && n.host.Some? && Numbered(nodes, keys0, cuts0, first) && AllSendable(nodes, keys0)
    ensures ok ==> Numbered(nodes, keys, cuts, first) && AllSendable(nodes, keys)
    ensures ok ==> keys == NodeCuts(nodes, n, |n.deps|, keys0)
    ensures !ok ==> exists id, m: nat :: IsCut(nodes, id, m) && !Sendable(nodes, id)
  {
    keys, cuts := keys0, cuts0;
    for j := 0 to |n.deps|
      invariant Numbered(nodes, keys, cuts, first) && AllSendable(nodes, keys)
      invariant keys == NodeCuts(nodes, n, j, keys0)
    {
      var key := (n.deps[j], n.host.value);
      if HostOf(nodes, key.0) != key.1 && key !in cuts {
        if !Sendable(nodes, key.0) {
          assert IsCut(nodes, key.0, key.1);
          return false, keys, cuts;
        }
        NumberedStep(nodes, keys, cuts, first, key);
        cuts := cuts[key := EdgeFor(nodes, key.0, key.1, first + |keys|)];
        keys := keys + [key];
      }
    }
    ok := true;
  }

  lemma {:induction false} CutsComplete(nodes: seq<Node>, total: nat, keys: seq<Key>, cuts: Cuts, first: nat)
    requires Placed(nodes, total) && Numbered(nodes, keys, cuts, first) && AllSendable(nodes, keys)
    requires keys == CutOrder(nodes)
    ensures CutsFor(nodes, keys, cuts, first)
  {
    forall k | k in cuts ensures IsCut(nodes, k.0, k.1) && Sendable(nodes, k.0) { CutOrderIff(nodes, k); }
    forall id, m: nat | IsCut(nodes, id, m) ensures (id, m) in cuts { CutOrderIff(nodes, (id, m)); }
  }

  /** Discovers every cross edge in order; fails exactly when an Input, or a node without a slot, would have to send. */
  method DiscoverCuts(nodes: seq<Node>, total: nat, first: nat) returns (ok: bool, keys: seq<Key>, cuts: Cuts)
    requires Placed(nodes, total)
    ensures ok ==> CutsFor(nodes, keys, cuts, first) && keys == CutOrder(nodes)
    ensures !ok ==> exists id, m: nat :: IsCut(nodes, id, m) && !Sendable(nodes, id)
  {
    keys, cuts := [], map[];
    for i := 0 to |nodes|
      invariant Numbered(nodes, keys, cuts, first) && AllSendable(nodes, keys) && keys == CutsUpTo(nodes, i)
    {
      assert nodes[i] in nodes;
      ok, keys, cuts := CutNode(nodes, nodes[i], first, keys, cuts);
      if !ok {
        return;
      }
    }
    ok := true;
    CutsComplete(nodes, total, keys, cuts, first);
  }

  // ---------------------------------------------------------------------------
  // Per-machine lists
  // ---------------------------------------------------------------------------

  /** Slot 1 is the output record store; every other cut slot is a stream. */
  predicate IsIoSlot(slot: nat) { slot == OUTPUT_IO_SLOT }

  function Emit(id: Id, deps: seq<Id>, m: nat, kind: Kind): Node {
    Node(id, deps, Some(m), None, None, false, None, None, kind)
  }

  function RecvNode(id: Id, e: CrossEdge): Node {
    Emit(RecvOf(id, e.srcMachine), [], e.dest, RemoteRecv(e.recvSlot, IsIoSlot(e.srcSlot), e.srcMachine))
  }

  function SendNode(id: Id, e: CrossEdge): Node {
    Emit(SendOf(id, e.dest), [id], e.srcMachine, RemoteSend(e.srcSlot, IsIoSlot(e.srcSlot), e.dest))
  }

  function LocalDep(nodes: seq<Node>, d: Id, m: nat): Id {
    if HostOf(nodes, d) != m then RecvOf(d, HostOf(nodes, d)) else d
  }

  /** Slot where machine m finds the value of a referenced node. */
  function ArrivalSlot(nodes: seq<Node>, cuts: Cuts, id: Id, m: nat): Option<nat> {
    if (id, m) in cuts then Some(cuts[(id, m)].recvSlot)
    else match Lookup(nodes, id)
         case Some(n) => SlotOf(n)
         case None => None
  }

  function ResolveRefs(nodes: seq<Node>, cuts: Cuts, refs: seq<Id>, m: nat): Option<seq<nat>> {
    if refs == [] then Some([])
    else
      var init := ResolveRefs(nodes, cuts, refs[..|refs| - 1], m);
      var last := ArrivalSlot(nodes, cuts, refs[|refs| - 1], m);
      if init.Some? && last.Some? then Some(init.value + [last.value]) else None
  }

  function ResolveUpstream(nodes: seq<Node>, cuts: Cuts, k: Kind, m: nat): Option<Kind> {
    match k
    case Aggregate(Some(refs), _, _) =>
      var slots := ResolveRefs(nodes, cuts, refs, m);
      if slots.Some? then Some(Aggregate(None, slots, k.downstream)) else None
    case Bridge(Some(refs), _, _) =>
      var slots := ResolveRefs(nodes, cuts, refs, m);
      if slots.Some? then Some(Bridge(None, slots, k.bridgeTo)) else None
    case Other(_, Some(refs), _) =>
      var slots := ResolveRefs(nodes, cuts, refs, m);
      if slots.Some? then Some(Other(k.numbers, None, slots)) else None
    case _ => Some(k)
  }

  /** An Output reads the recv slot of the first of its deps that was cut. */
  function ResolveOutput(cuts: Cuts, k: Kind, deps: seq<Id>, m: nat): Kind {
    if !k.Output? || deps == [] then k
    else if (deps[0], m) in cuts then k.(outSlot := Some(cuts[(deps[0], m)].recvSlot))
    else ResolveOutput(cuts, k, deps[1..], m)
  }

  /** A Func becomes a guest call; a fan-out packs its consumer count above its 16-bit base. */
  function TranslateFunc(k: Kind, consumers: nat): Kind {
    if !k.Func? then k
    else
      var arg := if k.wasmArg.Some? then k.wasmArg else k.arg;
      if k.outBase.Some? && consumers > 0 && arg.Some?
      then WasmVoid(k.func, Some(arg.value % 0x10000 + consumers * 0x10000))
      else WasmVoid(k.func, arg)
  }

  function EmitKind(nodes: seq<Node>, cuts: Cuts, n: Node, m: nat): Option<Kind> {
    var k := ResolveUpstream(nodes, cuts, n.kind, m);
    if k.None? then None
    else
      var fan := if n.kind.Func? && n.kind.outBase.Some? then |Consumers(nodes, n.id)| else 0;
      Some(TranslateFunc(ResolveOutput(cuts, k.value, n.deps, m), fan))
  }

  function Rewritten(nodes: seq<Node>, cuts: Cuts, n: Node, m: nat): Node {
    var kind := EmitKind(nodes, cuts, n, m);
    Emit(n.id, seq(|n.deps|, i requires 0 <= i < |n.deps| => LocalDep(nodes, n.deps[i], m)), m,
         if kind.Some? then kind.value else n.kind)
  }

  function AllRecvs(keys: seq<Key>, cuts: Cuts): seq<Node>
    requires forall i :: 0 <= i < |keys| ==> keys[i] in cuts
  {
    seq(|keys|, i requires 0 <= i < |keys| => RecvNode(keys[i].0, cuts[keys[i]]))
  }

  function AllSends(keys: seq<Key>, cuts: Cuts): seq<Node>
    requires forall i :: 0 <= i < |keys| ==> keys[i] in cuts
  {
    seq(|keys|, i requires 0 <= i < |keys| => SendNode(keys[i].0, cuts[keys[i]]))
  }

  function AllRewritten(nodes: seq<Node>, cuts: Cuts): seq<Node> {
    seq(|nodes|, i requires 0 <= i < |nodes| => Rewritten(nodes, cuts, nodes[i], OrElse(nodes[i].host, 0)))
  }

  /** Everything emitted: recvs, the rewritten nodes, sends. */
  function Emitted(nodes: seq<Node>, keys: seq<Key>, cuts: Cuts): seq<Node>
    requires forall i :: 0 <= i < |keys| ==> keys[i] in cuts
  {
    AllRecvs(keys, cuts) + AllRewritten(nodes, cuts) + AllSends(keys, cuts)
  }

  /** The items of one machine, in order. */
  function On(items: seq<Node>, m: nat): (r: seq<Node>)
    ensures forall x :: x in r <==> x in items && x.host == Some(m)
  {
    if items == [] then []
    else
      var init, last := items[..|items| - 1], items[|items| - 1];
      assert items == init + [last];
      On(init, m) + (if last.host == Some(m) then [last] else [])
  }

  /** Distributes the emitted items over the machines. */
  method Distribute(items: seq<Node>, total: nat) returns (lists: seq<seq<Node>>)
    ensures |lists| == total && forall m :: 0 <= m < total ==> lists[m] == On(items, m)
  {
    lists := seq(total, _ => []);
    for i := 0 to |items|
      invariant |lists| == total
      invariant forall m :: 0 <= m < total ==> lists[m] == On(items[..i], m)
    {
      assert items[..i + 1][..i] == items[..i];
      var h := items[i].host;
      if h.Some? && h.value < total {
        lists := lists[h.value := lists[h.value] + [items[i]]];
      }
    }
    assert items[..|items|] == items;
  }

  method EmitNodes(nodes: seq<Node>, cuts: Cuts) returns (ok: bool, items: seq<Node>)
    ensures ok <==> forall n :: n in nodes ==> EmitKind(nodes, cuts, n, OrElse(n.host, 0)).Some?
    ensures ok ==> items == AllRewritten(nodes, cuts)
  {
    items := [];
    for i := 0 to |nodes|
      invariant items == AllRewritten(nodes, cuts)[..i]
      invariant forall k :: 0 <= k < i ==> EmitKind(nodes, cuts, nodes[k], OrElse(nodes[k].host, 0)).Some?
    {
      var m := OrElse(nodes[i].host, 0);
      if EmitKind(nodes, cuts, nodes[i], m).None? {
        return false, items;
      }
      items := items + [Rewritten(nodes, cuts, nodes[i], m)];
    }
    ok := true;
  }

  /** Something without a slot, or an Input, would have to send; or a referenced node has no slot to read. */
  ghost predicate Uncuttable(nodes: seq<Node>, keys: seq<Key>, cuts: Cuts, first: nat) {
    || (exists id, m: nat :: IsCut(nodes, id, m) && !Sendable(nodes, id))
    || (keys == CutOrder(nodes) && IsFirstFresh(nodes, first) && CutsFor(nodes, keys, cuts, first)
        && exists n :: n in nodes && EmitKind(nodes, cuts, n, OrElse(n.host, 0)).None?)
  }

  /** Cuts the edges of a placed list into one list per machine. */
  method CutEdges(nodes: seq<Node>, total: nat)
    returns (r: Option<seq<seq<Node>>>, keys: seq<Key>, cuts: Cuts, first: nat)
    requires Placed(nodes, total)
    ensures IsFirstFresh(nodes, first)
    ensures r.Some? ==> keys == CutOrder(nodes)
    ensures r.None? ==> Uncuttable(nodes, keys, cuts, first)
    ensures r.Some? ==> CutsFor(nodes, keys, cuts, first)
    ensures r.Some? ==> forall n :: n in nodes ==> EmitKind(nodes, cuts, n, OrElse(n.host, 0)).Some?
    ensures r.Some? ==> |r.value| == total &&
                        forall m :: 0 <= m < total ==> r.value[m] == On(Emitted(nodes, keys, cuts), m)
  {
    first := NextFreeSlot(nodes);
    var ok;
    ok, keys, cuts := DiscoverCuts(nodes, total, first);
    if !ok {
      return None, keys, cuts, first;
    }
    var ok2, items := EmitNodes(nodes, cuts);
    if !ok2 {
      return None, keys, cuts, first;
    }
    assert forall i :: 0 <= i < |keys| ==> keys[i] in keys;
    var lists := Distribute(AllRecvs(keys, cuts) + items + AllSends(keys, cuts), total);
    r := Some(lists);
  }
}
