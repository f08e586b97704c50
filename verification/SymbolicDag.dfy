/** The partitioner's data model: symbolic nodes, their kinds and their dependency graph. */
module SymbolicDag {
  import opened Prelude
  import opened Sequences
  import opened Graphs

  /** Node names.  Each generated name has its own constructor, so generated names never collide. */
  datatype Id =
    | Named(name: string)
    | Replica(template: Id, machine: nat)
    | Worker(template: Id, index: nat)
    | Segment(pipeline: Id, index: nat)
    | FreeOf(source: Id, machine: nat)
    | RecvOf(source: Id, from: nat)
    | SendOf(source: Id, to: nat)

  datatype SplitHint = Avoid | Prefer

  datatype Stage = Stage(func: string, arg0: nat, arg1: Option<nat>, split: Option<SplitHint>, outWeight: Option<real>)

  datatype Link = Link(peer: nat, slot: nat, io: bool, freeAfter: bool)

  datatype Kind =
    | Input(path: string, slot: Option<nat>, special: bool, replicate: bool, slice: Option<(real, real)>)
    | Func(func: string, arg: Option<nat>, arg2: Option<nat>, wasmArg: Option<nat>,
           outBase: Option<nat>, outputOffset: Option<nat>)
    | WasmVoid(guestFunc: string, guestArg: Option<nat>)
    | Aggregate(upstreamNodes: Option<seq<Id>>, upstream: Option<seq<nat>>, downstream: Option<nat>)
    | Bridge(upstreamNodes: Option<seq<Id>>, upstream: Option<seq<nat>>, bridgeTo: Option<nat>)
    | Output(outSlot: Option<nat>, paths: seq<string>)
    | StreamPipeline(rounds: Option<nat>, stages: seq<Stage>, cutAfter: Option<seq<nat>>, segments: Option<nat>,
                     recv: Option<Link>, send: Option<Link>)
    | StreamOutput(sinkRounds: nat, sinkSlot: nat, sinkRecv: Link, sinkPaths: seq<string>)
    | FreeSlots(stream: seq<nat>)
    | RemoteRecv(recvSlot: nat, io: bool, peer: nat)
    | RemoteSend(sendSlot: nat, io: bool, peer: nat)
    | Other(numbers: set<nat>, upstreamNodes: Option<seq<Id>>, upstream: Option<seq<nat>>)

  datatype Node = Node(id: Id, deps: seq<Id>, host: Option<nat>, outputSlot: Option<nat>, fanout: Option<nat>,
                       all: bool, split: Option<SplitHint>, outWeight: Option<real>, kind: Kind)

  /** Placement hints: capacity weights, per-host limits and core counts. */
  datatype Hints = Hints(capacity: map<nat, real>, hostLimit: map<nat, nat>, cores: map<nat, nat>)

  ghost predicate NonNegativeHints(hints: Hints) {
    forall m :: m in hints.capacity ==> hints.capacity[m] >= 0.0
  }

  /** Capacity weight of a host; an unlisted host counts as zero. */
  function CapacityOf(hints: Hints, m: nat): real {
    if m in hints.capacity then hints.capacity[m] else 0.0
  }

  /** Dependency graph of a node list: each dep runs before the node. */
  function Edges(nodes: seq<Node>): Graph<Id> {
    set n, d | n in nodes && d in n.deps :: (d, n.id)
  }

  function Ids(nodes: seq<Node>): set<Id> {
    set n | n in nodes :: n.id
  }

  /** Only nodes on the list are named as deps. */
  ghost predicate Closed(list: seq<Node>) {
    forall x, d :: x in list && d in x.deps ==> d in Ids(list)
  }

  ghost predicate DistinctIds(nodes: seq<Node>) {
    DistinctBy(nodes, (n: Node) => n.id)
  }

  lemma {:induction false} SameId(nodes: seq<Node>, a: Node, b: Node)
    requires DistinctIds(nodes) && a in nodes && b in nodes && a.id == b.id
    ensures a == b
  {
    var key := (n: Node) => n.id;
    var i :| 0 <= i < |nodes| && nodes[i] == a;
    var j :| 0 <= j < |nodes| && nodes[j] == b;
    assert key(nodes[i]) == key(nodes[j]);
  }

  /** `HashMap` lookup over a collected node list: the last entry with the id wins. */
  function Lookup(nodes: seq<Node>, id: Id): (r: Option<Node>)
    ensures r.Some? ==> r.value in nodes && r.value.id == id
    ensures r.None? ==> id !in Ids(nodes)
  {
    if nodes == [] then None
    else
      var init, last := nodes[..|nodes| - 1], nodes[|nodes| - 1];
      assert nodes == init + [last];
      if last.id == id then Some(last) else Lookup(init, id)
  }

  lemma {:induction false} LookupUnique(nodes: seq<Node>, n: Node)
    requires DistinctIds(nodes) && n in nodes
    ensures Lookup(nodes, n.id) == Some(n)
  {
    assert n.id in Ids(nodes);
    SameId(nodes, n, Lookup(nodes, n.id).value);
  }

  /** Which pass mints a name: the user, replication, fan-out, pipeline split, reclaim, edge cutting. */
  function Generation(id: Id): nat {
    match id
    case Named(_) => 0
    case Replica(_, _) => 1
    case Worker(_, _) => 2
    case Segment(_, _) => 3
    case FreeOf(_, _) => 4
    case RecvOf(_, _) => 5
    case SendOf(_, _) => 5
  }

  /** Only names minted before pass k occur. */
  ghost predicate MintedBefore(nodes: seq<Node>, k: nat) {
    forall n :: n in nodes ==> Generation(n.id) < k && forall d :: d in n.deps ==> Generation(d) < k
  }

  /** Same names and deps, node for node: what placement, slicing and slot assignment keep. */
  ghost predicate SameShape(a: seq<Node>, b: seq<Node>) {
    |a| == |b| && forall i :: 0 <= i < |a| ==> a[i].id == b[i].id && a[i].deps == b[i].deps
  }

  lemma {:induction false} SameShapeGraph(a: seq<Node>, b: seq<Node>)
    requires SameShape(a, b)
    ensures Edges(a) == Edges(b) && Ids(a) == Ids(b)
    ensures DistinctIds(a) ==> DistinctIds(b)
    ensures forall k: nat :: MintedBefore(a, k) ==> MintedBefore(b, k)
  {
    SameShapeSubset(a, b);
    forall k: nat, n | MintedBefore(a, k) && n in b
      ensures Generation(n.id) < k && forall d :: d in n.deps ==> Generation(d) < k
    {
      var i :| 0 <= i < |b| && b[i] == n;
      assert a[i] in a;
    }
    SameShapeSubset(b, a);
    if DistinctIds(a) {
      var key := (n: Node) => n.id;
      forall i, j | 0 <= i < j < |b| ensures key(b[i]) != key(b[j]) {
        assert key(a[i]) != key(a[j]);
      }
    }
  }

  lemma {:induction false} SameShapeSubset(a: seq<Node>, b: seq<Node>)
    requires SameShape(a, b)
    ensures Edges(a) <= Edges(b) && Ids(a) <= Ids(b)
  {
    forall e | e in Edges(a) ensures e in Edges(b) {
      var n, d :| n in a && d in n.deps && e == (d, n.id);
      var i :| 0 <= i < |a| && a[i] == n;
      assert b[i] in b;
    }
    forall x | x in Ids(a) ensures x in Ids(b) {
      var n :| n in a && n.id == x;
      var i :| 0 <= i < |a| && a[i] == n;
      assert b[i] in b;
    }
  }
}
