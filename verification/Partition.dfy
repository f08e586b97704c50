/** The whole partitioner, pass by pass (Partitioner/partitioner/src/splitter.rs). */
module Partition {
  import opened Prelude
  import opened Sequences
  import opened Graphs
  import opened SymbolicDag
  import opened Topo
  import opened Expansion
  import opened ExpansionProofs
  import opened StreamSplit
  import opened StreamSplitProofs
  import opened Placer
  import opened InputSlices
  import opened Slots
  import opened SlotProofs
  import opened Reclaim
  import opened Cut
  import opened CutProofs
  import opened Ordering

  const COORDINATOR: nat := 0

  /** A symbolic graph the passes below may rely on: distinct names, minted so far by passes before k. */
  ghost predicate WellFormed(nodes: seq<Node>, k: nat) {
    MintedBefore(nodes, k) && DistinctIds(nodes)
  }

  /** What splitting and all later passes keep: names stay distinct, and an acyclic graph stays acyclic together
      with the transfers embedded in split pipelines. */
  ghost predicate KeptWith(before: seq<Node>, after: seq<Node>, links: Graph<Id>, k: nat) {
    && WellFormed(after, k) && (forall e :: e in links ==> Generation(e.0) < k && Generation(e.1) < k)
    && (Acyclic(Edges(before)) ==> Acyclic(Edges(after) + links))
  }

  /** What a pass keeps: names stay distinct, and an acyclic graph stays acyclic. */
  ghost predicate Kept(before: seq<Node>, after: seq<Node>, k: nat) {
    WellFormed(after, k) && (Acyclic(Edges(before)) ==> Acyclic(Edges(after)))
  }

  lemma {:induction false} ShapeKept(nodes: seq<Node>, a: seq<Node>, b: seq<Node>, links: Graph<Id>, k: nat)
    requires KeptWith(nodes, a, links, k) && SameShape(a, b)
    ensures KeptWith(nodes, b, links, k)
  {
    SameShapeGraph(a, b);
  }

  /** Paths of the replicated inputs. */
  function SharedPaths(nodes: seq<Node>): set<string> {
    set n | n in nodes && n.all && n.kind.Input? :: n.kind.path
  }

  function Fanned(nodes: seq<Node>, total: nat, hints: Hints): seq<Node>
    requires NonNegativeHints(hints) && total >= 1
  {
    FanOut(Replicate(nodes, total, hints))
  }

  /** The graph after replication, fan-out and pipeline splitting. */
  function Expanded(nodes: seq<Node>, total: nat, hints: Hints, plan: Plan): seq<Node>
    requires NonNegativeHints(hints) && total >= 1
  {
    var fanned := Fanned(nodes, total, hints);
    if plan == map[] then fanned else SplitResult(fanned, plan, MachineOrder(total, hints))
  }

  lemma {:induction false} FannedKept(nodes: seq<Node>, total: nat, hints: Hints)
    requires WellFormed(nodes, 1) && NonNegativeHints(hints) && total >= 1
    ensures Kept(nodes, Fanned(nodes, total, hints), 3)
  {
    ReplicateKeepsOrder(nodes, total, hints);
    FanOutKeepsOrder(Replicate(nodes, total, hints));
  }

  /** The transfers embedded in the pipelines that the plan splits. */
  ghost function LinksOf(nodes: seq<Node>, total: nat, hints: Hints, plan: Plan): Graph<Id>
    requires NonNegativeHints(hints) && total >= 1
  {
    StreamLinks(Fanned(nodes, total, hints), plan)
  }

  lemma {:induction false} SplitKept(nodes: seq<Node>, fanned: seq<Node>, plan: Plan, machines: seq<nat>)
    requires Kept(nodes, fanned, 3)
    ensures KeptWith(nodes, SplitResult(fanned, plan, machines), StreamLinks(fanned, plan), 4)
  {
    SplitKeepsOrder(fanned, plan, machines);
    SplitKeepsDistinct(fanned, plan, machines);
    LinksMinted(fanned, plan);
  }

  lemma {:induction false} UnsplitKept(nodes: seq<Node>, fanned: seq<Node>)
    requires Kept(nodes, fanned, 3)
    ensures KeptWith(nodes, fanned, StreamLinks(fanned, map[]), 4)
  {
    assert StreamLinks(fanned, map[]) == {};
    assert Edges(fanned) + {} == Edges(fanned);
  }

  lemma {:induction false} ExpandedKept(nodes: seq<Node>, total: nat, hints: Hints, plan: Plan)
    requires WellFormed(nodes, 1) && NonNegativeHints(hints) && total >= 1
    ensures KeptWith(nodes, Expanded(nodes, total, hints, plan), LinksOf(nodes, total, hints, plan), 4)
  {
    var fanned := Fanned(nodes, total, hints);
    FannedKept(nodes, total, hints);
    if plan == map[] {
      UnsplitKept(nodes, fanned);
    } else {
      SplitKept(nodes, fanned, plan, MachineOrder(total, hints));
    }
  }

  /** Replication, fan-out and pipeline splitting; refused exactly when a pipeline cannot be split. */
  method Expand(nodes: seq<Node>, total: nat, hints: Hints)
    returns (r: Option<seq<Node>>, workers: set<Id>, plan: Plan)
    requires WellFormed(nodes, 1) && NonNegativeHints(hints) && total >= 1
    ensures workers == WorkerSet(Replicate(nodes, total, hints)) && PlanFor(Fanned(nodes, total, hints), total, plan)
    ensures r.Some? ==> IsPlan(Fanned(nodes, total, hints), total, plan)
    ensures r.Some? ==> r.value == Expanded(nodes, total, hints, plan)
    ensures r.Some? ==> KeptWith(nodes, r.value, LinksOf(nodes, total, hints, plan), 4)
    ensures r.None? <==> SplitRefuses(Fanned(nodes, total, hints), total, plan)
  {
    var replicated := ExpandAllPlacements(nodes, total, hints);
    var fanned;
    fanned, workers := ExpandFanout(replicated);
    FannedKept(nodes, total, hints);
    var split;
    split, plan := SplitStreamPipelines(fanned, total, hints);
    if split.Err? {
      return None, workers, plan;
    }
    ExpandedKept(nodes, total, hints, plan);
    r := Some(split.value);
  }

  // ---------------------------------------------------------------------------
  // Hosts, slices and slots
  // ---------------------------------------------------------------------------

  /** The graph after pinning, placement (with its quotas and its order), slicing, and slot assignment along order. */
  datatype Layout = Layout(pinned: seq<Node>, hosted: seq<Node>, quota: map<nat, nat>, turn: seq<nat>,
                           sliced: seq<Node>, order: seq<nat>, placed: seq<Node>)

  /** What placement is told besides the graph. */
  datatype Setting = Setting(total: nat, hints: Hints, cap: Option<nat>, converge: bool,
                             workers: set<Id>, shared: set<string>)

  ghost predicate ValidSetting(s: Setting) { NonNegativeHints(s.hints) && s.total >= 1 }

  /** Pinning, placement and slicing did to the graph what each of them promises. */
  ghost predicate Hosted(nodes: seq<Node>, s: Setting, l: Layout)
    requires ValidSetting(s)
  {
    && (if s.converge then PinnedTo(nodes, l.pinned, COORDINATOR) else l.pinned == nodes)
    && IsPlacement(l.pinned, s.total, s.hints, s.cap, l.hosted, l.quota, l.turn)
    && SlicedBy(l.hosted, s.total, s.workers, s.shared, l.sliced)
    && IsPermutation(l.order, |l.sliced|)
    && (Acyclic(Edges(l.sliced)) && DistinctIds(l.sliced) ==> DepsFirst(l.sliced, l.order))
  }

  /** The placed graph is the result of slot assignment. */
  ghost predicate Slotted(l: Layout) {
    IsAssignment(l.sliced, l.order, MachineBound(l.sliced), l.placed)
  }

  /** Some node lacks the slot it needs. */
  ghost predicate Starves(l: Layout) {
    InRange(l.sliced, l.order) && exists k :: 0 <= k < |l.order| && Starved(l.sliced, l.order, k)
  }

  lemma {:induction false} FilledShape(a: seq<Node>, b: seq<Node>)
    requires OnlyHostsFilled(a, b)
    ensures SameShape(a, b)
  {
  }

  lemma {:induction false} SlicedShape(nodes: seq<Node>, s: Setting, out: seq<Node>)
    requires SlicedBy(nodes, s.total, s.workers, s.shared, out)
    ensures SameShape(nodes, out) && SameHosts(nodes, out)
  {
  }

  lemma {:induction false} HostedShape(nodes: seq<Node>, s: Setting, l: Layout)
    requires ValidSetting(s) && Hosted(nodes, s, l)
    ensures SameShape(nodes, l.sliced) && |l.pinned| == |l.hosted| == |nodes|
  {
    if s.converge { PinnedIsFilled(nodes, l.pinned, COORDINATOR); }
    FilledShape(nodes, l.pinned);
    FilledShape(l.pinned, l.hosted);
    SlicedShape(l.hosted, s, l.sliced);
  }

  /** Where the nodes end up: a given host stays, a node on the tail of an Output goes to the coordinator if the
      run converges there, and every other node goes to a real machine. */
  lemma {:induction false} PlacedHosts(nodes: seq<Node>, s: Setting, l: Layout, i: nat)
    requires ValidSetting(s) && Hosted(nodes, s, l) && Slotted(l) && i < |nodes|
    ensures SameShape(nodes, l.placed) && SameHosts(l.hosted, l.placed)
    ensures nodes[i].host.Some? ==> l.placed[i].host == nodes[i].host
    ensures nodes[i].host.None? ==> l.placed[i].host.Some? && l.placed[i].host.value < s.total
    ensures nodes[i].host.None? && s.converge && OnTail(nodes, i) ==> l.placed[i].host == Some(COORDINATOR)
  {
    HostedShape(nodes, s, l);
    AssignmentKeeps(l.sliced, l.order, MachineBound(l.sliced), l.placed);
    SlicedShape(l.hosted, s, l.sliced);
    assert l.pinned[i].host.None? ==> i in AutoNodes(l.pinned);
  }

  /** Pinning, placement, input slices and slots. */
  method Place(nodes: seq<Node>, k: nat, s: Setting) returns (r: Option<seq<Node>>, l: Layout)
    requires WellFormed(nodes, k) && ValidSetting(s)
    ensures Hosted(nodes, s, l) && (r.None? <==> Starves(l))
    ensures r.Some? ==> r.value == l.placed && Slotted(l) && SameShape(nodes, l.placed)
  {
    var pinned := nodes;
    if s.converge {
      pinned := PinConverge(nodes, COORDINATOR);
    }
    var hosted, quota, turn := AssignNodes(pinned, s.total, s.hints, s.cap);
    var sliced := AssignInputSlices(hosted, s.total, s.workers, s.shared);
    var machines := MachineCount(sliced);
    var order;
    r, order := AssignSlots(sliced, machines);
    l := Layout(pinned, hosted, quota, turn, sliced, order, OrElse(r, []));
    PlaceDone(nodes, k, s, l, r);
  }

  lemma {:induction false} PlaceDone(nodes: seq<Node>, k: nat, s: Setting, l: Layout, r: Option<seq<Node>>)
    requires WellFormed(nodes, k) && ValidSetting(s) && Hosted(nodes, s, l) && l.placed == OrElse(r, [])
    requires r.Some? <==> Assignment(l.sliced, l.order, MachineBound(l.sliced)).Some?
    requires r.Some? ==> r.value == Assignment(l.sliced, l.order, MachineBound(l.sliced)).value.nodes
    ensures r.None? <==> Starves(l)
    ensures r.Some? ==> Slotted(l) && SameShape(nodes, l.placed)
  {
    HostedShape(nodes, s, l);
    SameShapeGraph(nodes, l.sliced);
    HostsBelow(l.sliced);
    AssignmentFailsIff(l.sliced, l.order, MachineBound(l.sliced));
    if r.Some? { AssignmentKeeps(l.sliced, l.order, MachineBound(l.sliced), l.placed); }
  }

  /** One past the greatest host. */
  function MachineBound(nodes: seq<Node>): nat {
    if nodes == [] then 0
    else Max(MachineBound(nodes[..|nodes| - 1]), OrElse(nodes[|nodes| - 1].host, 0) + 1)
  }

  lemma {:induction false} HostsBelow(nodes: seq<Node>)
    ensures forall n :: n in nodes && n.host.Some? ==> n.host.value < MachineBound(nodes)
  {
    if nodes != [] {
      HostsBelow(nodes[..|nodes| - 1]);
      assert nodes == nodes[..|nodes| - 1] + [nodes[|nodes| - 1]];
    }
  }

  method MachineCount(nodes: seq<Node>) returns (machines: nat)
    ensures machines == MachineBound(nodes)
  {
    machines := 0;
    for i := 0 to |nodes|
      invariant machines == MachineBound(nodes[..i])
    {
      assert nodes[..i + 1][..i] == nodes[..i];
      machines := Max(machines, OrElse(nodes[i].host, 0) + 1);
    }
    assert nodes[..|nodes|] == nodes;
  }

  // ---------------------------------------------------------------------------
  // Machine lists
  // ---------------------------------------------------------------------------

  /** A finished machine: closed under deps, same-peer recvs and sends ordered. */
  ghost predicate Ready(list: seq<Node>) {
    Closed(list) && forall r, s :: SamePeer(list, r, s) ==> Ordered(Edges(list), r, s)
  }

  lemma {:induction false} GrownIsClosed(list: seq<Node>, out: seq<Node>)
    requires Closed(list) && OnlyDepsGrew(list, out) && Ids(out) == Ids(list)
    ensures Closed(out)
  {
    forall x, d | x in out && d in x.deps ensures d in Ids(out) {
      var i :| 0 <= i < |out| && out[i] == x;
      assert list[i] in list;
    }
  }

  lemma {:induction false} GrownPeers(list: seq<Node>, out: seq<Node>, r: Id, s: Id)
    requires OnlyDepsGrew(list, out) && SamePeer(out, r, s)
    ensures SamePeer(list, r, s)
  {
    var a, b :| a in out && b in out && a.id == r && b.id == s && RecvPeer(a).Some? && RecvPeer(a) == SendPeer(b);
    var i :| 0 <= i < |out| && out[i] == a;
    var j :| 0 <= j < |out| && out[j] == b;
    var x, y := list[i], list[j];
    assert x in list && y in list && x.id == r && y.id == s && x.kind == a.kind && y.kind == b.kind;
    assert RecvPeer(x) == RecvPeer(a) && SendPeer(y) == SendPeer(b);
  }

  lemma {:induction false} GrownIsReady(list: seq<Node>, out: seq<Node>)
    requires Closed(list) && OnlyDepsGrew(list, out) && Ids(out) == Ids(list)
    requires forall r, s :: SamePeer(list, r, s) ==> Ordered(Edges(out), r, s)
    ensures Ready(out)
  {
    GrownIsClosed(list, out);
    forall r, s | SamePeer(out, r, s) ensures Ordered(Edges(out), r, s) {
      GrownPeers(list, out, r, s);
    }
  }

  /** The ordering pass on every machine. */
  method OrderAll(lists: seq<seq<Node>>) returns (out: seq<seq<Node>>)
    requires forall m :: 0 <= m < |lists| ==> Closed(lists[m])
    ensures |out| == |lists|
    ensures forall m :: 0 <= m < |lists| ==> Ready(out[m]) && out[m] == OrderedList(lists[m])
    ensures forall m :: 0 <= m < |lists| ==> (Acyclic(Edges(lists[m])) ==> Acyclic(Edges(out[m])))
  {
    out := [];
    for m := 0 to |lists|
      invariant |out| == m
      invariant forall j :: 0 <= j < m ==> Ready(out[j]) && out[j] == OrderedList(lists[j])
      invariant forall j :: 0 <= j < m ==> (Acyclic(Edges(lists[j])) ==> Acyclic(Edges(out[j])))
    {
      var o := OrderRecvsAfterSends(lists[m]);
      GrownIsReady(lists[m], o);
      out := out + [o];
    }
  }

  /** The intermediate results of a run: the splitting plan, the layout of the graph, and its cuts. */
  datatype Trace = Trace(plan: Plan, layout: Layout, keys: seq<Key>, cuts: Cuts, first: nat)

  /** Everything that reaches edge cutting. */
  function All(t: Trace): seq<Node> { WithFrees(t.layout.placed) }

  /** The lists are the placed nodes, frees included, cut at the machine boundaries: transfers in discovery order
      on consecutive slots from the first fresh one, every reference resolved, each list ordered. */
  ghost predicate EmittedAs(all: seq<Node>, total: nat, t: Trace, lists: seq<seq<Node>>) {
    && Placed(all, total) && IsFirstFresh(all, t.first) && t.keys == CutOrder(all)
    && CutsFor(all, t.keys, t.cuts, t.first) && KeysCut(t.keys, t.cuts)
    && (forall n :: n in all ==> EmitKind(all, t.cuts, n, OrElse(n.host, 0)).Some?)
    && |lists| == total
    && forall m :: 0 <= m < total ==> lists[m] == OrderedList(On(Emitted(all, t.keys, t.cuts), m))
  }

  /** The setting that a symbolic graph gives to placement. */
  function SettingOf(nodes: seq<Node>, total: nat, hints: Hints, cap: Option<nat>, converge: bool): Setting
    requires NonNegativeHints(hints) && total >= 1
  {
    Setting(total, hints, cap, converge, WorkerSet(Replicate(nodes, total, hints)), SharedPaths(nodes))
  }

  /** The graph was split by its own plan, then pinned, placed and sliced. */
  ghost predicate LaidOut(nodes: seq<Node>, s: Setting, t: Trace)
    requires ValidSetting(s)
  {
    var fanned := Fanned(nodes, s.total, s.hints);
    && IsPlan(fanned, s.total, t.plan) && !SplitRefuses(fanned, s.total, t.plan)
    && Hosted(Expanded(nodes, s.total, s.hints, t.plan), s, t.layout)
  }

  /** The machine lists are those of the symbolic graph, pass by pass. */
  ghost predicate Realises(nodes: seq<Node>, s: Setting, t: Trace, lists: seq<seq<Node>>)
    requires ValidSetting(s)
  {
    LaidOut(nodes, s, t) && Slotted(t.layout) && EmittedAs(All(t), s.total, t, lists)
  }

  /** Why a run stops: a pipeline cannot be split, a node lacks a slot, validation fails, or an edge cannot be cut. */
  ghost predicate Refused(nodes: seq<Node>, s: Setting, t: Trace)
    requires ValidSetting(s)
  {
    var fanned := Fanned(nodes, s.total, s.hints);
    || (PlanFor(fanned, s.total, t.plan) && SplitRefuses(fanned, s.total, t.plan))
    || (LaidOut(nodes, s, t) && Starves(t.layout))
    || (LaidOut(nodes, s, t) && Slotted(t.layout) && !Placed(All(t), s.total))
    || (LaidOut(nodes, s, t) && Slotted(t.layout) && Uncuttable(All(t), t.keys, t.cuts, t.first))
  }

  /** A run that emits lists meets none of the causes. */
  lemma {:induction false} RealisedIsNotRefused(nodes: seq<Node>, s: Setting, t: Trace, lists: seq<seq<Node>>)
    requires ValidSetting(s) && Realises(nodes, s, t, lists)
    ensures !Refused(nodes, s, t)
  {
    SlottedDoesNotStarve(t.layout);
    EmittedIsCuttable(All(t), s.total, t, lists);
  }

  lemma {:induction false} SlottedDoesNotStarve(l: Layout)
    requires Slotted(l)
    ensures !Starves(l)
  {
    AssignmentFailsIff(l.sliced, l.order, MachineBound(l.sliced));
  }

  lemma {:induction false} EmittedIsCuttable(all: seq<Node>, total: nat, t: Trace, lists: seq<seq<Node>>)
    requires EmittedAs(all, total, t, lists)
    ensures Placed(all, total) && !Uncuttable(all, t.keys, t.cuts, t.first)
  {
    forall id, m: nat | IsCut(all, id, m) ensures Sendable(all, id) { assert (id, m) in t.cuts; }
  }

  /** Before the ordering pass, the cluster-wide graph in which every recv waits for its send, and every segment
      and sink of a split pipeline for the segment before it, is acyclic. */
  ghost predicate ClusterOrdered(t: Trace, links: Graph<Id>) {
    && KeysCut(t.keys, t.cuts)
    && Acyclic(ClusterEdges(Emitted(All(t), t.keys, t.cuts), t.keys, t.cuts) + LinkEdges(All(t), links))
  }

  /** For every symbolic graph with distinct names the partitioner either emits the lists of that graph or meets
      a cause to refuse it, never both.  Each list is closed under deps and leaves no same-peer recv and send
      unordered; if the graph is acyclic, so are every list and, before ordering, the cluster as a whole. */
  method PartitionDag(nodes: seq<Node>, totalNodes: Option<nat>, hints: Hints, cap: Option<nat>, converge: bool)
    returns (r: Option<seq<seq<Node>>>, t: Trace)
    requires WellFormed(nodes, 1) && NonNegativeHints(hints)
    ensures var s := SettingOf(nodes, Max(1, OrElse(totalNodes, 1)), hints, cap, converge);
            (r.Some? ==> Realises(nodes, s, t, r.value)) && (r.None? <==> Refused(nodes, s, t))
    ensures r.Some? ==> forall m :: 0 <= m < |r.value| ==> Ready(r.value[m])
    ensures r.Some? && Acyclic(Edges(nodes)) ==> forall m :: 0 <= m < |r.value| ==> Acyclic(Edges(r.value[m]))
    ensures r.Some? && Acyclic(Edges(nodes)) ==>
              ClusterOrdered(t, LinksOf(nodes, Max(1, OrElse(totalNodes, 1)), hints, t.plan))
  {
    var total := Max(1, OrElse(totalNodes, 1));
    ghost var s := SettingOf(nodes, total, hints, cap, converge);
    var expanded, workers, plan := Expand(nodes, total, hints);
    if expanded.None? {
      return None, Trace(plan, Layout([], [], map[], [], [], [], []), [], map[], 0);
    }
    var placed, layout := Place(expanded.value, 4, Setting(total, hints, cap, converge, workers, SharedPaths(nodes)));
    if placed.None? {
      t := Trace(plan, layout, [], map[], 0);
      assert LaidOut(nodes, s, t);
      return None, t;
    }
    ghost var links := LinksOf(nodes, total, hints, plan);
    ShapeKept(nodes, expanded.value, placed.value, links, 4);
    r, t := EmitMachines(nodes, links, plan, layout, total);
    assert LaidOut(nodes, s, t);
    if r.Some? { RealisedIsNotRefused(nodes, s, t, r.value); }
  }

  /** Frees, validation, cutting and ordering of a placed graph. */
  method EmitMachines(ghost nodes: seq<Node>, ghost links: Graph<Id>, plan: Plan, layout: Layout, total: nat)
    returns (r: Option<seq<seq<Node>>>, t: Trace)
    requires KeptWith(nodes, layout.placed, links, 4)
    ensures t.plan == plan && t.layout == layout
    ensures r.None? ==> !Placed(All(t), total) || Uncuttable(All(t), t.keys, t.cuts, t.first)
    ensures r.Some? ==> EmittedAs(All(t), total, t, r.value)
    ensures r.Some? ==> forall m :: 0 <= m < total ==> Ready(r.value[m])
    ensures r.Some? && Acyclic(Edges(nodes)) ==> forall m :: 0 <= m < total ==> Acyclic(Edges(r.value[m]))
    ensures r.Some? && Acyclic(Edges(nodes)) ==> ClusterOrdered(t, links)
  {
    var all := InjectFanoutFrees(layout.placed);
    FreesKeepOrder(layout.placed, links);
    FreesKeepDistinct(layout.placed);
    t := Trace(plan, layout, [], map[], 0);
    var valid := Validate(all, total);
    if !valid {
      return None, t;
    }
    var lists, keys, cuts, first := CutEdges(all, total);
    t := Trace(plan, layout, keys, cuts, first);
    if lists.None? {
      return None, t;
    }
    CutsHaveKeys(all, keys, cuts, first);
    forall m | 0 <= m < total ensures Closed(lists.value[m]) {
      ListsClosed(all, total, keys, cuts, first, m);
    }
    if Acyclic(Edges(nodes)) {
      ClusterAcyclic(all, keys, cuts, first, links);
      SubgraphAcyclic(Edges(all), Edges(all) + links);
      forall m | 0 <= m < total ensures Acyclic(Edges(lists.value[m])) {
        ListsAcyclic(all, keys, cuts, first, m);
      }
    }
    var out := OrderAll(lists.value);
    r := Some(out);
  }
}
