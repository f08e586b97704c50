/**
  The deadlock-prevention pass: a recv is ordered after every send to the same
  peer unless that would close a cycle (Partitioner/partitioner/src/splitter.rs).
 */
module Ordering {
  import opened Prelude
  import opened Sequences
  import opened Graphs
  import opened SymbolicDag
  import opened StreamSplit

  // ---------------------------------------------------------------------------
  // Reachability over a successor map
  // ---------------------------------------------------------------------------

  type Successors = map<Id, seq<Id>>

  ghost function GraphOf(succ: Successors): Graph<Id> {
    set u, v | u in succ && v in succ[u] :: (u, v)
  }

  /** A set closed under edges keeps every walk that starts in it. */
  lemma {:induction false} ClosedKeepsWalks<V(!new)>(g: Graph<V>, s: set<V>, w: seq<V>)
    requires IsWalk(g, w) && w[0] in s && forall e :: e in g && e.0 in s ==> e.1 in s
    ensures w[|w| - 1] in s
    decreases |w|
  {
    if |w| > 1 {
      ClosedKeepsWalks(g, s, w[..|w| - 1]);
      assert (w[|w| - 2], w[|w| - 1]) in g;
    }
  }

  lemma {:induction false} StepReaches<V(!new)>(g: Graph<V>, u: V, v: V, t: V)
    requires Reaches(g, u, v) && (v, t) in g
    ensures Reaches(g, u, t)
  {
    EdgePrecedes(g, v, t);
    PrecedesReaches(g, v, t);
    ReachesTrans(g, u, v, t);
  }

  ghost predicate Target(succ: Successors, start: Id, x: Id) {
    Reaches(GraphOf(succ), start, x)
  }

  /** A finite set holding everything the search can meet. */
  lemma {:induction false} Universe(succ: Successors, start: Id) returns (all: set<Id>)
    ensures start in all && forall u, v :: u in succ && v in succ[u] ==> v in all
  {
    all := {start} + set u, v | u in succ && v in succ[u] :: v;
  }

  lemma {:induction false} SuccessorsReached(succ: Successors, start: Id, node: Id)
    requires Target(succ, start, node) && node in succ
    ensures forall i :: 0 <= i < |succ[node]| ==> Target(succ, start, succ[node][i])
  {
    forall i | 0 <= i < |succ[node]| ensures Target(succ, start, succ[node][i]) {
      assert (node, succ[node][i]) in GraphOf(succ);
      StepReaches(GraphOf(succ), start, node, succ[node][i]);
    }
  }

  /** Successors of visited vertices are visited or queued. */
  ghost predicate Explored(succ: Successors, visited: set<Id>, queue: seq<Id>) {
    forall u, v :: u in visited && u in succ && v in succ[u] ==> v in visited || v in queue
  }

  lemma {:induction false} ExhaustedSearch(succ: Successors, start: Id, target: Id, visited: set<Id>)
    requires Explored(succ, visited, []) && start in visited && target !in visited
    ensures !Target(succ, start, target)
  {
    if w: seq<Id> :| WalkFromTo(GraphOf(succ), w, start, target) {
      ClosedKeepsWalks(GraphOf(succ), visited, w);
    }
  }

  /** The queue holds reachable vertices of the finite universe. */
  ghost predicate Queued(succ: Successors, start: Id, all: set<Id>, queue: seq<Id>) {
    forall x :: x in queue ==> x in all && Target(succ, start, x)
  }

  lemma {:induction false} QueueGrows(succ: Successors, start: Id, all: set<Id>, queue: seq<Id>, node: Id)
    requires Queued(succ, start, all, queue) && Target(succ, start, node) && node in succ
    requires forall u, v :: u in succ && v in succ[u] ==> v in all
    ensures Queued(succ, start, all, queue + succ[node])
  {
    SuccessorsReached(succ, start, node);
  }

  /** Breadth-first search: sound, complete and terminating on every graph. */
  method DagReachable(succ: Successors, start: Id, target: Id) returns (found: bool)
    ensures found <==> Reaches(GraphOf(succ), start, target)
  {
    ghost var all := Universe(succ, start);
    ReachesSelf(GraphOf(succ), start);
    assert Target(succ, start, start);
    var visited: set<Id> := {};
    var queue := [start];
    while queue != []
      invariant visited <= all && Queued(succ, start, all, queue)
      invariant start in visited || start in queue
      invariant target !in visited
      invariant Explored(succ, visited, queue)
      decreases |all - visited|, |queue|
    {
      var node := queue[0];
      assert queue == [node] + queue[1..];
      assert node in queue;
      queue := queue[1..];
      if node == target {
        return true;
      }
      if node !in visited {
        assert node in all - visited;
        assert all - (visited + {node}) == (all - visited) - {node};
        visited := visited + {node};
        if node in succ {
          QueueGrows(succ, start, all, queue, node);
          queue := queue + succ[node];
        }
      }
    }
    ExhaustedSearch(succ, start, target, visited);
    found := false;
  }

  method BuildSuccessorMap(list: seq<Node>) returns (succ: Successors)
    ensures GraphOf(succ) == Edges(list)
  {
    succ := map[];
    for i := 0 to |list|
      invariant GraphOf(succ) == Edges(list[..i])
    {
      var n := list[i];
      for j := 0 to |n.deps|
        invariant GraphOf(succ) == Edges(list[..i]) + set d | d in n.deps[..j] :: (d, n.id)
      {
        assert n.deps[..j + 1] == n.deps[..j] + [n.deps[j]];
        succ := AddSuccessor(succ, n.deps[j], n.id);
      }
      assert n.deps[..|n.deps|] == n.deps;
      EdgesStep(list, i);
    }
    assert list[..|list|] == list;
  }

  function AddSuccessor(succ: Successors, u: Id, v: Id): (r: Successors)
    ensures GraphOf(r) == GraphOf(succ) + {(u, v)}
  {
    var r := succ[u := (if u in succ then succ[u] else []) + [v]];
    assert forall x, y :: x in r && y in r[x] <==> (x in succ && y in succ[x]) || (x == u && y == v);
    r
  }

  lemma {:induction false} EdgesStep(list: seq<Node>, i: nat)
    requires i < |list|
    ensures Edges(list[..i + 1]) == Edges(list[..i]) + set d | d in list[i].deps :: (d, list[i].id)
  {
    assert list[..i + 1] == list[..i] + [list[i]];
  }

  // ---------------------------------------------------------------------------
  // The pass
  // ---------------------------------------------------------------------------

  /** Peer a node receives from. */
  function RecvPeer(n: Node): Option<nat> {
    if n.kind.RemoteRecv? then Some(n.kind.peer) else None
  }

  /** Peer a node sends to: a RemoteSend, or a pipeline with an embedded send. */
  function SendPeer(n: Node): Option<nat> {
    if n.kind.RemoteSend? then Some(n.kind.peer)
    else if n.kind.StreamPipeline? && n.kind.send.Some? then Some(n.kind.send.value.peer)
    else None
  }

  function IdsWith(list: seq<Node>, peerOf: Node -> Option<nat>, p: nat): seq<Id> {
    FlatMap(list, (n: Node) => if peerOf(n) == Some(p) then [n.id] else [])
  }

  function PeersIn(list: seq<Node>, peerOf: Node -> Option<nat>): seq<nat> {
    FlatMap(list, (n: Node) => if peerOf(n).Some? then [peerOf(n).value] else [])
  }

  /** Recv peers in ascending order, each once. */
  function PeerOrder(list: seq<Node>): seq<nat> {
    Dedup(Ascending(PeersIn(list, RecvPeer)))
  }

  /** recv r and send s talk to the same peer. */
  ghost predicate SamePeer(list: seq<Node>, r: Id, s: Id) {
    exists a, b :: a in list && b in list && a.id == r && b.id == s
                   && RecvPeer(a).Some? && RecvPeer(a) == SendPeer(b)
  }

  lemma {:induction false} InIdsWith(list: seq<Node>, peerOf: Node -> Option<nat>, p: nat, x: Id)
    ensures x in IdsWith(list, peerOf, p) <==> exists n :: n in list && peerOf(n) == Some(p) && n.id == x
  {
    InFlatMap(list, (n: Node) => if peerOf(n) == Some(p) then [n.id] else [], x);
  }

  lemma {:induction false} InPeers(list: seq<Node>, peerOf: Node -> Option<nat>, p: nat)
    ensures p in PeersIn(list, peerOf) <==> exists n :: n in list && peerOf(n) == Some(p)
  {
    InFlatMap(list, (n: Node) => if peerOf(n).Some? then [peerOf(n).value] else [], p);
  }

  lemma {:induction false} InPeerOrder(list: seq<Node>, n: Node)
    requires n in list && RecvPeer(n).Some?
    ensures RecvPeer(n).value in PeerOrder(list)
  {
    var ps, p := PeersIn(list, RecvPeer), RecvPeer(n).value;
    InPeers(list, RecvPeer, p);
    AscendingCorrect(ps);
    MultisetMembers(Ascending(ps), ps);
    DedupCorrect(Ascending(ps));
  }

  type Pairs = seq<(Id, Id)>   // (recv, send): recv is to depend on send

  ghost function AddedEdges(added: Pairs): Graph<Id> {
    set p | p in added :: (p.1, p.0)
  }

  /** Loop state: the live graph is the list's edges plus those added, and still acyclic if it was. */
  ghost predicate Live(list: seq<Node>, succ: Successors, added: Pairs) {
    && GraphOf(succ) == Edges(list) + AddedEdges(added)
    && (forall p :: p in added ==> SamePeer(list, p.0, p.1))
    && (Acyclic(Edges(list)) ==> Acyclic(GraphOf(succ)))
  }

  /** r and s are ordered in g: r reaches s, or s is an immediate predecessor of r. */
  ghost predicate Ordered(g: Graph<Id>, r: Id, s: Id) {
    Reaches(g, r, s) || (s, r) in g
  }

  lemma {:induction false} OrderedMonotone(g: Graph<Id>, h: Graph<Id>, r: Id, s: Id)
    requires g <= h && Ordered(g, r, s)
    ensures Ordered(h, r, s)
  {
    SubgraphReaches(g, h, r, s);
  }

  // The order in which the pairs are considered: peers ascending, then recvs, then sends.

  function RecvPairs(r: Id, sends: seq<Id>): Pairs {
    seq(|sends|, j requires 0 <= j < |sends| => (r, sends[j]))
  }

  function PeerPairs(recvs: seq<Id>, sends: seq<Id>): Pairs {
    FlatMap(recvs, (r: Id) => RecvPairs(r, sends))
  }

  function PairsOf(list: seq<Node>): Pairs {
    FlatMap(PeerOrder(list), (p: nat) => PeerPairs(IdsWith(list, RecvPeer, p), IdsWith(list, SendPeer, p)))
  }

  /** The pairs that are kept: those whose recv does not yet reach the send. */
  ghost function Chosen(g: Graph<Id>, pairs: Pairs): Pairs {
    if pairs == [] then []
    else
      var was, p := Chosen(g, pairs[..|pairs| - 1]), pairs[|pairs| - 1];
      if Reaches(g + AddedEdges(was), p.0, p.1) then was else was + [p]
  }

  lemma {:induction false} ChosenStep(g: Graph<Id>, pairs: Pairs, p: (Id, Id))
    ensures var was := Chosen(g, pairs);
            Chosen(g, pairs + [p]) == if Reaches(g + AddedEdges(was), p.0, p.1) then was else was + [p]
  {
    assert (pairs + [p])[..|pairs|] == pairs;
  }

  lemma {:induction false} ChosenAmong(g: Graph<Id>, pairs: Pairs)
    ensures forall p :: p in Chosen(g, pairs) ==> p in pairs
  {
    if pairs != [] { ChosenAmong(g, pairs[..|pairs| - 1]); }
  }

  lemma {:induction false} InPairs(list: seq<Node>, p: (Id, Id))
    ensures p in PairsOf(list) <==> SamePeer(list, p.0, p.1)
  {
    var f := (q: nat) => PeerPairs(IdsWith(list, RecvPeer, q), IdsWith(list, SendPeer, q));
    InFlatMap(PeerOrder(list), f, p);
    if p in PairsOf(list) {
      var q :| q in PeerOrder(list) && p in f(q);
      InPeerPairs(IdsWith(list, RecvPeer, q), IdsWith(list, SendPeer, q), p);
      PeersMatch(list, q, p.0, p.1);
    }
    if SamePeer(list, p.0, p.1) {
      var a, b :| a in list && b in list && a.id == p.0 && b.id == p.1 && RecvPeer(a).Some?
                  && RecvPeer(a) == SendPeer(b);
      var q := RecvPeer(a).value;
      InPeerOrder(list, a);
      InIdsWith(list, RecvPeer, q, p.0);
      InIdsWith(list, SendPeer, q, p.1);
      InPeerPairs(IdsWith(list, RecvPeer, q), IdsWith(list, SendPeer, q), p);
      assert p in f(q);
    }
  }

  lemma {:induction false} InPeerPairs(recvs: seq<Id>, sends: seq<Id>, p: (Id, Id))
    ensures p in PeerPairs(recvs, sends) <==> p.0 in recvs && p.1 in sends
  {
    var f := (r: Id) => RecvPairs(r, sends);
    InFlatMap(recvs, f, p);
    if p.0 in recvs && p.1 in sends {
      var j :| 0 <= j < |sends| && sends[j] == p.1;
      assert f(p.0)[j] == p;
    }
  }

  /** Considers one recv/send pair against the live graph. */
  method OrderPair(list: seq<Node>, r: Id, s: Id, succ0: Successors, added0: Pairs, ghost done: Pairs)
    returns (succ: Successors, added: Pairs)
    requires Live(list, succ0, added0) && SamePeer(list, r, s) && added0 == Chosen(Edges(list), done)
    ensures Live(list, succ, added) && GraphOf(succ0) <= GraphOf(succ)
    ensures added == Chosen(Edges(list), done + [(r, s)])
    ensures Ordered(GraphOf(succ), r, s)
  {
    succ, added := succ0, added0;
    ChosenStep(Edges(list), done, (r, s));
    var reached := DagReachable(succ, r, s);
    if !reached {
      if Acyclic(Edges(list)) {
        AddEdge(GraphOf(succ), s, r);
      }
      added := added + [(r, s)];
      succ := AddSuccessor(succ, s, r);
      assert AddedEdges(added) == AddedEdges(added0) + {(s, r)};
    }
  }

  /** r is ordered against every send in g. */
  ghost predicate RecvOrdered(g: Graph<Id>, r: Id, sends: seq<Id>) {
    forall s :: s in sends ==> Ordered(g, r, s)
  }

  lemma {:induction false} RecvStays(g: Graph<Id>, h: Graph<Id>, r: Id, sends: seq<Id>)
    requires RecvOrdered(g, r, sends) && g <= h
    ensures RecvOrdered(h, r, sends)
  {
    forall s | s in sends ensures Ordered(h, r, s) { OrderedMonotone(g, h, r, s); }
  }

  lemma {:induction false} RecvPairsStep(r: Id, sends: seq<Id>, done: Pairs, j: nat)
    requires j < |sends|
    ensures done + RecvPairs(r, sends[..j + 1]) == done + RecvPairs(r, sends[..j]) + [(r, sends[j])]
  {
  }

  lemma {:induction false} OneMoreSend(g: Graph<Id>, h: Graph<Id>, r: Id, sends: seq<Id>, j: nat)
    requires j < |sends| && RecvOrdered(g, r, sends[..j]) && g <= h && Ordered(h, r, sends[j])
    ensures RecvOrdered(h, r, sends[..j + 1])
  {
    RecvStays(g, h, r, sends[..j]);
    assert sends[..j + 1] == sends[..j] + [sends[j]];
  }

  /** Considers one recv against all sends to its peer. */
  method OrderRecv(list: seq<Node>, r: Id, sends: seq<Id>, succ0: Successors, added0: Pairs, ghost done: Pairs)
    returns (succ: Successors, added: Pairs)
    requires Live(list, succ0, added0) && forall s :: s in sends ==> SamePeer(list, r, s)
    requires added0 == Chosen(Edges(list), done)
    ensures Live(list, succ, added) && GraphOf(succ0) <= GraphOf(succ)
    ensures added == Chosen(Edges(list), done + RecvPairs(r, sends))
    ensures RecvOrdered(GraphOf(succ), r, sends)
  {
    succ, added := succ0, added0;
    assert done + RecvPairs(r, sends[..0]) == done;
    for j := 0 to |sends|
      invariant Live(list, succ, added) && GraphOf(succ0) <= GraphOf(succ)
      invariant added == Chosen(Edges(list), done + RecvPairs(r, sends[..j]))
      invariant RecvOrdered(GraphOf(succ), r, sends[..j])
    {
      ghost var before := GraphOf(succ);
      RecvPairsStep(r, sends, done, j);
      succ, added := OrderPair(list, r, sends[j], succ, added, done + RecvPairs(r, sends[..j]));
      OneMoreSend(before, GraphOf(succ), r, sends, j);
    }
    assert sends[..|sends|] == sends;
  }

  /** Every recv is ordered against every send in g. */
  ghost predicate AllRecvsOrdered(g: Graph<Id>, recvs: seq<Id>, sends: seq<Id>) {
    forall r :: r in recvs ==> RecvOrdered(g, r, sends)
  }

  lemma {:induction false} OneMoreRecv(g: Graph<Id>, h: Graph<Id>, recvs: seq<Id>, sends: seq<Id>, i: nat)
    requires i < |recvs| && AllRecvsOrdered(g, recvs[..i], sends) && g <= h && RecvOrdered(h, recvs[i], sends)
    ensures AllRecvsOrdered(h, recvs[..i + 1], sends)
  {
    assert recvs[..i + 1] == recvs[..i] + [recvs[i]];
    forall r | r in recvs[..i] ensures RecvOrdered(h, r, sends) { RecvStays(g, h, r, sends); }
  }

  lemma {:induction false} PeerPairsStep(recvs: seq<Id>, sends: seq<Id>, done: Pairs, i: nat)
    requires i < |recvs|
    ensures done + PeerPairs(recvs[..i + 1], sends) == done + PeerPairs(recvs[..i], sends) + RecvPairs(recvs[i], sends)
  {
    FlatMapStep(recvs, (r: Id) => RecvPairs(r, sends), i);
  }

  /** Considers all recvs and sends of one peer. */
  method OrderPeer(list: seq<Node>, recvs: seq<Id>, sends: seq<Id>, succ0: Successors, added0: Pairs, ghost done: Pairs)
    returns (succ: Successors, added: Pairs)
    requires Live(list, succ0, added0) && added0 == Chosen(Edges(list), done)
    requires forall r, s :: r in recvs && s in sends ==> SamePeer(list, r, s)
    ensures Live(list, succ, added) && GraphOf(succ0) <= GraphOf(succ)
    ensures added == Chosen(Edges(list), done + PeerPairs(recvs, sends))
    ensures AllRecvsOrdered(GraphOf(succ), recvs, sends)
  {
    succ, added := succ0, added0;
    assert done + PeerPairs(recvs[..0], sends) == done;
    for i := 0 to |recvs|
      invariant Live(list, succ, added) && GraphOf(succ0) <= GraphOf(succ)
      invariant added == Chosen(Edges(list), done + PeerPairs(recvs[..i], sends))
      invariant AllRecvsOrdered(GraphOf(succ), recvs[..i], sends)
    {
      ghost var before := GraphOf(succ);
      PeerPairsStep(recvs, sends, done, i);
      succ, added := OrderRecv(list, recvs[i], sends, succ, added, done + PeerPairs(recvs[..i], sends));
      OneMoreRecv(before, GraphOf(succ), recvs, sends, i);
    }
    assert recvs[..|recvs|] == recvs;
  }

  lemma {:induction false} PeersMatch(list: seq<Node>, p: nat, r: Id, s: Id)
    requires r in IdsWith(list, RecvPeer, p) && s in IdsWith(list, SendPeer, p)
    ensures SamePeer(list, r, s)
  {
    InIdsWith(list, RecvPeer, p, r);
    InIdsWith(list, SendPeer, p, s);
  }

  /** Every pair of the first i peers is ordered in g. */
  ghost predicate PeersOrdered(list: seq<Node>, peers: seq<nat>, i: nat, g: Graph<Id>)
    requires i <= |peers|
  {
    forall k :: 0 <= k < i ==>
                  AllRecvsOrdered(g, IdsWith(list, RecvPeer, peers[k]), IdsWith(list, SendPeer, peers[k]))
  }

  lemma {:induction false} PeersStay(list: seq<Node>, peers: seq<nat>, i: nat, g: Graph<Id>, h: Graph<Id>)
    requires i <= |peers| && PeersOrdered(list, peers, i, g) && g <= h
    ensures PeersOrdered(list, peers, i, h)
  {
    forall k | 0 <= k < i
      ensures AllRecvsOrdered(h, IdsWith(list, RecvPeer, peers[k]), IdsWith(list, SendPeer, peers[k]))
    {
      var sends := IdsWith(list, SendPeer, peers[k]);
      forall r | r in IdsWith(list, RecvPeer, peers[k]) ensures RecvOrdered(h, r, sends) { RecvStays(g, h, r, sends); }
    }
  }

  lemma {:induction false} AllOrdered(list: seq<Node>, g: Graph<Id>)
    requires PeersOrdered(list, PeerOrder(list), |PeerOrder(list)|, g)
    ensures forall r, s :: SamePeer(list, r, s) ==> Ordered(g, r, s)
  {
    var peers := PeerOrder(list);
    forall r, s | SamePeer(list, r, s) ensures Ordered(g, r, s) {
      var a, b :| a in list && b in list && a.id == r && b.id == s && RecvPeer(a).Some? && RecvPeer(a) == SendPeer(b);
      InPeerOrder(list, a);
      var p := RecvPeer(a).value;
      var k :| 0 <= k < |peers| && peers[k] == p;
      InIdsWith(list, RecvPeer, p, r);
      InIdsWith(list, SendPeer, p, s);
      assert RecvOrdered(g, r, IdsWith(list, SendPeer, p));
    }
  }

  /** Decides which ordering edges to add. */
  method ChooseOrder(list: seq<Node>) returns (added: Pairs)
    ensures added == Chosen(Edges(list), PairsOf(list))
    ensures forall p :: p in added ==> SamePeer(list, p.0, p.1)
    ensures Acyclic(Edges(list)) ==> Acyclic(Edges(list) + AddedEdges(added))
    ensures forall r, s :: SamePeer(list, r, s) ==> Ordered(Edges(list) + AddedEdges(added), r, s)
  {
    var succ := BuildSuccessorMap(list);
    added := [];
    assert AddedEdges(added) == {};
    var peers := PeerOrder(list);
    ghost var f := (p: nat) => PeerPairs(IdsWith(list, RecvPeer, p), IdsWith(list, SendPeer, p));
    for i := 0 to |peers|
      invariant Live(list, succ, added) && added == Chosen(Edges(list), FlatMap(peers[..i], f))
      invariant PeersOrdered(list, peers, i, GraphOf(succ))
    {
      ghost var before := GraphOf(succ);
      var recvs, sends := IdsWith(list, RecvPeer, peers[i]), IdsWith(list, SendPeer, peers[i]);
      forall r, s | r in recvs && s in sends ensures SamePeer(list, r, s) { PeersMatch(list, peers[i], r, s); }
      FlatMapStep(peers, f, i);
      succ, added := OrderPeer(list, recvs, sends, succ, added, FlatMap(peers[..i], f));
      PeersStay(list, peers, i, before, GraphOf(succ));
    }
    assert peers[..|peers|] == peers;
    AllOrdered(list, GraphOf(succ));
  }

  // ---------------------------------------------------------------------------
  // Writing the edges back
  // ---------------------------------------------------------------------------

  function WithDep(n: Node, p: (Id, Id)): Node {
    if n.id == p.0 && p.1 !in n.deps then n.(deps := n.deps + [p.1]) else n
  }

  function WithDeps(n: Node, added: Pairs): Node {
    if added == [] then n else WithDep(WithDeps(n, added[..|added| - 1]), added[|added| - 1])
  }

  function Applied(list: seq<Node>, added: Pairs): (r: seq<Node>)
    ensures |r| == |list|
  {
    seq(|list|, i requires 0 <= i < |list| => WithDeps(list[i], added))
  }

  method ApplyPairs(list: seq<Node>, added: Pairs) returns (out: seq<Node>)
    ensures out == Applied(list, added)
  {
    out := list;
    for k := 0 to |added|
      invariant |out| == |list| && forall i :: 0 <= i < |out| ==> out[i] == WithDeps(list[i], added[..k])
    {
      assert added[..k + 1][..k] == added[..k];
      var next: seq<Node> := [];
      for i := 0 to |out|
        invariant |next| == i && forall j :: 0 <= j < i ==> next[j] == WithDep(out[j], added[k])
      {
        next := next + [WithDep(out[i], added[k])];
      }
      out := next;
    }
    assert added[..|added|] == added;
  }

  lemma {:induction false} WithDepsMembers(n: Node, added: Pairs)
    ensures var m := WithDeps(n, added);
            && m == n.(deps := m.deps)
            && forall d :: d in m.deps <==> d in n.deps || (n.id, d) in added
  {
    if added != [] {
      WithDepsMembers(n, added[..|added| - 1]);
      assert added == added[..|added| - 1] + [added[|added| - 1]];
    }
  }

  lemma {:induction false} AppliedEdge(list: seq<Node>, added: Pairs, e: (Id, Id))
    requires e in Edges(Applied(list, added))
    ensures e in Edges(list) + AddedEdges(added)
  {
    var out := Applied(list, added);
    var n, d :| n in out && d in n.deps && e == (d, n.id);
    var i :| 0 <= i < |out| && out[i] == n;
    WithDepsMembers(list[i], added);
    assert list[i] in list;
    if d !in list[i].deps { assert (n.id, d) in added; }
  }

  lemma {:induction false} AppliedKeepsEdge(list: seq<Node>, added: Pairs, e: (Id, Id))
    requires e in Edges(list)
    ensures e in Edges(Applied(list, added))
  {
    var out := Applied(list, added);
    var n, d :| n in list && d in n.deps && e == (d, n.id);
    var i :| 0 <= i < |list| && list[i] == n;
    WithDepsMembers(n, added);
    assert out[i] in out;
  }

  lemma {:induction false} AppliedAddsEdge(list: seq<Node>, added: Pairs, p: (Id, Id))
    requires p in added && p.0 in Ids(list)
    ensures (p.1, p.0) in Edges(Applied(list, added))
  {
    var out := Applied(list, added);
    var n :| n in list && n.id == p.0;
    var i :| 0 <= i < |list| && list[i] == n;
    WithDepsMembers(n, added);
    assert out[i] in out;
  }

  lemma {:induction false} AppliedIds(list: seq<Node>, added: Pairs)
    ensures Ids(Applied(list, added)) == Ids(list)
  {
    var out := Applied(list, added);
    forall x ensures x in Ids(out) <==> x in Ids(list) {
      if n :| n in list && n.id == x {
        var i :| 0 <= i < |list| && list[i] == n;
        WithDepsMembers(n, added);
        assert out[i] in out;
      }
      if n :| n in out && n.id == x {
        var i :| 0 <= i < |out| && out[i] == n;
        WithDepsMembers(list[i], added);
        assert list[i] in list;
      }
    }
  }

  /** The rewritten list carries exactly the old edges and the added ones. */
  lemma {:induction false} AppliedEdges(list: seq<Node>, added: Pairs)
    requires forall p :: p in added ==> p.0 in Ids(list)
    ensures Edges(Applied(list, added)) == Edges(list) + AddedEdges(added)
    ensures Ids(Applied(list, added)) == Ids(list)
  {
    AppliedIds(list, added);
    forall e ensures e in Edges(Applied(list, added)) <==> e in Edges(list) + AddedEdges(added) {
      if e in Edges(Applied(list, added)) { AppliedEdge(list, added, e); }
      if e in Edges(list) { AppliedKeepsEdge(list, added, e); }
      if e in AddedEdges(added) {
        var p :| p in added && e == (p.1, p.0);
        AppliedAddsEdge(list, added, p);
      }
    }
  }

  /** Only deps grow, and only recvs gain deps: sends to their own peer. */
  ghost predicate OnlyDepsGrew(list: seq<Node>, out: seq<Node>) {
    && |out| == |list|
    && forall i :: 0 <= i < |list| ==>
                     && out[i] == list[i].(deps := out[i].deps)
                     && (forall d :: d in list[i].deps ==> d in out[i].deps)
                     && (forall d :: d in out[i].deps ==> d in list[i].deps || SamePeer(list, list[i].id, d))
  }

  /** The list with the chosen edges written back. */
  ghost function OrderedList(list: seq<Node>): seq<Node> {
    Applied(list, Chosen(Edges(list), PairsOf(list)))
  }

  /** Ordering only adds, to recvs, deps on sends to their own peer. */
  lemma {:induction false} OrderedGrew(list: seq<Node>)
    ensures OnlyDepsGrew(list, OrderedList(list)) && Ids(OrderedList(list)) == Ids(list)
  {
    var added := Chosen(Edges(list), PairsOf(list));
    ChosenAmong(Edges(list), PairsOf(list));
    AppliedIds(list, added);
    forall i | 0 <= i < |list|
      ensures OrderedList(list)[i] == list[i].(deps := OrderedList(list)[i].deps)
              && forall d :: d in OrderedList(list)[i].deps <==> d in list[i].deps || (list[i].id, d) in added
    {
      WithDepsMembers(list[i], added);
    }
    forall p | p in added ensures SamePeer(list, p.0, p.1) { InPairs(list, p); }
  }

  /** No cycle is created, and afterwards every same-peer recv and send are ordered. */
  method OrderRecvsAfterSends(list: seq<Node>) returns (out: seq<Node>)
    ensures out == OrderedList(list) && OnlyDepsGrew(list, out) && Ids(out) == Ids(list)
    ensures Acyclic(Edges(list)) ==> Acyclic(Edges(out))
    ensures forall r, s :: SamePeer(list, r, s) ==> Ordered(Edges(out), r, s)
  {
    var added := ChooseOrder(list);
    out := ApplyPairs(list, added);
    assert forall p :: p in added ==> p.0 in Ids(list);
    AppliedEdges(list, added);
    OrderedGrew(list);
  }
}
