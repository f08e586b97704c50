/**
  Two smaller passes of the partitioner: pinning the convergence tail on the
  coordinator and freeing fan-out input slots after their readers ran
  (Partitioner/partitioner/src/splitter.rs).
 */
module Reclaim {
  import opened Prelude
  import opened Sequences
  import opened Graphs
  import opened SymbolicDag
  import opened Topo
  import opened Placer
  import opened Slots
  import opened StreamSplit

  // ---------------------------------------------------------------------------
  // Converge on the coordinator
  // ---------------------------------------------------------------------------

  method OutputIndices(nodes: seq<Node>) returns (r: seq<nat>)
    ensures forall i: nat :: i in r <==> i < |nodes| && nodes[i].kind.Output?
  {
    r := [];
    for i := 0 to |nodes|
      invariant forall j: nat :: j in r <==> j < i && nodes[j].kind.Output?
    {
      if nodes[i].kind.Output? {
        r := r + [i];
      }
    }
  }

  /** The only dep of node i, by index. */
  function OnlyDep(nodes: seq<Node>, i: nat): Option<nat> {
    if i < |nodes| && |nodes[i].deps| == 1 then IndexOf(nodes, nodes[i].deps[0]) else None
  }

  /** Where n steps back along only deps lead. */
  function Back(nodes: seq<Node>, i: nat, n: nat): Option<nat> {
    if n == 0 then Some(i)
    else
      var j := Back(nodes, i, n - 1);
      if j.None? then None else OnlyDep(nodes, j.value)
  }

  /** i lies on the linear tail that ends in some Output. */
  ghost predicate OnTail(nodes: seq<Node>, i: nat) {
    forall u :: Key(TailLock, u) ==> LeadsBack(nodes, i)
  }

  ghost predicate LeadsBack(nodes: seq<Node>, i: nat) {
    exists o: nat, n: nat :: o < |nodes| && nodes[o].kind.Output? && Back(nodes, o, n) == Some(i)
  }

  lemma {:induction false} TailStart(nodes: seq<Node>, o: nat)
    requires o < |nodes| && nodes[o].kind.Output?
    ensures OnTail(nodes, o)
  {
    assert Back(nodes, o, 0) == Some(o);
  }

  lemma {:induction false} TailStep(nodes: seq<Node>, i: nat)
    requires OnTail(nodes, i) && OnlyDep(nodes, i).Some?
    ensures OnTail(nodes, OnlyDep(nodes, i).value)
  {
    assert Key(TailLock, 0);
    var o: nat, n: nat :| o < |nodes| && nodes[o].kind.Output? && Back(nodes, o, n) == Some(i);
    assert Back(nodes, o, n + 1) == OnlyDep(nodes, i);
  }

  /** Everything that will be pinned is visited or waiting. */
  ghost predicate TailCovered(nodes: seq<Node>, visited: set<nat>, stack: seq<nat>) {
    && (forall o: nat :: o < |nodes| && nodes[o].kind.Output? ==> o in visited || o in stack)
    && forall i :: i in visited && OnlyDep(nodes, i).Some? ==>
                     OnlyDep(nodes, i).value in visited || OnlyDep(nodes, i).value in stack
  }

  lemma {:induction false} BackVisited(nodes: seq<Node>, visited: set<nat>, o: nat, n: nat)
    requires TailCovered(nodes, visited, []) && o in visited
    ensures Back(nodes, o, n).Some? ==> Back(nodes, o, n).value in visited
  {
    if n > 0 { BackVisited(nodes, visited, o, n - 1); }
  }

  lemma {:induction false} TailVisited(nodes: seq<Node>, visited: set<nat>, i: nat)
    requires TailCovered(nodes, visited, []) && OnTail(nodes, i)
    ensures i in visited
  {
    assert Key(TailLock, 0);
    var o: nat, n: nat :| o < |nodes| && nodes[o].kind.Output? && Back(nodes, o, n) == Some(i);
    BackVisited(nodes, visited, o, n);
  }

  /** Exactly the visited nodes without a host were pinned. */
  ghost predicate PinnedOn(nodes: seq<Node>, out: seq<Node>, visited: set<nat>, coordinator: nat) {
    && |out| == |nodes|
    && forall i :: 0 <= i < |nodes| ==>
                     out[i] == (if i in visited && nodes[i].host.None? then nodes[i].(host := Some(coordinator))
                                else nodes[i])
  }

  /** Exactly the tail nodes without a host were pinned to the coordinator. */
  ghost predicate PinnedTo(nodes: seq<Node>, out: seq<Node>, coordinator: nat) {
    && |out| == |nodes|
    && forall i :: 0 <= i < |nodes| ==>
                     out[i] == (if OnTail(nodes, i) && nodes[i].host.None? then nodes[i].(host := Some(coordinator))
                                else nodes[i])
  }

  lemma {:induction false} PinnedIsFilled(nodes: seq<Node>, out: seq<Node>, coordinator: nat)
    requires PinnedTo(nodes, out, coordinator)
    ensures OnlyHostsFilled(nodes, out)
  {
  }

  lemma {:induction false} PinnedExactly(nodes: seq<Node>, out: seq<Node>, visited: set<nat>, coordinator: nat)
    requires PinnedOn(nodes, out, visited, coordinator) && TailCovered(nodes, visited, [])
    requires forall i :: i in visited ==> OnTail(nodes, i)
    ensures PinnedTo(nodes, out, coordinator)
  {
    forall i | 0 <= i < |nodes| ensures OnTail(nodes, i) <==> i in visited {
      if OnTail(nodes, i) { TailVisited(nodes, visited, i); }
    }
  }

  /** What the walk has met so far lies on a tail. */
  ghost predicate TailsOnly(nodes: seq<Node>, visited: set<nat>, stack: seq<nat>) {
    forall x :: x in visited || x in stack ==> x < |nodes| && OnTail(nodes, x)
  }

  lemma {:induction false} Drop(nodes: seq<Node>, visited: set<nat>, rest: seq<nat>, idx: nat)
    requires TailCovered(nodes, visited, rest + [idx]) && TailsOnly(nodes, visited, rest + [idx]) && idx in visited
    ensures TailCovered(nodes, visited, rest) && TailsOnly(nodes, visited, rest)
  {
    assert forall x :: x in rest ==> x in rest + [idx];
  }

  lemma {:induction false} Visit(nodes: seq<Node>, visited: set<nat>, rest: seq<nat>, idx: nat, more: seq<nat>)
    requires TailCovered(nodes, visited, rest + [idx]) && TailsOnly(nodes, visited, rest + [idx])
    requires more == if OnlyDep(nodes, idx).Some? then [OnlyDep(nodes, idx).value] else []
    ensures TailCovered(nodes, visited + {idx}, rest + more) && TailsOnly(nodes, visited + {idx}, rest + more)
  {
    assert idx in rest + [idx];
    assert forall x :: x in rest ==> x in rest + [idx];
    if OnlyDep(nodes, idx).Some? { TailStep(nodes, idx); }
  }

  /** Walks back from every Output along only deps, pinning nodes without a host. */
  method PinConverge(nodes: seq<Node>, coordinator: nat) returns (out: seq<Node>)
    ensures PinnedTo(nodes, out, coordinator)
  {
    out := nodes;
    var stack: seq<nat> := OutputIndices(nodes);
    forall i | i in stack ensures OnTail(nodes, i) { TailStart(nodes, i); }
    var visited: set<nat> := {};
    while stack != []
      invariant TailsOnly(nodes, visited, stack) && TailCovered(nodes, visited, stack)
      invariant PinnedOn(nodes, out, visited, coordinator)
      decreases |nodes| - |visited|, |stack|
    {
      var idx, rest := stack[|stack| - 1], stack[..|stack| - 1];
      assert stack == rest + [idx];
      assert idx in stack;
      stack := rest;
      if idx in visited {
        Drop(nodes, visited, rest, idx);
        SetOfRange(visited, |nodes|);
        continue;
      }
      if out[idx].host.None? {
        out := out[idx := nodes[idx].(host := Some(coordinator))];
      }
      var d := OnlyDep(nodes, idx);
      var more := if d.Some? then [d.value] else [];
      Visit(nodes, visited, rest, idx, more);
      visited := visited + {idx};
      SetOfRange(visited, |nodes|);
      stack := rest + more;
    }
    PinnedExactly(nodes, out, visited, coordinator);
  }

  // ---------------------------------------------------------------------------
  // Freeing fan-out input slots
  // ---------------------------------------------------------------------------

  /** n reads, on the source's own machine, the fan-out slot in its `arg`. */
  predicate ReadsSlotOf(n: Node, src: Node) {
    n.kind.Func? && n.kind.outputOffset.Some? && n.kind.arg.Some? && n.host == src.host && src.id in n.deps
  }

  function ReadersOf(nodes: seq<Node>, src: Node): seq<Node> {
    FlatMap(nodes, (n: Node) => if ReadsSlotOf(n, src) then [n] else [])
  }

  function ArgOf(n: Node): nat {
    if n.kind.Func? && n.kind.arg.Some? then n.kind.arg.value else 0
  }

  function FreeNode(src: Node, readers: seq<Node>): Node
    requires src.host.Some?
  {
    Node(FreeOf(src.id, src.host.value), seq(|readers|, i requires 0 <= i < |readers| => readers[i].id),
         src.host, None, None, false, None, None,
         FreeSlots(Dedup(Ascending(seq(|readers|, i requires 0 <= i < |readers| => ArgOf(readers[i]))))))
  }

  function FreesFor(nodes: seq<Node>, src: Node): seq<Node> {
    if IsFanout(src) && ReadersOf(nodes, src) != [] then [FreeNode(src, ReadersOf(nodes, src))] else []
  }

  function WithFrees(nodes: seq<Node>): seq<Node> {
    nodes + FlatMap(nodes, (n: Node) => FreesFor(nodes, n))
  }

  method InjectFanoutFrees(nodes: seq<Node>) returns (out: seq<Node>)
    ensures out == WithFrees(nodes)
  {
    ghost var f := (n: Node) => FreesFor(nodes, n);
    var extra: seq<Node> := [];
    for i := 0 to |nodes|
      invariant extra == FlatMap(nodes[..i], f)
    {
      FlatMapStep(nodes, f, i);
      var src := nodes[i];
      if IsFanout(src) {
        ghost var g := (n: Node) => if ReadsSlotOf(n, src) then [n] else [];
        var readers: seq<Node> := [];
        for j := 0 to |nodes|
          invariant readers == FlatMap(nodes[..j], g)
        {
          FlatMapStep(nodes, g, j);
          if ReadsSlotOf(nodes[j], src) {
            readers := readers + [nodes[j]];
          }
        }
        assert nodes[..|nodes|] == nodes;
        if readers != [] {
          extra := extra + [FreeNode(src, readers)];
        }
      }
    }
    assert nodes[..|nodes|] == nodes;
    out := nodes + extra;
  }

  lemma {:induction false} InReaders(nodes: seq<Node>, src: Node, n: Node)
    ensures n in ReadersOf(nodes, src) <==> n in nodes && ReadsSlotOf(n, src)
  {
    InFlatMap(nodes, (n: Node) => if ReadsSlotOf(n, src) then [n] else [], n);
  }

  lemma {:induction false} FreeNodeDeps(src: Node, rs: seq<Node>, x: Id)
    requires src.host.Some?
    ensures x in FreeNode(src, rs).deps <==> exists n :: n in rs && n.id == x
  {
    var deps := FreeNode(src, rs).deps;
    if x in deps {
      var i :| 0 <= i < |deps| && deps[i] == x;
      assert rs[i] in rs;
    }
    if n :| n in rs && n.id == x {
      var i :| 0 <= i < |rs| && rs[i] == n;
      assert deps[i] == x;
    }
  }

  lemma {:induction false} FreeNodeSlots(src: Node, rs: seq<Node>, s: nat)
    requires src.host.Some?
    ensures s in FreeNode(src, rs).kind.stream <==> exists n :: n in rs && ArgOf(n) == s
  {
    var args := seq(|rs|, i requires 0 <= i < |rs| => ArgOf(rs[i]));
    AscendingCorrect(args);
    MultisetMembers(Ascending(args), args);
    DedupCorrect(Ascending(args));
    if s in args {
      var i :| 0 <= i < |args| && args[i] == s;
      assert rs[i] in rs;
    }
    if n :| n in rs && ArgOf(n) == s {
      var i :| 0 <= i < |rs| && rs[i] == n;
      assert args[i] == s;
    }
  }

  ghost predicate IsReader(nodes: seq<Node>, src: Node, n: Node) {
    n in nodes && ReadsSlotOf(n, src)
  }

  /** A free node waits for every same-machine reader of its source and frees exactly the slots they read. */
  lemma {:induction false} FreesAfterReaders(nodes: seq<Node>, src: Node)
    requires IsFanout(src)
    ensures FreesFor(nodes, src) == [] <==> forall n :: !IsReader(nodes, src, n)
    ensures forall f :: f in FreesFor(nodes, src) ==>
                          && f.host == src.host && f.kind.FreeSlots?
                          && (forall x :: x in f.deps <==> exists n :: IsReader(nodes, src, n) && n.id == x)
                          && (forall s :: s in f.kind.stream <==> exists n :: IsReader(nodes, src, n) && ArgOf(n) == s)
  {
    var rs := ReadersOf(nodes, src);
    forall n ensures n in rs <==> IsReader(nodes, src, n) { InReaders(nodes, src, n); }
    if rs != [] {
      assert rs[0] in rs;
      var f := FreeNode(src, rs);
      forall x ensures x in f.deps <==> exists n :: IsReader(nodes, src, n) && n.id == x {
        FreeNodeDeps(src, rs, x);
      }
      forall s ensures s in f.kind.stream <==> exists n :: IsReader(nodes, src, n) && ArgOf(n) == s {
        if s >= 0 { FreeNodeSlots(src, rs, s); }
      }
    }
  }

  /** Where an injected node comes from. */
  lemma {:induction false} FreeOrigin(nodes: seq<Node>, c: Node) returns (src: Node)
    requires c in WithFrees(nodes) && c !in nodes
    ensures src in nodes && IsFanout(src) && c.id == FreeOf(src.id, src.host.value)
    ensures forall d :: d in c.deps ==> d in Ids(nodes)
  {
    var f := (n: Node) => FreesFor(nodes, n);
    InFlatMap(nodes, f, c);
    src :| src in nodes && c in f(src);
    FreesAfterReaders(nodes, src);
  }

  lemma {:induction false} FreesMinted(nodes: seq<Node>)
    requires MintedBefore(nodes, 4)
    ensures forall c :: c in WithFrees(nodes) ==>
                          (c in nodes || c.id.FreeOf?) && forall d :: d in c.deps ==> Generation(d) < 4
  {
    forall c | c in WithFrees(nodes)
      ensures (c in nodes || c.id.FreeOf?) && forall d :: d in c.deps ==> Generation(d) < 4
    {
      if c !in nodes {
        var src := FreeOrigin(nodes, c);
        forall d | d in c.deps ensures Generation(d) < 4 {
          var n :| n in nodes && n.id == d;
        }
      }
    }
  }

  /** Free nodes have no dependents, so they close no cycle, also among nodes that are linked otherwise. */
  lemma {:induction false} FreesKeepOrder(nodes: seq<Node>, links: Graph<Id>)
    requires MintedBefore(nodes, 4) && forall e :: e in links ==> Generation(e.0) < 4
    ensures MintedBefore(WithFrees(nodes), 5) && nodes <= WithFrees(nodes)
    ensures Acyclic(Edges(nodes) + links) ==> Acyclic(Edges(WithFrees(nodes)) + links)
  {
    var out := WithFrees(nodes);
    FreesMinted(nodes);
    var g, h := Edges(nodes) + links, Edges(out) + links;
    forall f | f in h ensures Generation(f.0) < 4 {
      if f !in links { var c, d :| c in out && d in c.deps && f == (d, c.id); }
    }
    forall e | e in h ensures e in g || Generation(e.1) == 4 {
      if e !in links { var c, d :| c in out && d in c.deps && e == (d, c.id); }
    }
    if Acyclic(g) { AddSinks(g, h); }
  }

  lemma {:induction false} FreesKeepDistinct(nodes: seq<Node>)
    requires MintedBefore(nodes, 4) && DistinctIds(nodes)
    ensures DistinctIds(WithFrees(nodes))
  {
    var key, owner := (n: Node) => n.id, (x: Id) => if x.FreeOf? then x.source else x;
    var f := (n: Node) => FreesFor(nodes, n);
    FlatMapDistinct(nodes, f, key, key, owner);
    var extra := FlatMap(nodes, f);
    forall i, j | 0 <= i < |nodes| && 0 <= j < |extra| ensures key(nodes[i]) != key(extra[j]) {
      InFlatMap(nodes, f, extra[j]);
      assert nodes[i] in nodes;
    }
  }
}
