/**
  Finite directed graphs as edge sets, and the closure facts every partitioner
  pass relies on.  An edge (u, v) says "u must run before v".
 */
module Graphs {
  type Graph<V(==)> = set<(V, V)>

  /** A walk follows edges; a single vertex is a walk. */
  ghost predicate IsWalk<V>(g: Graph<V>, w: seq<V>) {
    |w| >= 1 && forall i :: 0 <= i < |w| - 1 ==> (w[i], w[i + 1]) in g
  }

  ghost predicate WalkFromTo<V>(g: Graph<V>, w: seq<V>, u: V, v: V) {
    IsWalk(g, w) && w[0] == u && w[|w| - 1] == v
  }

  /** v can be reached from u (u itself included). */
  ghost predicate Reaches<V(!new)>(g: Graph<V>, u: V, v: V) {
    exists w: seq<V> :: WalkFromTo(g, w, u, v)
  }

  /** v can be reached from u by at least one edge. */
  ghost predicate Precedes<V(!new)>(g: Graph<V>, u: V, v: V) {
    exists w: seq<V> :: WalkFromTo(g, w, u, v) && |w| >= 2
  }

  /** No walk of at least one edge returns to where it began. */
  ghost predicate Acyclic<V(!new)>(g: Graph<V>) {
    forall v :: !Precedes(g, v, v)
  }

  lemma {:induction false} ReachesSelf<V(!new)>(g: Graph<V>, v: V)
    ensures Reaches(g, v, v)
  {
    assert WalkFromTo(g, [v], v, v);
  }

  lemma {:induction false} EdgePrecedes<V(!new)>(g: Graph<V>, u: V, v: V)
    requires (u, v) in g
    ensures Precedes(g, u, v)
  {
    assert WalkFromTo(g, [u, v], u, v);
  }

  lemma {:induction false} JoinWalks<V(!new)>(g: Graph<V>, w: seq<V>, x: seq<V>, u: V, v: V, t: V)
    requires WalkFromTo(g, w, u, v) && WalkFromTo(g, x, v, t)
    ensures WalkFromTo(g, w + x[1..], u, t)
  {
    var j := w + x[1..];
    forall i | 0 <= i < |j| - 1
      ensures (j[i], j[i + 1]) in g
    {
      if i >= |w| - 1 {
        assert j[i] == x[i - (|w| - 1)];
      }
    }
  }

  lemma {:induction false} ReachesTrans<V(!new)>(g: Graph<V>, u: V, v: V, t: V)
    requires Reaches(g, u, v) && Reaches(g, v, t)
    ensures Reaches(g, u, t)
    ensures Precedes(g, u, v) || Precedes(g, v, t) ==> Precedes(g, u, t)
  {
    var w: seq<V> :| WalkFromTo(g, w, u, v) && (Precedes(g, u, v) ==> |w| >= 2);
    var x: seq<V> :| WalkFromTo(g, x, v, t) && (Precedes(g, v, t) ==> |x| >= 2);
    JoinWalks(g, w, x, u, v, t);
  }

  lemma {:induction false} PrecedesReaches<V(!new)>(g: Graph<V>, u: V, v: V)
    ensures Precedes(g, u, v) ==> Reaches(g, u, v)
    ensures Reaches(g, u, v) ==> u == v || Precedes(g, u, v)
  {
    if w: seq<V> :| WalkFromTo(g, w, u, v) && u != v {
      assert |w| >= 2;
    }
  }

  lemma {:induction false} SubgraphReaches<V(!new)>(g: Graph<V>, h: Graph<V>, u: V, v: V)
    requires g <= h
    ensures Reaches(g, u, v) ==> Reaches(h, u, v)
    ensures Precedes(g, u, v) ==> Precedes(h, u, v)
  {
    if w: seq<V> :| WalkFromTo(g, w, u, v) {
      assert WalkFromTo(h, w, u, v);
    }
    if w: seq<V> :| WalkFromTo(g, w, u, v) && |w| >= 2 {
      assert WalkFromTo(h, w, u, v);
    }
  }

  lemma {:induction false} SubgraphAcyclic<V(!new)>(g: Graph<V>, h: Graph<V>)
    requires g <= h && Acyclic(h)
    ensures Acyclic(g)
  {
    forall v ensures !Precedes(g, v, v) { SubgraphReaches(g, h, v, v); }
  }

  // ---------------------------------------------------------------------------
  // Projection: how a rewriting pass keeps acyclicity
  // ---------------------------------------------------------------------------

  /** Every edge of g projects to progress in h, or stays put while a rank grows. */
  ghost predicate ProjectsInto<U(!new), V(!new)>(g: Graph<U>, h: Graph<V>, proj: U -> V, rank: U -> int) {
    forall e :: e in g ==>
                  Precedes(h, proj(e.0), proj(e.1)) || (proj(e.0) == proj(e.1) && rank(e.0) < rank(e.1))
  }

  lemma {:induction false} ProjectWalk<U(!new), V(!new)>(
    g: Graph<U>, h: Graph<V>, proj: U -> V, rank: U -> int, w: seq<U>)
    requires ProjectsInto(g, h, proj, rank) && IsWalk(g, w) && |w| >= 2
    ensures var u, v := w[0], w[|w| - 1];
            Precedes(h, proj(u), proj(v)) || (proj(u) == proj(v) && rank(u) < rank(v))
    decreases |w|
  {
    var u, x, v := w[0], w[|w| - 2], w[|w| - 1];
    assert (x, v) in g;
    if |w| > 2 {
      ProjectWalk(g, h, proj, rank, w[..|w| - 1]);
      if Precedes(h, proj(u), proj(x)) && Precedes(h, proj(x), proj(v)) {
        PrecedesReaches(h, proj(u), proj(x));
        PrecedesReaches(h, proj(x), proj(v));
        ReachesTrans(h, proj(u), proj(x), proj(v));
      }
    }
  }

  /** A graph that projects into an acyclic graph is acyclic. */
  lemma {:induction false} ProjectionAcyclic<U(!new), V(!new)>(g: Graph<U>, h: Graph<V>, proj: U -> V, rank: U -> int)
    requires ProjectsInto(g, h, proj, rank) && Acyclic(h)
    ensures Acyclic(g)
  {
    forall v ensures !Precedes(g, v, v) {
      if w: seq<U> :| WalkFromTo(g, w, v, v) && |w| >= 2 {
        ProjectWalk(g, h, proj, rank, w);
      }
    }
  }

  // ---------------------------------------------------------------------------
  // Growing a graph
  // ---------------------------------------------------------------------------

  /** A walk in g + (u, v) either avoids the new edge or passes through it. */
  lemma {:induction false} WalkWithNewEdge<V(!new)>(g: Graph<V>, u: V, v: V, w: seq<V>)
    requires IsWalk(g + {(u, v)}, w) && |w| >= 2
    ensures Precedes(g, w[0], w[|w| - 1])
            || (Reaches(g, w[0], u) && Reaches(g, v, w[|w| - 1]))
    decreases |w|
  {
    var a, x, b := w[0], w[|w| - 2], w[|w| - 1];
    assert (x, b) in g + {(u, v)};
    if (x, b) in g {
      EdgePrecedes(g, x, b);
      PrecedesReaches(g, x, b);
    }
    ReachesSelf(g, v);
    if |w| == 2 {
      ReachesSelf(g, u);
    } else {
      WalkWithNewEdge(g, u, v, w[..|w| - 1]);
      PrecedesReaches(g, a, x);
      if (x, b) in g {
        if Precedes(g, a, x) {
          ReachesTrans(g, a, x, b);
        } else {
          ReachesTrans(g, v, x, b);
        }
      }
    }
  }

  /** An edge u -> v closes a cycle exactly when v already reaches u. */
  lemma {:induction false} AddEdge<V(!new)>(g: Graph<V>, u: V, v: V)
    requires Acyclic(g)
    ensures Acyclic(g + {(u, v)}) <==> !Reaches(g, v, u)
  {
    var h := g + {(u, v)};
    if Reaches(g, v, u) {
      SubgraphReaches(g, h, v, u);
      EdgePrecedes(h, u, v);
      PrecedesReaches(h, u, v);
      ReachesTrans(h, v, u, v);
    } else {
      forall a ensures !Precedes(h, a, a) {
        if w: seq<V> :| WalkFromTo(h, w, a, a) && |w| >= 2 {
          WalkWithNewEdge(g, u, v, w);
          if Reaches(g, a, u) && Reaches(g, v, a) {
            ReachesTrans(g, v, a, u);
          }
        }
      }
    }
  }

  /** Edges into vertices that nothing leaves cannot lie on a cycle. */
  lemma {:induction false} AddSinks<V(!new)>(g: Graph<V>, h: Graph<V>)
    requires Acyclic(g)
    requires forall e :: e in h ==> e in g || forall f :: f in h ==> f.0 != e.1
    ensures Acyclic(h)
  {
    forall a ensures !Precedes(h, a, a) {
      if w: seq<V> :| WalkFromTo(h, w, a, a) && |w| >= 2 {
        forall i | 0 <= i < |w| - 1
          ensures (w[i], w[i + 1]) in g
        {
          var e := (w[i], w[i + 1]);
          assert e in h;
          var f := if i + 2 < |w| then (w[i + 1], w[i + 2]) else (w[0], w[1]);
          assert f in h && f.0 == e.1;
        }
        assert WalkFromTo(g, w, a, a);
        assert Precedes(g, a, a);
      }
    }
  }

  // ---------------------------------------------------------------------------
  // Finite graphs: no sources left means a cycle
  // ---------------------------------------------------------------------------

  ghost predicate HasPredecessorIn<V(!new)>(g: Graph<V>, s: set<V>, x: V) {
    exists y :: y in s && (y, x) in g
  }

  /** A backwards walk of any length inside a set where every vertex has a predecessor. */
  lemma {:induction false} BackwardWalk<V(!new)>(g: Graph<V>, s: set<V>, v: V, n: nat) returns (w: seq<V>)
    requires v in s && forall x :: x in s ==> HasPredecessorIn(g, s, x)
    ensures IsWalk(g, w) && |w| == n + 1 && (forall x :: x in w ==> x in s)
    decreases n
  {
    if n == 0 {
      w := [v];
    } else {
      var x := BackwardWalk(g, s, v, n - 1);
      assert HasPredecessorIn(g, s, x[0]);
      var y :| y in s && (y, x[0]) in g;
      w := [y] + x;
    }
  }

  /** Pigeonhole: a sequence longer than the set it draws from repeats. */
  lemma {:induction false} Repeats<V(!new)>(w: seq<V>, s: set<V>) returns (i: nat, j: nat)
    requires |w| > |s| && forall x :: x in w ==> x in s
    ensures i < j < |w| && w[i] == w[j]
    decreases |w|
  {
    var last := w[|w| - 1];
    if k :| 0 <= k < |w| - 1 && w[k] == last {
      i, j := k, |w| - 1;
    } else {
      i, j := Repeats(w[..|w| - 1], s - {last});
    }
  }

  /** In an acyclic graph every non-empty finite set has a vertex with no predecessor in it. */
  lemma {:induction false} SourceExists<V(!new)>(g: Graph<V>, s: set<V>) returns (v: V)
    requires Acyclic(g) && s != {}
    ensures v in s && !HasPredecessorIn(g, s, v)
  {
    if forall x :: x in s ==> HasPredecessorIn(g, s, x) {
      v :| v in s;
      var w := BackwardWalk(g, s, v, |s|);
      var i, j := Repeats(w, s);
      assert WalkFromTo(g, w[i..j + 1], w[i], w[i]);
      assert Precedes(g, w[i], w[i]);
    } else {
      v :| v in s && !HasPredecessorIn(g, s, v);
    }
  }

  // ---------------------------------------------------------------------------
  // Linear orders
  // ---------------------------------------------------------------------------

  /** w lists its vertices once each, every one after its predecessors. */
  ghost predicate IsLinear<V(!new)>(g: Graph<V>, w: seq<V>) {
    && (forall i, j :: 0 <= i < j < |w| ==> w[i] != w[j])
    && forall i, u :: 0 <= i < |w| && (u, w[i]) in g ==> u in w[..i]
  }

  /** A finite acyclic graph has a vertex without predecessors. */
  lemma {:induction false} Source<V(!new)>(g: Graph<V>, vs: set<V>) returns (v: V)
    requires Acyclic(g) && vs != {}
    ensures v in vs && forall u :: u in vs ==> (u, v) !in g
    decreases |vs|
  {
    v :| v in vs;
    var before := set u | u in vs && Precedes(g, u, v);
    assert v !in before && before <= vs - {v};
    assert |before| <= |vs - {v}| < |vs| by {
      SubsetBound(before, vs - {v});
      assert vs == (vs - {v}) + {v};
    }
    if before == {} {
      forall u | u in vs ensures (u, v) !in g {
        if (u, v) in g { EdgePrecedes(g, u, v); }
      }
    } else {
      var w := v;
      v := Source(g, before);
      forall u | u in vs ensures (u, v) !in g {
        if (u, v) in g {
          EdgePrecedes(g, u, v);
          PrecedesReaches(g, u, v);
          PrecedesReaches(g, v, w);
          ReachesTrans(g, u, v, w);
        }
      }
    }
  }

  lemma {:induction false} SubsetBound<V>(a: set<V>, b: set<V>)
    requires a <= b
    ensures |a| <= |b|
  {
    if a != {} {
      var x :| x in a;
      SubsetBound(a - {x}, b - {x});
    }
  }

  /** Every finite acyclic graph has a linear order of all its vertices. */
  lemma {:induction false} Linearise<V(!new)>(g: Graph<V>, vs: set<V>, done: seq<V>) returns (w: seq<V>)
    requires Acyclic(g) && IsLinear(g, done) && (forall x :: x in done ==> x !in vs)
    requires forall e :: e in g && e.1 in vs ==> e.0 in vs || e.0 in done
    ensures IsLinear(g, w) && forall x :: x in w <==> x in vs || x in done
    decreases |vs|
  {
    if vs == {} {
      w := done;
    } else {
      var v := Source(g, vs);
      var next := done + [v];
      forall i, u | 0 <= i < |next| && (u, next[i]) in g ensures u in next[..i] {
        if i < |done| {
          assert next[..i] == done[..i];
        } else {
          assert next[..i] == done;
        }
      }
      w := Linearise(g, vs - {v}, next);
    }
  }

  /** A linear order of all vertices shows that there is no cycle. */
  lemma {:induction false} LinearAcyclic<V(!new)>(g: Graph<V>, w: seq<V>)
    requires IsLinear(g, w) && forall e :: e in g ==> e.1 in w
    ensures Acyclic(g)
  {
    var rank := (v: V) => if v in w then Place(w, v) else 0;
    var proj := (v: V) => 0;
    forall e | e in g ensures rank(e.0) < rank(e.1) {
      var i := Place(w, e.1);
      assert w[i] == e.1 && e.0 in w[..i];
      var j :| 0 <= j < i && w[..i][j] == e.0;
      assert w[j] == e.0;
    }
    var none: Graph<int> := {};
    NoEdges(none);
    ProjectionAcyclic(g, none, proj, rank);
  }

  lemma {:induction false} FirstEdge<V>(g: Graph<V>, w: seq<V>)
    requires IsWalk(g, w) && |w| >= 2
    ensures (w[0], w[1]) in g
  {
  }

  lemma {:induction false} NoEdges<V(!new)>(g: Graph<V>)
    requires g == {}
    ensures Acyclic(g)
  {
    forall v ensures !Precedes(g, v, v) {
      if w: seq<V> :| WalkFromTo(g, w, v, v) && |w| >= 2 { FirstEdge(g, w); }
    }
  }

  ghost function Place<V(!new)>(w: seq<V>, v: V): (i: nat)
    requires v in w
    ensures i < |w| && w[i] == v
  {
    var i :| 0 <= i < |w| && w[i] == v;
    i
  }

  /** In a linear order whatever precedes a listed vertex comes before it. */
  lemma {:induction false} LinearPrecedes<V(!new)>(g: Graph<V>, w: seq<V>, i: nat, walk: seq<V>)
    requires IsLinear(g, w) && i < |w| && IsWalk(g, walk) && |walk| >= 2 && walk[|walk| - 1] == w[i]
    ensures walk[0] in w[..i]
    decreases |walk|
  {
    var x := walk[|walk| - 2];
    assert (x, w[i]) in g;
    var j :| 0 <= j < i && w[..i][j] == x;
    if |walk| > 2 {
      LinearPrecedes(g, w, j, walk[..|walk| - 1]);
      assert w[..j] <= w[..i];
    }
  }
}
