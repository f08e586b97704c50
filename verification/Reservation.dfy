/**
  Exclusive node reservation by concurrent placed jobs
  (NodeAgent/agent/src/coordinator.rs, NodeAgent/agent/src/placed.rs).
 */
module Reservation {
  import opened Prelude

  type NodeId = nat

  ghost predicate Distinct(s: seq<NodeId>) {
    forall i, j :: 0 <= i < j < |s| ==> s[i] != s[j]
  }

  // ---------------------------------------------------------------------------
  // Placement order and the choice of a node
  // ---------------------------------------------------------------------------

  /** A permutation of the live nodes with the coordinator, if live, last. */
  ghost predicate IsPlacementOrder(order: seq<NodeId>, live: seq<NodeId>, coordinator: NodeId) {
    && Distinct(order) && (forall n :: n in order <==> n in live)
    && (coordinator in live ==> order != [] && order[|order| - 1] == coordinator)
  }

  /** The scored live workers come first, in score order. */
  ghost predicate ScoredFirst(order: seq<NodeId>, scored: seq<NodeId>, live: seq<NodeId>, coordinator: NodeId) {
    var first := LiveWorkers(scored, live, coordinator);
    first <= order
  }

  function LiveWorkers(scored: seq<NodeId>, live: seq<NodeId>, coordinator: NodeId): seq<NodeId> {
    if scored == [] then []
    else
      var n := scored[|scored| - 1];
      LiveWorkers(scored[..|scored| - 1], live, coordinator) + (if n in live && n != coordinator then [n] else [])
  }

  /** The first free node of the order. */
  function FirstFree(order: seq<NodeId>, reserved: set<NodeId>): (r: Option<NodeId>)
    ensures r.Some? ==> r.value in order && r.value !in reserved
    ensures r.None? <==> forall n :: n in order ==> n in reserved
  {
    if order == [] then None
    else if order[0] !in reserved then Some(order[0])
    else FirstFree(order[1..], reserved)
  }

  function Pick(prefer: Option<NodeId>, order: seq<NodeId>, reserved: set<NodeId>): Option<NodeId> {
    if prefer.Some? && prefer.value in order && prefer.value !in reserved then prefer
    else FirstFree(order, reserved)
  }

  /** A node is found exactly when one is free, and it is free and live; the preferred one goes first. */
  lemma {:induction false} PickSpec(prefer: Option<NodeId>, order: seq<NodeId>, reserved: set<NodeId>)
    ensures Pick(prefer, order, reserved).Some? <==> exists n :: n in order && n !in reserved
    ensures var p := Pick(prefer, order, reserved); p.Some? ==> p.value in order && p.value !in reserved
    ensures prefer.Some? && prefer.value in order && prefer.value !in reserved ==>
              Pick(prefer, order, reserved) == prefer
  {
  }

  /** The coordinator runs a job only if it was asked for or every other node is busy. */
  lemma {:induction false} CoordinatorLast(order: seq<NodeId>, reserved: set<NodeId>, coordinator: NodeId)
    requires Distinct(order) && order != [] && order[|order| - 1] == coordinator
    requires FirstFree(order, reserved) == Some(coordinator)
    ensures forall n :: n in order && n != coordinator ==> n in reserved
  {
    if |order| > 1 {
      assert order[0] != order[|order| - 1];
      CoordinatorLast(order[1..], reserved, coordinator);
    }
  }

  lemma {:induction false} DistinctSnoc(s: seq<NodeId>, n: NodeId)
    requires Distinct(s) && n !in s
    ensures Distinct(s + [n])
  {
    assert forall i :: 0 <= i < |s| ==> s[i] in s;
  }

  lemma {:induction false} LiveWorkersSpec(scored: seq<NodeId>, live: seq<NodeId>, coordinator: NodeId)
    requires Distinct(scored)
    ensures Distinct(LiveWorkers(scored, live, coordinator))
    ensures forall n :: n in LiveWorkers(scored, live, coordinator) <==> n in scored && n in live && n != coordinator
  {
    if scored != [] {
      var init, n := scored[..|scored| - 1], scored[|scored| - 1];
      LiveWorkersSpec(init, live, coordinator);
      assert scored == init + [n] && n !in init;
      if n in live && n != coordinator { DistinctSnoc(LiveWorkers(init, live, coordinator), n); }
    }
  }

  class CoordinatorState {
    var scored: seq<NodeId>
    var reserved: set<NodeId>

    method PlacementOrder(live: seq<NodeId>, coordinator: NodeId) returns (order: seq<NodeId>)
      requires Distinct(scored) && Distinct(live)
      ensures IsPlacementOrder(order, live, coordinator) && ScoredFirst(order, scored, live, coordinator)
    {
      order := [];
      for i := 0 to |scored|
        invariant order == LiveWorkers(scored[..i], live, coordinator)
      {
        assert scored[..i + 1][..i] == scored[..i];
        if scored[i] in live && scored[i] != coordinator { order := order + [scored[i]]; }
      }
      assert scored[..|scored|] == scored;
      LiveWorkersSpec(scored, live, coordinator);
      order := AddUnscored(order, live, coordinator);
      if coordinator in live {
        DistinctSnoc(order, coordinator);
        order := order + [coordinator];
      }
    }

    method AddUnscored(first: seq<NodeId>, live: seq<NodeId>, coordinator: NodeId) returns (order: seq<NodeId>)
      requires Distinct(first) && forall n :: n in first ==> n in live && n != coordinator
      ensures first <= order && Distinct(order)
      ensures forall n :: n in order <==> n in live && n != coordinator
    {
      order := first;
      for i := 0 to |live|
        invariant first <= order && Distinct(order)
        invariant forall n :: n in order ==> n in live && n != coordinator
        invariant forall n :: n in live[..i] && n != coordinator ==> n in order
      {
        if live[i] != coordinator && live[i] !in order {
          DistinctSnoc(order, live[i]);
          order := order + [live[i]];
        }
      }
    }

    method ReserveNode(prefer: Option<NodeId>, order: seq<NodeId>) returns (r: Option<NodeId>)
      modifies this`reserved
      ensures r == Pick(prefer, order, old(reserved))
      ensures reserved == if r.Some? then old(reserved) + {r.value} else old(reserved)
    {
      if prefer.Some? && prefer.value in order && prefer.value !in reserved {
        r := prefer;
      } else {
        r := None;
        for i := 0 to |order|
          invariant r.None? && FirstFree(order, reserved) == FirstFree(order[i..], reserved)
          invariant reserved == old(reserved)
        {
          if order[i] !in reserved {
            r := Some(order[i]);
            break;
          }
        }
        if r.None? { return; }
      }
      reserved := reserved + {r.value};
    }

    method ReleaseNode(node: NodeId)
      modifies this`reserved
      ensures reserved == old(reserved) - {node}
    {
      reserved := reserved - {node};
    }
  }

  // ---------------------------------------------------------------------------
  // Placed jobs as a state machine
  // ---------------------------------------------------------------------------

  datatype Outcome = Finished(success: bool) | Failed

  /**
    A placed-job thread: waiting in the retry loop, holding a node while it dispatches, holding
    it with the dispatch over, or done. `ran` is the node it was given, if any.
   */
  datatype Job =
    | Waiting(live: seq<NodeId>, prefer: Option<NodeId>)
    | Dispatching(node: NodeId)
    | Dispatched(node_: NodeId, outcome: Outcome)
    | Done(result: Outcome, ran: Option<NodeId>)

  datatype System = System(coordinator: NodeId, reserved: set<NodeId>, jobs: seq<Job>)

  /** Steps taken under the state lock or by one thread alone; scores may change between any two. */
  datatype Step =
    | Submit(live: seq<NodeId>, prefer: Option<NodeId>)
    | TryReserve(j: nat, order: seq<NodeId>)
    | QueueTimeout(j: nat)
    | DispatchEnds(j: nat, outcome: Outcome)
    | Release(j: nat)

  function Held(job: Job): Option<NodeId> {
    match job
    case Waiting(_, _) => None
    case Dispatching(n) => Some(n)
    case Dispatched(n, _) => Some(n)
    case Done(_, _) => None
  }

  ghost predicate Enabled(s: System, step: Step) {
    match step
    case Submit(live, _) => Distinct(live)
    case TryReserve(j, order) =>
      j < |s.jobs| && s.jobs[j].Waiting? && IsPlacementOrder(order, s.jobs[j].live, s.coordinator)
    case QueueTimeout(j) => j < |s.jobs| && s.jobs[j].Waiting?
    case DispatchEnds(j, _) => j < |s.jobs| && s.jobs[j].Dispatching?
    case Release(j) => j < |s.jobs| && s.jobs[j].Dispatched?
  }

  ghost function Apply(s: System, step: Step): System
    requires Enabled(s, step)
  {
    match step
    case Submit(live, prefer) => s.(jobs := s.jobs + [Waiting(live, prefer)])
    case TryReserve(j, order) =>
      var pick := Pick(s.jobs[j].prefer, order, s.reserved);
      if pick.None? then s
      else System(s.coordinator, s.reserved + {pick.value}, s.jobs[j := Dispatching(pick.value)])
    case QueueTimeout(j) => s.(jobs := s.jobs[j := Done(Finished(false), None)])
    case DispatchEnds(j, outcome) => s.(jobs := s.jobs[j := Dispatched(s.jobs[j].node, outcome)])
    case Release(j) =>
      var n := s.jobs[j].node_;
      System(s.coordinator, s.reserved - {n}, s.jobs[j := Done(s.jobs[j].outcome, Some(n))])
  }

  /** The reserved set is exactly what the jobs hold, and no two jobs hold the same node. */
  ghost predicate Exclusive(s: System) {
    && (forall n :: n in s.reserved <==> exists j :: 0 <= j < |s.jobs| && Held(s.jobs[j]) == Some(n))
    && forall i, j :: 0 <= i < j < |s.jobs| && Held(s.jobs[i]).Some? ==> Held(s.jobs[i]) != Held(s.jobs[j])
  }

  /** Replacing job j, given what it held and holds. */
  lemma {:induction false} Replace(s: System, j: nat, job: Job, reserved: set<NodeId>)
    requires Exclusive(s) && j < |s.jobs|
    requires Held(job).Some? ==> Held(job).value !in s.reserved || Held(job) == Held(s.jobs[j])
    requires forall n :: n in reserved <==> (n in s.reserved && Held(s.jobs[j]) != Some(n)) || Held(job) == Some(n)
    ensures Exclusive(System(s.coordinator, reserved, s.jobs[j := job]))
  {
    var t := System(s.coordinator, reserved, s.jobs[j := job]);
    forall n ensures n in t.reserved <==> exists i :: 0 <= i < |t.jobs| && Held(t.jobs[i]) == Some(n) {
      if n in t.reserved {
        if Held(job) == Some(n) {
          assert Held(t.jobs[j]) == Some(n);
        } else {
          var i :| 0 <= i < |s.jobs| && Held(s.jobs[i]) == Some(n);
          assert Held(t.jobs[i]) == Some(n);
        }
      }
    }
  }

  lemma {:induction false} StepExclusive(s: System, step: Step)
    requires Exclusive(s) && Enabled(s, step)
    ensures Exclusive(Apply(s, step))
  {
    var t := Apply(s, step);
    match step
    case Submit(live, prefer) =>
      forall n ensures n in t.reserved <==> exists j :: 0 <= j < |t.jobs| && Held(t.jobs[j]) == Some(n) {
        if n in s.reserved {
          var i :| 0 <= i < |s.jobs| && Held(s.jobs[i]) == Some(n);
          assert Held(t.jobs[i]) == Some(n);
        }
      }
    case TryReserve(j, order) =>
      var pick := Pick(s.jobs[j].prefer, order, s.reserved);
      if pick.Some? { Replace(s, j, Dispatching(pick.value), s.reserved + {pick.value}); }
    case QueueTimeout(j) => Replace(s, j, Done(Finished(false), None), s.reserved);
    case DispatchEnds(j, outcome) => Replace(s, j, Dispatched(s.jobs[j].node, outcome), s.reserved);
    case Release(j) =>
      var n := s.jobs[j].node_;
      Replace(s, j, Done(s.jobs[j].outcome, Some(n)), s.reserved - {n});
  }

  /** The system after the steps, if each is enabled where it is taken. */
  ghost function Run(coordinator: NodeId, steps: seq<Step>): Option<System> {
    if steps == [] then Some(System(coordinator, {}, []))
    else
      var before := Run(coordinator, steps[..|steps| - 1]);
      var last := steps[|steps| - 1];
      if before.None? || !Enabled(before.value, last) then None else Some(Apply(before.value, last))
  }

  /** Over every interleaving of placed-job threads the reservation stays exclusive. */
  lemma {:induction false} RunExclusive(coordinator: NodeId, steps: seq<Step>)
    ensures var s := Run(coordinator, steps); s.Some? ==> Exclusive(s.value)
  {
    if steps != [] {
      var before := Run(coordinator, steps[..|steps| - 1]);
      RunExclusive(coordinator, steps[..|steps| - 1]);
      if Run(coordinator, steps).Some? { StepExclusive(before.value, steps[|steps| - 1]); }
    }
  }

  /** Once every job has terminated, whatever its outcome, no node is reserved. */
  lemma {:induction false} AllReleased(coordinator: NodeId, steps: seq<Step>)
    requires var s := Run(coordinator, steps); s.Some? && forall job :: job in s.value.jobs ==> job.Done?
    ensures Run(coordinator, steps).value.reserved == {}
  {
    RunExclusive(coordinator, steps);
    var s := Run(coordinator, steps).value;
    forall j | 0 <= j < |s.jobs| ensures Held(s.jobs[j]) == None {
      assert s.jobs[j] in s.jobs;
    }
  }

  /** A waiting job gets a node on its next try exactly when one of its live nodes is held by no job. */
  lemma {:induction false} ReserveSucceeds(coordinator: NodeId, steps: seq<Step>, j: nat, order: seq<NodeId>)
    requires var s := Run(coordinator, steps); s.Some? && Enabled(s.value, TryReserve(j, order))
    ensures var s := Run(coordinator, steps).value;
            Apply(s, TryReserve(j, order)).jobs[j].Dispatching? <==>
            exists n :: n in s.jobs[j].live && forall i :: 0 <= i < |s.jobs| ==> Held(s.jobs[i]) != Some(n)
  {
    RunExclusive(coordinator, steps);
    var s := Run(coordinator, steps).value;
    PickSpec(s.jobs[j].prefer, order, s.reserved);
    if n :| n in order && n !in s.reserved {
      assert n in s.jobs[j].live && forall i :: 0 <= i < |s.jobs| ==> Held(s.jobs[i]) != Some(n);
    } else {
      forall n | n in s.jobs[j].live ensures exists i :: 0 <= i < |s.jobs| && Held(s.jobs[i]) == Some(n) {
        assert n in order && n in s.reserved;
      }
    }
  }
}
