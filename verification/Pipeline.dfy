/**
  The software pipeline: on tick t stage k works on round t - k, all active stages run
  concurrently, and each consumer bounds its read by the watermark the host published before
  the tick (Executor/host/src/runtime/dag_runner/pipeline.rs, Executor/py_guest/python/shm.py).
 */
module Pipeline {
  import opened Prelude

  // ---------------------------------------------------------------------------
  // What the pipeline is for
  // ---------------------------------------------------------------------------

  /** Stage 0 produces `source(round)`; stage k > 0 maps one batch to another by stages[k - 1]. */
  datatype Program<!R> = Program(rounds: nat, source: nat -> seq<R>, stages: seq<seq<R> -> seq<R>>)

  function Depth<R>(p: Program<R>): nat { |p.stages| + 1 }

  /** The batch of stage k for round r when rounds run one after the other. */
  function Batch<R>(p: Program<R>, k: nat, r: nat): seq<R>
    requires k < Depth(p)
  {
    if k == 0 then p.source(r) else p.stages[k - 1](Batch(p, k - 1, r))
  }

  /** The batches of stage k for rounds 0..n, concatenated. */
  function Committed<R>(p: Program<R>, k: nat, n: nat): seq<R>
    requires k < Depth(p)
  {
    if n == 0 then [] else Committed(p, k, n - 1) + Batch(p, k, n - 1)
  }

  predicate Active<R>(p: Program<R>, k: nat, t: nat) { k <= t < p.rounds + k }

  /** The number of rounds stage k has completed before tick t. */
  function Completed<R>(p: Program<R>, k: nat, t: nat): nat {
    if t < k then 0 else if t - k < p.rounds then t - k else p.rounds
  }

  function Ticks<R>(p: Program<R>): nat { p.rounds + Depth(p) - 1 }

  // ---------------------------------------------------------------------------
  // The state machine
  // ---------------------------------------------------------------------------

  /** A worker inside a tick; Reading holds what its chain walk returned. */
  datatype Worker<R> = Idle | Called | Reading(snapshot: seq<R>) | Appending(todo: seq<R>, end: nat) | Finished

  /**
    A stage: the slot it writes, the cursor and watermark of the slot it reads, its worker,
    and the batches it has read so far.
   */
  datatype Stage<R> = Stage(out: seq<R>, cursor: nat, watermark: nat, worker: Worker<R>, taken: seq<seq<R>>)

  datatype State<R> = State(stages: seq<Stage<R>>, tick: nat, running: bool)

  datatype Step = Publish | Read(k: nat) | Take(k: nat) | Append(k: nat) | SetCursor(k: nat) | Gather

  /** The bounds of a consumer's read window; watermark 0 means unset. */
  function Window(cursor: nat, watermark: nat, total: nat): (w: (nat, nat))
    ensures w.0 <= w.1 <= total
  {
    var end := if watermark == 0 then total else if watermark - 1 < total then watermark - 1 else total;
    (if cursor < end then cursor else end, end)
  }

  function Initial<R>(p: Program<R>): State<R> {
    State(seq(Depth(p), i => Stage([], 0, 0, Idle, [])), 0, false)
  }

  /**
    The host publishes, for every active stage, the pre-tick count of the slot named by its
    first argument: the slot it reads, or for stage 0 the slot it writes.
   */
  predicate Published<R>(p: Program<R>, k: nat, t: nat) {
    k > 0 && (Active(p, k, t) || (k == 1 && Active(p, 0, t)))
  }

  predicate Enabled<R>(p: Program<R>, s: State<R>, step: Step) {
    |s.stages| == Depth(p) &&
    match step
    case Publish => !s.running && s.tick < Ticks(p)
    case Read(k) => 0 < k < Depth(p) && s.stages[k].worker.Called?
    case Take(k) => k < Depth(p) && (if k == 0 then s.stages[k].worker.Called? else s.stages[k].worker.Reading?)
    case Append(k) => k < Depth(p) && s.stages[k].worker.Appending? && s.stages[k].worker.todo != []
    case SetCursor(k) => k < Depth(p) && s.stages[k].worker.Appending? && s.stages[k].worker.todo == []
    case Gather => s.running && forall k :: 0 <= k < Depth(p) && Active(p, k, s.tick) ==> s.stages[k].worker.Finished?
  }

  /** One stage as the host starts tick t; before is the stage feeding it. */
  function StartStage<R>(p: Program<R>, k: nat, t: nat, st: Stage<R>, before: Stage<R>): Stage<R> {
    Stage(st.out, st.cursor,
          if Published(p, k, t) then |before.out| + 1 else st.watermark,
          if Active(p, k, t) then Called else Idle,
          st.taken)
  }

  function Started<R>(p: Program<R>, s: State<R>): (r: seq<Stage<R>>)
    requires |s.stages| == Depth(p)
    ensures |r| == Depth(p)
    ensures r[0] == StartStage(p, 0, s.tick, s.stages[0], s.stages[0])
    ensures forall k :: 0 < k < Depth(p) ==> r[k] == StartStage(p, k, s.tick, s.stages[k], s.stages[k - 1])
  {
    seq(Depth(p), k requires 0 <= k < Depth(p) =>
      StartStage(p, k, s.tick, s.stages[k], s.stages[if k == 0 then 0 else k - 1]))
  }

  /** The window a consumer takes out of its snapshot. */
  function TakeStage<R>(p: Program<R>, k: nat, t: nat, st: Stage<R>): Stage<R>
    requires k < Depth(p) && (k == 0 || st.worker.Reading?)
  {
    if k == 0 then Stage(st.out, st.cursor, st.watermark, Appending(p.source(t), 0), st.taken)
    else
      var all := st.worker.snapshot;
      var (start, end) := Window(st.cursor, st.watermark, |all|);
      Stage(st.out, st.cursor, st.watermark, Appending(p.stages[k - 1](all[start..end]), end),
            st.taken + [all[start..end]])
  }

  function AppendStage<R>(st: Stage<R>): Stage<R>
    requires st.worker.Appending? && st.worker.todo != []
  {
    Stage(st.out + [st.worker.todo[0]], st.cursor, st.watermark,
          Appending(st.worker.todo[1..], st.worker.end), st.taken)
  }

  /** Only consumers have a cursor to advance. */
  function FinishStage<R>(k: nat, st: Stage<R>): Stage<R>
    requires st.worker.Appending?
  {
    Stage(st.out, if k == 0 then st.cursor else st.worker.end, st.watermark, Finished, st.taken)
  }

  function Apply<R>(p: Program<R>, s: State<R>, step: Step): State<R>
    requires Enabled(p, s, step)
  {
    match step
    case Publish => State(Started(p, s), s.tick, true)
    case Read(k) =>
      s.(stages := s.stages[k := s.stages[k].(worker := Reading(s.stages[k - 1].out))])
    case Take(k) => s.(stages := s.stages[k := TakeStage(p, k, s.tick, s.stages[k])])
    case Append(k) => s.(stages := s.stages[k := AppendStage(s.stages[k])])
    case SetCursor(k) => s.(stages := s.stages[k := FinishStage(k, s.stages[k])])
    case Gather =>
      State(seq(Depth(p), k requires 0 <= k < Depth(p) => s.stages[k].(worker := Idle)), s.tick + 1, false)
  }

  // ---------------------------------------------------------------------------
  // The invariant
  // ---------------------------------------------------------------------------

  /** The batches of stage k - 1 for rounds 0..n: what stage k should have taken. */
  ghost function Batches<R>(p: Program<R>, k: nat, n: nat): (r: seq<seq<R>>)
    requires k < Depth(p)
    ensures |r| == n && forall i :: 0 <= i < n ==> r[i] == Batch(p, k, i)
  {
    seq(n, i requires 0 <= i < n => Batch(p, k, i))
  }

  /** What stage k has written of this tick's batch. */
  ghost predicate Progress<R>(p: Program<R>, k: nat, t: nat, st: Stage<R>)
    requires k < Depth(p)
  {
    var base := Committed(p, k, Completed(p, k, t));
    match st.worker
    case Idle => st.out == base
    case Called => st.out == base
    case Reading(_) => k > 0 && st.out == base
    case Appending(todo, _) => k <= t && base <= st.out && st.out + todo == base + Batch(p, k, t - k)
    case Finished => k <= t && st.out == base + Batch(p, k, t - k)
  }

  /** The consumer side of stage k > 0. */
  ghost predicate Consumes<R>(p: Program<R>, k: nat, t: nat, st: Stage<R>)
    requires 0 < k < Depth(p)
  {
    var n := Completed(p, k, t);
    var ready := Committed(p, k - 1, Completed(p, k - 1, t));
    && (!st.worker.Idle? ==> st.watermark == |ready| + 1)
    && (st.worker.Reading? ==> ready <= st.worker.snapshot)
    && (st.worker.Appending? ==> st.worker.end == |Committed(p, k - 1, n + 1)|)
    && st.cursor == |Committed(p, k - 1, if st.worker.Finished? then n + 1 else n)|
    && st.taken == Batches(p, k - 1, if st.worker.Appending? || st.worker.Finished? then n + 1 else n)
  }

  ghost predicate StageInv<R>(p: Program<R>, k: nat, t: nat, running: bool, st: Stage<R>)
    requires k < Depth(p)
  {
    && (st.worker.Idle? <==> !(running && Active(p, k, t)))
    && Progress(p, k, t, st)
    && (k > 0 ==> Consumes(p, k, t, st))
  }

  ghost predicate Inv<R>(p: Program<R>, s: State<R>) {
    && |s.stages| == Depth(p) && s.tick <= Ticks(p) && (s.running ==> s.tick < Ticks(p))
    && forall k :: 0 <= k < Depth(p) ==> StageInv(p, k, s.tick, s.running, s.stages[k])
  }

  lemma {:induction false} InitialInv<R>(p: Program<R>)
    ensures Inv(p, Initial(p))
  {
  }

  lemma {:induction false} CommittedGrows<R>(p: Program<R>, k: nat, m: nat, n: nat)
    requires k < Depth(p) && m <= n
    ensures Committed(p, k, m) <= Committed(p, k, n)
  {
    if m < n { CommittedGrows(p, k, m, n - 1); }
  }

  /** A consumer's window is exactly its producer's batch of the round, whatever was appended meanwhile. */
  lemma {:induction false} TakeExact<R>(p: Program<R>, k: nat, t: nat, st: Stage<R>)
    requires 0 < k < Depth(p) && Active(p, k, t) && Consumes(p, k, t, st) && st.worker.Reading?
    ensures var all := st.worker.snapshot;
            var (start, end) := Window(st.cursor, st.watermark, |all|);
            all[start..end] == Batch(p, k - 1, t - k) && end == |Committed(p, k - 1, t - k + 1)|
  {
    var all := st.worker.snapshot;
    var ready := Committed(p, k - 1, t - k + 1);
    assert ready == Committed(p, k - 1, t - k) + Batch(p, k - 1, t - k);
    assert all[..|ready|] == ready;
    assert all[st.cursor..|ready|] == ready[st.cursor..];
  }

  lemma {:induction false} TakeKeeps<R>(p: Program<R>, k: nat, t: nat, st: Stage<R>)
    requires k < Depth(p) && StageInv(p, k, t, true, st)
    requires if k == 0 then st.worker.Called? else st.worker.Reading?
    ensures StageInv(p, k, t, true, TakeStage(p, k, t, st))
  {
    var out := TakeStage(p, k, t, st);
    if k == 0 {
      assert out.worker.todo == Batch(p, 0, t);
    } else {
      TakeExact(p, k, t, st);
      assert out.taken == Batches(p, k - 1, t - k + 1);
    }
  }

  lemma {:induction false} AppendKeeps<R>(p: Program<R>, k: nat, t: nat, st: Stage<R>)
    requires k < Depth(p) && StageInv(p, k, t, true, st) && st.worker.Appending? && st.worker.todo != []
    ensures StageInv(p, k, t, true, AppendStage(st))
  {
    var out := AppendStage(st);
    assert out.out + out.worker.todo == st.out + st.worker.todo;
  }

  lemma {:induction false} FinishKeeps<R>(p: Program<R>, k: nat, t: nat, st: Stage<R>)
    requires k < Depth(p) && StageInv(p, k, t, true, st) && st.worker.Appending? && st.worker.todo == []
    ensures StageInv(p, k, t, true, FinishStage(k, st))
  {
    assert st.out + [] == st.out;
  }

  lemma {:induction false} StartKeeps<R>(p: Program<R>, k: nat, t: nat, st: Stage<R>, before: Stage<R>)
    requires k < Depth(p) && StageInv(p, k, t, false, st)
    requires k > 0 ==> StageInv(p, k - 1, t, false, before)
    ensures StageInv(p, k, t, true, StartStage(p, k, t, st, before))
  {
  }

  /** The end of tick t is the start of tick t + 1. */
  lemma {:induction false} GatherKeeps<R>(p: Program<R>, k: nat, t: nat, st: Stage<R>)
    requires k < Depth(p) && StageInv(p, k, t, true, st) && (Active(p, k, t) ==> st.worker.Finished?)
    ensures StageInv(p, k, t + 1, false, st.(worker := Idle))
  {
  }

  lemma {:induction false} ReadKeeps<R>(p: Program<R>, k: nat, t: nat, st: Stage<R>, before: Stage<R>)
    requires 0 < k < Depth(p) && StageInv(p, k, t, true, st) && st.worker.Called?
    requires StageInv(p, k - 1, t, true, before)
    ensures StageInv(p, k, t, true, st.(worker := Reading(before.out)))
  {
  }

  lemma {:induction false} UpdateInv<R>(p: Program<R>, s: State<R>, k: nat, st: Stage<R>)
    requires Inv(p, s) && s.running && k < Depth(p) && StageInv(p, k, s.tick, true, st)
    ensures Inv(p, s.(stages := s.stages[k := st]))
  {
    var u := s.(stages := s.stages[k := st]);
    forall j | 0 <= j < Depth(p) ensures StageInv(p, j, u.tick, u.running, u.stages[j]) {
      assert StageInv(p, j, s.tick, s.running, s.stages[j]);
    }
  }

  lemma {:induction false} StartedInv<R>(p: Program<R>, s: State<R>, k: nat, r: seq<Stage<R>>)
    requires Inv(p, s) && !s.running && k < Depth(p) && r == Started(p, s)
    ensures StageInv(p, k, s.tick, true, r[k])
  {
    StartKeeps(p, k, s.tick, s.stages[k], s.stages[if k == 0 then 0 else k - 1]);
  }

  lemma {:induction false} PublishInv<R>(p: Program<R>, s: State<R>)
    requires Inv(p, s) && Enabled(p, s, Publish)
    ensures Inv(p, Apply(p, s, Publish))
  {
    var r := Started(p, s);
    forall k | 0 <= k < Depth(p) ensures StageInv(p, k, s.tick, true, r[k]) {
      StartedInv(p, s, k, r);
    }
    assert Inv(p, State(r, s.tick, true));
  }

  lemma {:induction false} GatherInv<R>(p: Program<R>, s: State<R>)
    requires Inv(p, s) && Enabled(p, s, Gather)
    ensures Inv(p, Apply(p, s, Gather))
  {
    var u := Apply(p, s, Gather);
    forall k | 0 <= k < Depth(p) ensures StageInv(p, k, u.tick, u.running, u.stages[k]) {
      GatherKeeps(p, k, s.tick, s.stages[k]);
    }
  }

  lemma {:induction false} WorkerRuns<R>(p: Program<R>, s: State<R>, k: nat)
    requires Inv(p, s) && k < Depth(p) && !s.stages[k].worker.Idle?
    ensures s.running && Active(p, k, s.tick) && StageInv(p, k, s.tick, true, s.stages[k])
    ensures k > 0 ==> StageInv(p, k - 1, s.tick, true, s.stages[k - 1])
  {
  }

  /** Every step of every worker and of the host keeps the invariant. */
  lemma {:induction false} StepInv<R>(p: Program<R>, s: State<R>, step: Step)
    requires Inv(p, s) && Enabled(p, s, step)
    ensures Inv(p, Apply(p, s, step))
  {
    match step
    case Publish => PublishInv(p, s);
    case Gather => GatherInv(p, s);
    case Read(k) =>
      WorkerRuns(p, s, k);
      ReadKeeps(p, k, s.tick, s.stages[k], s.stages[k - 1]);
      UpdateInv(p, s, k, s.stages[k].(worker := Reading(s.stages[k - 1].out)));
    case Take(k) =>
      WorkerRuns(p, s, k);
      TakeKeeps(p, k, s.tick, s.stages[k]);
      UpdateInv(p, s, k, TakeStage(p, k, s.tick, s.stages[k]));
    case Append(k) =>
      WorkerRuns(p, s, k);
      AppendKeeps(p, k, s.tick, s.stages[k]);
      UpdateInv(p, s, k, AppendStage(s.stages[k]));
    case SetCursor(k) =>
      WorkerRuns(p, s, k);
      FinishKeeps(p, k, s.tick, s.stages[k]);
      UpdateInv(p, s, k, FinishStage(k, s.stages[k]));
  }

  // ---------------------------------------------------------------------------
  // Runs
  // ---------------------------------------------------------------------------

  /** The state after the steps, if each is enabled where it is taken: any interleaving of the workers. */
  function Run<R>(p: Program<R>, steps: seq<Step>): Option<State<R>> {
    if steps == [] then Some(Initial(p))
    else
      var before := Run(p, steps[..|steps| - 1]);
      var last := steps[|steps| - 1];
      if before.None? || !Enabled(p, before.value, last) then None
      else Some(Apply(p, before.value, last))
  }

  lemma {:induction false} RunInv<R>(p: Program<R>, steps: seq<Step>)
    ensures Run(p, steps).Some? ==> Inv(p, Run(p, steps).value)
  {
    if steps == [] {
      InitialInv(p);
    } else {
      var before := Run(p, steps[..|steps| - 1]);
      RunInv(p, steps[..|steps| - 1]);
      if Run(p, steps).Some? { StepInv(p, before.value, steps[|steps| - 1]); }
    }
  }

  function Flat<R>(bs: seq<seq<R>>): seq<R> {
    if bs == [] then [] else Flat(bs[..|bs| - 1]) + bs[|bs| - 1]
  }

  lemma {:induction false} FlatBatches<R>(p: Program<R>, k: nat, n: nat)
    requires k < Depth(p)
    ensures Flat(Batches(p, k, n)) == Committed(p, k, n)
  {
    if n > 0 {
      assert Batches(p, k, n)[..n - 1] == Batches(p, k, n - 1);
      FlatBatches(p, k, n - 1);
    }
  }

  /**
    In every reachable state, a consumer's r-th batch is its producer's batch of round r, as if
    rounds ran one after the other; the batches concatenate to a prefix of what was produced.
   */
  lemma {:induction false} BatchesExact<R>(p: Program<R>, steps: seq<Step>, k: nat)
    requires Run(p, steps).Some? && 0 < k < Depth(p)
    ensures var s := Run(p, steps).value;
            && |s.stages| == Depth(p)
            && var taken := s.stages[k].taken;
            && (forall r :: 0 <= r < |taken| ==> taken[r] == Batch(p, k - 1, r))
            && Flat(taken) == Committed(p, k - 1, |taken|)
            && Flat(taken) <= s.stages[k - 1].out
  {
    RunInv(p, steps);
    var s := Run(p, steps).value;
    var st, before := s.stages[k], s.stages[k - 1];
    assert StageInv(p, k, s.tick, s.running, st) && StageInv(p, k - 1, s.tick, s.running, before);
    FlatBatches(p, k - 1, |st.taken|);
    CommittedGrows(p, k - 1, |st.taken|, Completed(p, k - 1, s.tick));
  }

  /** In a tick, outside its start: stage k has taken its batch. */
  predicate HasTaken<R>(s: State<R>, k: nat) {
    k < |s.stages| && (s.stages[k].worker.Appending? || s.stages[k].worker.Finished?)
  }

  /** In every run, the batch a consumer takes on a tick is what its producer's slot gained between the start of
      the tick before and the start of this one, however the workers of both ticks interleave. */
  lemma {:induction false} PreviousTick<R>(p: Program<R>, steps: seq<Step>, i: nat, j: nat, k: nat)
    requires Run(p, steps).Some? && i <= j <= |steps| && 0 < k < Depth(p)
    requires Run(p, steps[..i]).Some? && Run(p, steps[..j]).Some?
    requires var a, b, c := Run(p, steps[..i]).value, Run(p, steps[..j]).value, Run(p, steps).value;
             !a.running && !b.running && a.tick + 1 == b.tick == c.tick && HasTaken(c, k)
    ensures var a, b, c := Run(p, steps[..i]).value, Run(p, steps[..j]).value, Run(p, steps).value;
            && |a.stages| == |b.stages| == |c.stages| == Depth(p) && c.stages[k].taken != []
            && b.stages[k - 1].out == a.stages[k - 1].out + c.stages[k].taken[|c.stages[k].taken| - 1]
  {
    RunInv(p, steps[..i]);
    RunInv(p, steps[..j]);
    RunInv(p, steps);
    var a, b, c := Run(p, steps[..i]).value, Run(p, steps[..j]).value, Run(p, steps).value;
    assert StageInv(p, k - 1, a.tick, a.running, a.stages[k - 1]);
    assert StageInv(p, k - 1, b.tick, b.running, b.stages[k - 1]);
    assert StageInv(p, k, c.tick, c.running, c.stages[k]);
  }

  /** When all ticks are over, every slot holds the batches of all rounds, in order. */
  lemma {:induction false} RunComplete<R>(p: Program<R>, steps: seq<Step>, k: nat)
    requires Run(p, steps).Some? && Run(p, steps).value.tick == Ticks(p) && k < Depth(p)
    ensures var s := Run(p, steps).value;
            |s.stages| == Depth(p) && s.stages[k].out == Committed(p, k, p.rounds)
  {
    RunInv(p, steps);
    var s := Run(p, steps).value;
    assert StageInv(p, k, s.tick, s.running, s.stages[k]);
  }

  // ---------------------------------------------------------------------------
  // Progress
  // ---------------------------------------------------------------------------

  /** The steps stage k has still to take in tick t. */
  ghost function Work<R>(p: Program<R>, k: nat, t: nat, st: Stage<R>): nat
    requires k < Depth(p)
  {
    match st.worker
    case Idle => 0
    case Called => if k > t then 0 else (if k == 0 then 2 else 3) + |Batch(p, k, t - k)|
    case Reading(_) => if k > t then 0 else 2 + |Batch(p, k, t - k)|
    case Appending(todo, _) => 1 + |todo|
    case Finished => 0
  }

  ghost function AllWork<R>(p: Program<R>, s: State<R>): nat
    requires |s.stages| == Depth(p)
  {
    WorkUpTo(p, s, Depth(p))
  }

  ghost function WorkUpTo<R>(p: Program<R>, s: State<R>, n: nat): nat
    requires |s.stages| == Depth(p) && n <= Depth(p)
  {
    if n == 0 then 0 else WorkUpTo(p, s, n - 1) + Work(p, n - 1, s.tick, s.stages[n - 1])
  }

  lemma {:induction false} WorkChanges<R>(p: Program<R>, s: State<R>, k: nat, st: Stage<R>, n: nat)
    requires |s.stages| == Depth(p) && n <= Depth(p) && k < Depth(p)
    requires Work(p, k, s.tick, st) + 1 == Work(p, k, s.tick, s.stages[k])
    ensures WorkUpTo(p, s.(stages := s.stages[k := st]), n) + (if k < n then 1 else 0) == WorkUpTo(p, s, n)
  {
    if n > 0 { WorkChanges(p, s, k, st, n - 1); }
  }

  /** Some step is enabled until all ticks are over. */
  lemma {:induction false} NeverStuck<R>(p: Program<R>, steps: seq<Step>)
    requires Run(p, steps).Some? && Run(p, steps).value.tick < Ticks(p)
    ensures exists step :: Run(p, steps + [step]).Some?
  {
    RunInv(p, steps);
    var s := Run(p, steps).value;
    var step := Next(p, s);
    assert (steps + [step])[..|steps|] == steps;
    assert Run(p, steps + [step]).Some?;
  }

  ghost function Next<R>(p: Program<R>, s: State<R>): (step: Step)
    requires Inv(p, s) && s.tick < Ticks(p)
    ensures Enabled(p, s, step)
  {
    if !s.running then Publish
    else if k: nat :| k < Depth(p) && Active(p, k, s.tick) && !s.stages[k].worker.Finished? then
                      assert StageInv(p, k, s.tick, s.running, s.stages[k]);
                      match s.stages[k].worker
                      case Called => if k == 0 then Take(0) else Read(k)
                      case Reading(_) => Take(k)
                      case Appending(todo, _) => if todo == [] then SetCursor(k) else Append(k)
                      case Idle => Gather
                      case Finished => Gather
    else Gather
  }

  /** Every step finishes a tick, starts one, or does one unit of the tick's work: runs terminate. */
  lemma {:induction false} StepProgress<R>(p: Program<R>, s: State<R>, step: Step)
    requires Inv(p, s) && Enabled(p, s, step)
    ensures var s' := Apply(p, s, step);
            || (step.Gather? && s'.tick == s.tick + 1)
            || (step.Publish? && s'.tick == s.tick && !s.running && s'.running)
            || (s'.tick == s.tick && s'.running == s.running && AllWork(p, s') + 1 == AllWork(p, s))
  {
    if !step.Gather? && !step.Publish? {
      StepInv(p, s, step);
      var k, s' := step.k, Apply(p, s, step);
      assert StageInv(p, k, s.tick, s.running, s.stages[k]) && StageInv(p, k, s'.tick, s'.running, s'.stages[k]);
      if step.Take? && k > 0 { TakeExact(p, k, s.tick, s.stages[k]); }
      WorkChanges(p, s, k, s'.stages[k], Depth(p));
    }
  }
}
