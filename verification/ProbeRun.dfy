/**
 One probe run between its claim and its return (controller/hub_supply_probe.go): the
 preflight, the two worker pools, the results channel and the result loop, as steps of
 concurrent goroutines. A probe's outcome is arbitrary, and so is every scheduling choice.
 */
module ProbeRun {
  import opened Counting
  import opened ProbeConsumer

  datatype Kind = Scheduled | Immediate

  /** Skip(fault): the probe was skipped, `fault` when because of an error. */
  datatype Outcome = Skip(fault: bool) | Probe(success: bool)

  datatype Result = Result(job: nat, outcome: Outcome)

  /** Where a job is: before its preflight, in a pool's job list, in a worker, with its result
      sent, or dropped by a pool whose context was cancelled. */
  datatype Stage = Todo | Queued | Working | Sent | Abandoned

  /** Returned(completed): the function body is over and its deferred calls are pending. */
  datatype Phase =
    | Selected | Refreshed | Claimed | Preflight(next: nat) | Live
    | Returned(completed: bool) | Requeued(completed: bool, ok: bool) | Done(ok: bool)

  datatype Run = Run(
    kind: Kind, jobs: seq<Job>, textLimit: nat, imageLimit: nat,
    token: nat, phase: Phase, started: bool, stages: seq<Stage>,
    results: seq<Result>, closed: bool, cancelled: bool,
    history: seq<Handled>, consumer: Consumer)

  function NewRun(kind: Kind, jobs: seq<Job>, textLimit: nat, imageLimit: nat): Run {
    Run(kind, jobs, textLimit, imageLimit, 0, Selected, false, seq(|jobs|, _ => Todo), [], false, false, [], Start(jobs))
  }

  /** A pool runs at least one worker (lines 424-426). */
  function Workers(run: Run, image: bool): nat {
    AtLeastOne(if image then run.imageLimit else run.textLimit)
  }

  function AtLeastOne(n: nat): nat {
    if n < 1 then 1 else n
  }

  /** The jobs of one pool that are in the given stage. */
  function InStage(jobs: seq<Job>, stages: seq<Stage>, image: bool, stage: Stage): set<nat> {
    set i: nat | i < |jobs| && i < |stages| && stages[i] == stage && jobs[i].image == image
  }

  function WorkingIn(run: Run, image: bool): set<nat> {
    InStage(run.jobs, run.stages, image, Working)
  }

  // ---------- goroutine steps ----------

  datatype Step =
    | PreflightJob(early: bool, outcome: Outcome)
    | StartPools
    | Dispatch(job: nat)
    | Abandon(image: bool)
    | Deliver(job: nat, outcome: Outcome)
    | CloseResults
    | Cancel

  predicate Settled(stage: Stage) { stage == Sent || stage == Abandoned }

  ghost predicate Can(run: Run, step: Step) {
    |run.stages| == |run.jobs| &&
    match step
    case PreflightJob(_, _) => run.phase.Preflight? && run.phase.next < |run.jobs|
    case StartPools => run.phase.Preflight? && run.phase.next == |run.jobs|
    case Dispatch(i) =>
      // the pool's feeder hands out its jobs in order, to a free worker
      && run.started && i < |run.jobs| && run.stages[i] == Queued
      && |WorkingIn(run, run.jobs[i].image)| < Workers(run, run.jobs[i].image)
      && (forall j :: 0 <= j < i && run.jobs[j].image == run.jobs[i].image ==> run.stages[j] != Queued)
    case Abandon(image) =>
      && run.started && run.cancelled
      && exists i :: 0 <= i < |run.jobs| && run.stages[i] == Queued && run.jobs[i].image == image
    case Deliver(i, _) => run.started && i < |run.jobs| && run.stages[i] == Working
    case CloseResults =>
      run.started && !run.closed && forall i :: 0 <= i < |run.stages| ==> Settled(run.stages[i])
    case Cancel => !run.cancelled
  }

  function Send(run: Run, i: nat, outcome: Outcome): Run
    requires i < |run.stages|
  {
    run.(stages := run.stages[i := Sent], results := run.results + [Result(i, outcome)])
  }

  function Do(run: Run, step: Step): Run
    requires Can(run, step)
  {
    match step
    case PreflightJob(early, o) =>
      var i := run.phase.next;
      var sent := if early then Send(run, i, o) else run.(stages := run.stages[i := Queued]);
      sent.(phase := Preflight(i + 1))
    case StartPools => run.(phase := Live, started := true)
    case Dispatch(i) => run.(stages := run.stages[i := Working])
    case Abandon(image) =>
      run.(stages := seq(|run.stages|, i requires 0 <= i < |run.stages| && |run.stages| == |run.jobs| =>
             if run.stages[i] == Queued && run.jobs[i].image == image then Abandoned else run.stages[i]))
    case Deliver(i, o) => Send(run, i, o)
    case CloseResults => run.(closed := true)
    case Cancel => run.(cancelled := true)
  }

  // ---------- run invariant ----------

  ghost predicate DistinctTargets(jobs: seq<Job>) {
    forall i, j :: 0 <= i < j < |jobs| ==> jobs[i].target != jobs[j].target
  }

  /** A job has at most one result, waiting in the channel or handled. */
  ghost predicate OneResultEach(jobs: seq<Job>, stages: seq<Stage>, results: seq<Result>, history: seq<Handled>) {
    && |stages| == |jobs|
    && (forall k :: 0 <= k < |results| ==> results[k].job < |jobs| && stages[results[k].job] == Sent)
    && (forall k, l :: 0 <= k < l < |results| ==> results[k].job != results[l].job)
    && WellFormed(jobs, history)
    && (forall k :: 0 <= k < |history| ==> stages[history[k].job] == Sent)
    && (forall k, l :: 0 <= k < |results| && 0 <= l < |history| ==> results[k].job != history[l].job)
  }

  ghost predicate Early(phase: Phase) {
    phase.Selected? || phase.Refreshed? || phase.Claimed?
  }

  ghost predicate AllTodo(stages: seq<Stage>) {
    forall i :: 0 <= i < |stages| ==> stages[i] == Todo
  }

  /** The goroutines start after every job was preflighted, and close the channel once every
      job is settled. */
  ghost predicate StagesOk(stages: seq<Stage>, started: bool, closed: bool) {
    && (forall i :: 0 <= i < |stages| ==>
          if started then stages[i] != Todo else stages[i] != Working && stages[i] != Abandoned)
    && (closed ==> started && forall i :: 0 <= i < |stages| ==> Settled(stages[i]))
  }

  ghost predicate PreflightOk(stages: seq<Stage>, next: nat) {
    && next <= |stages|
    && (forall i :: 0 <= i < next ==> stages[i] == Queued || stages[i] == Sent)
    && (forall i :: next <= i < |stages| ==> stages[i] == Todo)
  }

  ghost predicate PhaseOk(run: Run) {
    && (Early(run.phase) ==> run.results == [] && AllTodo(run.stages))
    && (Early(run.phase) || run.phase.Preflight? ==> !run.started && run.history == [])
    && (run.phase.Preflight? ==> PreflightOk(run.stages, run.phase.next))
    && (run.phase.Live? ==> run.started)
    && (run.phase.Refreshed? ==> run.kind == Immediate)
    && (run.phase.Selected? || run.phase.Refreshed? ==> run.token == 0)
    && (run.token == 0 ==> run.phase.Selected? || run.phase.Refreshed? || run.phase.Done?)
  }

  ghost predicate Completed(phase: Phase) {
    (phase.Returned? || phase.Requeued?) && phase.completed
  }

  /** A run that completes has reconciled exactly the groups its handled results affected. */
  ghost predicate LoopOk(run: Run) {
    && (Early(run.phase) || run.phase.Preflight? ==> run.consumer == Start(run.jobs))
    && (run.phase.Live? ==> LoopState(run.jobs, run.history, run.consumer, run.kind == Scheduled))
    && (Completed(run.phase) ==>
          && run.closed && run.results == []
          && WellFormed(run.jobs, run.history)
          && run.consumer.reconciled == AffectedGroups(run.jobs, run.history)
          && Summed(run.history, run.consumer))
  }

  ghost predicate WithinLimits(jobs: seq<Job>, stages: seq<Stage>, textLimit: nat, imageLimit: nat) {
    && |InStage(jobs, stages, false, Working)| <= AtLeastOne(textLimit)
    && |InStage(jobs, stages, true, Working)| <= AtLeastOne(imageLimit)
  }

  ghost predicate RunOk(run: Run) {
    && DistinctTargets(run.jobs)
    && OneResultEach(run.jobs, run.stages, run.results, run.history)
    && StagesOk(run.stages, run.started, run.closed)
    && (run.kind == Scheduled ==> WithinLimits(run.jobs, run.stages, run.textLimit, run.imageLimit))
    && PhaseOk(run) && LoopOk(run)
  }

  /** What goroutine steps never touch. */
  ghost predicate SameClaim(a: Run, b: Run) {
    && a.kind == b.kind && a.jobs == b.jobs && a.token == b.token
    && a.history == b.history && a.consumer == b.consumer
    && (a.phase == b.phase || (a.phase.Preflight? && (b.phase.Preflight? || b.phase.Live?)))
  }

  lemma SendKeepsResults(run: Run, i: nat, o: Outcome)
    requires RunOk(run) && i < |run.jobs| && run.stages[i] != Sent
    ensures var run' := Send(run, i, o); OneResultEach(run'.jobs, run'.stages, run'.results, run'.history)
  {
    var run' := Send(run, i, o);
    assert forall k :: 0 <= k < |run.results| ==> run'.results[k] == run.results[k] && run.results[k].job != i;
  }

  lemma StageUpdate(jobs: seq<Job>, stages: seq<Stage>, i: nat, v: Stage, image: bool)
    requires i < |stages| == |jobs|
    ensures var w, w' := InStage(jobs, stages, image, Working), InStage(jobs, stages[i := v], image, Working);
            |w'| <= if v == Working && jobs[i].image == image then |w| + 1 else |w|
  {
    var w, w' := InStage(jobs, stages, image, Working), InStage(jobs, stages[i := v], image, Working);
    if v == Working && jobs[i].image == image {
      assert w' == w + {i};
    } else {
      assert w' <= w;
      SubsetAtMost(w', w);
    }
  }

  lemma WorkersStep(run: Run, step: Step, image: bool)
    requires |run.stages| == |run.jobs| && Can(run, step) && |WorkingIn(run, image)| <= Workers(run, image)
    ensures |WorkingIn(Do(run, step), image)| <= Workers(run, image)
  {
    match step
    case PreflightJob(early, _) =>
      StageUpdate(run.jobs, run.stages, run.phase.next, if early then Sent else Queued, image);
    case Dispatch(i) => StageUpdate(run.jobs, run.stages, i, Working, image);
    case Deliver(i, _) => StageUpdate(run.jobs, run.stages, i, Sent, image);
    case Abandon(_) =>
      assert WorkingIn(Do(run, step), image) <= WorkingIn(run, image);
      SubsetAtMost(WorkingIn(Do(run, step), image), WorkingIn(run, image));
    case _ =>
  }

  lemma PreflightKeepsRun(run: Run, early: bool, o: Outcome)
    requires RunOk(run) && Can(run, PreflightJob(early, o))
    ensures RunOk(Do(run, PreflightJob(early, o)))
  {
    var step := PreflightJob(early, o);
    if run.kind == Scheduled {
      WorkersStep(run, step, true);
      WorkersStep(run, step, false);
    }
    if early { SendKeepsResults(run, run.phase.next, o); }
  }

  lemma PoolStepKeepsRun(run: Run, step: Step)
    requires RunOk(run) && Can(run, step) && (step.Dispatch? || step.Abandon? || step.Deliver?)
    ensures RunOk(Do(run, step))
  {
    if run.kind == Scheduled {
      WorkersStep(run, step, true);
      WorkersStep(run, step, false);
    }
    if step.Deliver? { SendKeepsResults(run, step.job, step.outcome); }
  }

  /** Every goroutine step keeps the run invariant. */
  lemma DoKeepsRun(run: Run, step: Step)
    requires RunOk(run) && Can(run, step)
    ensures RunOk(Do(run, step)) && SameClaim(run, Do(run, step))
  {
    match step
    case PreflightJob(early, o) => PreflightKeepsRun(run, early, o);
    case StartPools => StartState(run.jobs, run.kind == Scheduled);
    case CloseResults =>
    case Cancel =>
    case _ => PoolStepKeepsRun(run, step);
  }

  // ---------- the channel never blocks, and goroutines always end ----------

  /** A goroutine about to send finds room: the channel's capacity is the number of jobs. */
  lemma NeverBlocks(run: Run, i: nat)
    requires RunOk(run) && i < |run.jobs| && (run.stages[i] == Todo || run.stages[i] == Working)
    ensures |run.results| < |run.jobs|
  {
    var xs := seq(|run.results|, k requires 0 <= k < |run.results| => run.results[k].job);
    DistinctMissing(xs, |run.jobs|, i);
  }

  function QueuedIn(run: Run, image: bool): set<nat> {
    InStage(run.jobs, run.stages, image, Queued)
  }

  predicate Consumerless(step: Step) {
    step.Dispatch? || step.Deliver? || step.CloseResults?
  }

  /** Once the goroutines run, some worker, feeder or closer can always move until the channel
      is closed, whether or not anybody receives. */
  lemma GoroutinesNeverStuck(run: Run) returns (step: Step)
    requires RunOk(run) && run.started && !run.closed
    ensures Can(run, step) && Consumerless(step)
  {
    if i: nat :| i < |run.jobs| && run.stages[i] == Working {
      step := Deliver(i, Skip(false));
    } else {
      forall image: bool ensures WorkingIn(run, image) == {} { }
      if QueuedIn(run, true) != {} {
        var i := Least(QueuedIn(run, true));
        step := Dispatch(i);
        FirstQueued(run, i);
      } else if QueuedIn(run, false) != {} {
        var i := Least(QueuedIn(run, false));
        step := Dispatch(i);
        FirstQueued(run, i);
      } else {
        step := CloseResults;
        forall i | 0 <= i < |run.stages| ensures Settled(run.stages[i]) {
          assert i !in QueuedIn(run, run.jobs[i].image);
        }
      }
    }
  }

  lemma FirstQueued(run: Run, i: nat)
    requires RunOk(run) && run.started && i < |run.jobs| && WorkingIn(run, run.jobs[i].image) == {}
    requires i in QueuedIn(run, run.jobs[i].image) && forall j :: j in QueuedIn(run, run.jobs[i].image) ==> i <= j
    ensures Can(run, Dispatch(i))
  {
    forall j: nat | j < i && run.jobs[j].image == run.jobs[i].image ensures run.stages[j] != Queued {
      assert j !in QueuedIn(run, run.jobs[i].image);
    }
  }

  function Rank(stage: Stage): nat {
    match stage
    case Todo => 4
    case Queued => 3
    case Working => 2
    case _ => 0
  }

  function Ranks(stages: seq<Stage>): nat {
    if stages == [] then 0 else Ranks(stages[..|stages| - 1]) + Rank(stages[|stages| - 1])
  }

  function PhaseRank(phase: Phase): nat {
    match phase
    case Selected => 7
    case Refreshed => 6
    case Claimed => 5
    case Preflight(_) => 4
    case Live => 3
    case Returned(_) => 2
    case Requeued(_, _) => 1
    case Done(_) => 0
  }

  /** Work left in a run: at most four steps a job and a handful for the run itself. */
  function Weight(run: Run): nat {
    Ranks(run.stages) + |run.results| + (if run.closed then 0 else 1) + (if run.cancelled then 0 else 1)
    + PhaseRank(run.phase)
  }

  lemma {:induction false} RanksDrop(a: seq<Stage>, b: seq<Stage>)
    requires |a| == |b| && forall i :: 0 <= i < |a| ==> Rank(b[i]) <= Rank(a[i])
    ensures Ranks(b) <= Ranks(a)
    ensures forall i :: 0 <= i < |a| ==> Ranks(b) + Rank(a[i]) - Rank(b[i]) <= Ranks(a)
  {
    if a != [] {
      RanksDrop(a[..|a| - 1], b[..|b| - 1]);
    }
  }

  lemma {:induction false} RanksUpdate(stages: seq<Stage>, i: nat, v: Stage)
    requires i < |stages|
    ensures Ranks(stages[i := v]) == Ranks(stages) - Rank(stages[i]) + Rank(v)
  {
    var n := |stages| - 1;
    if i < n {
      RanksUpdate(stages[..n], i, v);
      assert stages[i := v][..n] == stages[..n][i := v];
    } else {
      assert stages[i := v][..n] == stages[..n];
    }
  }

  lemma AbandonLosesRank(run: Run, image: bool)
    requires Can(run, Abandon(image))
    ensures Ranks(Do(run, Abandon(image)).stages) < Ranks(run.stages)
  {
    var stages' := Do(run, Abandon(image)).stages;
    RanksDrop(run.stages, stages');
    var i :| 0 <= i < |run.jobs| && run.stages[i] == Queued && run.jobs[i].image == image;
    assert Rank(stages'[i]) == 0;
  }

  lemma {:induction false} DoLosesWeight(run: Run, step: Step)
    requires RunOk(run) && Can(run, step)
    ensures Weight(Do(run, step)) < Weight(run)
  {
    match step
    case PreflightJob(early, _) => RanksUpdate(run.stages, run.phase.next, if early then Sent else Queued);
    case Dispatch(i) => RanksUpdate(run.stages, i, Working);
    case Deliver(i, _) => RanksUpdate(run.stages, i, Sent);
    case Abandon(image) => AbandonLosesRank(run, image);
    case _ =>
  }

  lemma {:induction false} NewRunWeight(kind: Kind, jobs: seq<Job>, textLimit: nat, imageLimit: nat)
    ensures Weight(NewRun(kind, jobs, textLimit, imageLimit)) == 4 * |jobs| + 9
  {
    TodoRanks(|jobs|);
  }

  lemma {:induction false} TodoRanks(n: nat)
    ensures Ranks(seq(n, _ => Todo)) == 4 * n
  {
    if n > 0 {
      TodoRanks(n - 1);
      assert seq(n, _ => Todo)[..n - 1] == seq(n - 1, _ => Todo);
    }
  }
}
