/**
 Any number of scheduled and immediate probe runs over one target table, interleaved at the
 granularity of one database operation or one goroutine step
 (controller/hub_supply_probe.go over model/hub_supply_probe.go).
 Database faults, cancellation, clock readings and probe outcomes are all arbitrary.
 */
module ProbeSystem {
  import opened ProbeStore
  import opened ProbeConsumer
  import opened ProbeRun

  /** A due time that rescheduling computed from a row it read and has not written yet. */
  datatype Write = Write(target: nat, due: int)

  datatype Sys = Sys(store: Store, now: int, runs: map<nat, Run>, writes: map<nat, Write>)

  /** What goes wrong while one result is handled. */
  datatype Fault = NoFault | StoreFault | ReconcileFault

  /** One step of one run. `reconciled` lists the groups a reconcile loop got through. */
  datatype Act =
    | Refresh
    | TakeLease(ok: bool)
    | MarkTesting(ok: bool)
    | Go(step: Step)
    | Consume(due: int, fault: Fault)
    | EndLoop(reconciled: set<nat>)
    | DeferRequeue(ok: bool)
    | DeferReconcile(reconciled: set<nat>)

  /** What else writes the table, one statement at a time: synchronising a group's rows
      (model/hub_supply_probe.go, lines 358-509, from line 114 of the controller and elsewhere),
      the manual request for a group or model (lines 1262-1306), edits and deletions. */
  datatype Aside =
    | EditConfig(group: nat, version: int)
    | ReadRow(write: nat, target: nat, off: bool, probed: bool, due: int)
    | WriteRow(write: nat)
    | NewTarget(target: nat, row: Target)
    | DropTargets(targets: set<nat>)
    | DropGroup(group: nat)
    | RequestProbe(group: nat, targets: set<nat>)
    | ReconcileGroup(group: nat)

  datatype Event =
    | Tick(now: int)
    | ExpireLeases
    | Beside(aside: Aside)
    | Select(run: nat, kind: Kind, jobs: seq<Job>, textLimit: nat, imageLimit: nat)
    | RunAct(run: nat, act: Act)

  function TargetIds(jobs: seq<Job>): set<nat> {
    set i | 0 <= i < |jobs| :: jobs[i].target
  }

  /** The jobs were read from the table: targets with their groups, as long as they exist. */
  ghost predicate JobsMatch(s: Store, jobs: seq<Job>) {
    forall i :: 0 <= i < |jobs| ==>
      && 0 < jobs[i].target <= s.used
      && (jobs[i].target in s.targets ==> s.targets[jobs[i].target].group == jobs[i].group)
  }

  // ---------- acts ----------

  ghost predicate CanConsume(run: Run) {
    && run.phase.Live? && run.results != [] && run.results[0].job < |run.jobs|
    && run.jobs[run.results[0].job].group in run.consumer.remaining
  }

  ghost predicate CanAct(run: Run, act: Act) {
    match act
    case Refresh => run.kind == Immediate && run.phase.Selected?
    case TakeLease(_) => if run.kind == Scheduled then run.phase.Selected? else run.phase.Refreshed?
    case MarkTesting(_) => run.phase.Claimed?
    case Go(step) => Can(run, step)
    case Consume(_, _) => CanConsume(run)
    case EndLoop(reconciled) =>
      run.phase.Live? && run.closed && run.results == [] && reconciled <= Trailing(run.consumer)
    case DeferRequeue(_) => run.phase.Returned?
    case DeferReconcile(reconciled) =>
      run.phase.Requeued? && reconciled <= if run.phase.completed then {} else Groups(run.jobs)
  }

  function Leased(s: Store, run: Run, ok: bool, now: int): (Store, Run) {
    if ok
    then (Claim(s, TargetIds(run.jobs), now), run.(token := s.issued + 1, phase := Claimed))
    else (s, run.(phase := Done(true)))
  }

  function Marked(s: Store, run: Run, ok: bool): (Store, Run) {
    if !ok then (s, run.(phase := Returned(false))) else
    (MarkGroups(s, Groups(run.jobs)),
     if run.kind == Scheduled then run.(phase := Preflight(0))
     else run.(phase := Live, started := true, stages := seq(|run.jobs|, _ => Working)))
  }

  /** What handling a result does to the table, the effect the loop sees, and whether it
      succeeded. */
  function Persist(s: Store, run: Run, res: Result, due: int, now: int): (Store, Effect, bool)
    requires res.job < |run.jobs|
  {
    var id := run.jobs[res.job].target;
    match res.outcome
    case Skip(_) => (ReleaseSkipped(s, id, run.token, now), Released, true)
    case Probe(success) =>
      var (s', o) := Record(s, id, run.token, success, now, due);
      match o
      case LeaseLost => (s', Lost(success), true)
      case Failed => (s', Lost(success), false)
      case Recorded(_, current) => (s', Stored(success, current), true)
  }

  function Stop(run: Run): Run
    requires run.results != []
  {
    run.(results := run.results[1..], phase := Returned(false))
  }

  predicate StopsAtOnce(run: Run, o: Outcome, fault: Fault) {
    (run.kind == Scheduled && run.cancelled) || (o.Skip? && o.fault) || fault == StoreFault
  }

  function Noted(run: Run, h: Handled): Run
    requires run.results != [] && h.job < |run.jobs| && run.jobs[h.job].group in run.consumer.remaining
  {
    run.(results := run.results[1..], history := run.history + [h],
         consumer := Iterate(run.consumer, run.jobs, h, run.kind == Scheduled))
  }

  /** Handling the head of the channel. A reconcile fault comes after the result was persisted. */
  function Consumed(s: Store, run: Run, due: int, fault: Fault, now: int): (Store, Run)
    requires CanConsume(run)
  {
    var res := run.results[0];
    if StopsAtOnce(run, res.outcome, fault) then (s, Stop(run)) else
    var (s', effect, ok) := Persist(s, run, res, due, now);
    if !ok then (s', Stop(run)) else
    var h := Handled(res.job, effect);
    var g := run.jobs[res.job].group;
    if run.kind == Immediate || !LastOfAffected(Absorb(run.consumer, run.jobs, h), g) then (s', Noted(run, h))
    else if fault == ReconcileFault then (s', Stop(run).(history := run.history + [h]))
    else (Reconcile(s', {g}), Noted(run, h))
  }

  /** The loop after the results: it reconciles every remaining affected group, or stops short. */
  function Ended(s: Store, run: Run, reconciled: set<nat>): (Store, Run) {
    var c := run.consumer.(reconciled := run.consumer.reconciled + reconciled);
    (Reconcile(s, reconciled),
     run.(consumer := c, phase := Returned(reconciled == Trailing(run.consumer))))
  }

  function Requeueing(s: Store, run: Run, ok: bool, now: int): (Store, Run)
    requires run.phase.Returned?
  {
    (if ok then Requeue(s, TargetIds(run.jobs), run.token, now) else s,
     run.(phase := Requeued(run.phase.completed, ok)))
  }

  function Perform(s: Store, run: Run, act: Act, now: int): (Store, Run)
    requires CanAct(run, act)
  {
    match act
    case Refresh => (ResetForManualProbe(s, TargetIds(run.jobs), now), run.(phase := Refreshed))
    case TakeLease(ok) => Leased(s, run, ok, now)
    case MarkTesting(ok) => Marked(s, run, ok)
    case Go(step) => (s, Do(run, step))
    case Consume(due, fault) => Consumed(s, run, due, fault, now)
    case EndLoop(reconciled) => Ended(s, run, reconciled)
    case DeferRequeue(ok) => Requeueing(s, run, ok, now)
    case DeferReconcile(reconciled) => (Reconcile(s, reconciled), run.(phase := Done(run.phase.ok)))
  }

  // ---------- the whole system ----------

  ghost predicate CanBeside(s: Sys, a: Aside) {
    match a
    case ReadRow(w, id, _, _, _) => w !in s.writes && id in s.store.targets
    case WriteRow(w) => w in s.writes
    case NewTarget(id, row) => s.store.used < id && NewRow(row)
    case RequestProbe(g, ids) => ids <= CurrentRows(s.store, g)
    case _ => true
  }

  function Written(s: Sys, a: Aside): Store {
    match a
    case EditConfig(g, v) => EditGroup(s.store, g, v)
    case ReadRow(_, _, _, _, _) => s.store
    case WriteRow(w) => if w in s.writes then WriteDue(s.store, s.writes[w].target, s.writes[w].due) else s.store
    case NewTarget(id, row) => CreateRow(s.store, id, row)
    case DropTargets(ids) => DeleteRows(s.store, ids)
    case DropGroup(g) => DeleteGroup(s.store, g)
    case RequestProbe(_, ids) => ResetForManualProbe(s.store, ids, s.now)
    case ReconcileGroup(g) => Reconcile(s.store, {g})
  }

  function WritesAfter(s: Sys, a: Aside): map<nat, Write> {
    match a
    case ReadRow(w, id, off, probed, due) =>
      if id in s.store.targets
      then s.writes[w := Write(id, NextDue(s.store.targets[id], off, probed, due, s.now))] else s.writes
    case WriteRow(w) => s.writes - {w}
    case _ => s.writes
  }

  ghost predicate Enabled(s: Sys, e: Event) {
    match e
    case Tick(now) => s.now <= now
    case Beside(a) => CanBeside(s, a)
    case Select(r, kind, jobs, _, _) =>
      && r !in s.runs && jobs != [] && DistinctTargets(jobs) && JobsMatch(s.store, jobs)
      && (forall i :: 0 <= i < |jobs| ==> jobs[i].target in s.store.targets)
      && (kind == Immediate ==> forall i :: 0 <= i < |jobs| ==> jobs[i].group == jobs[0].group)
    case RunAct(r, act) => r in s.runs && CanAct(s.runs[r], act)
    case _ => true
  }

  ghost function Next(s: Sys, e: Event): Sys
    requires Enabled(s, e)
  {
    match e
    case Tick(now) => s.(now := now)
    case ExpireLeases => s.(store := RequeueExpired(s.store, s.now))
    case Beside(a) => s.(store := Written(s, a), writes := WritesAfter(s, a))
    case Select(r, kind, jobs, t, i) => s.(runs := s.runs[r := NewRun(kind, jobs, t, i)])
    case RunAct(r, act) =>
      var (store, run) := Perform(s.store, s.runs[r], act, s.now);
      s.(store := store, runs := s.runs[r := run])
  }

  ghost predicate Quiet(phase: Phase) {
    (phase.Requeued? || phase.Done?) && phase.ok
  }

  /** A run's lease: only its own targets can be under its token, and none is once the
      deferred requeue went through. */
  ghost predicate LeaseOk(s: Store, run: Run) {
    && run.token <= s.issued
    && JobsMatch(s, run.jobs)
    && (run.token > 0 ==> forall id :: Held(s, id, run.token) ==> id in TargetIds(run.jobs))
    && (run.token > 0 && Quiet(run.phase) ==> forall id :: !Held(s, id, run.token))
  }

  ghost predicate DistinctTokens(runs: map<nat, Run>) {
    forall r, q :: r in runs && q in runs && r != q && runs[r].token > 0 ==> runs[r].token != runs[q].token
  }

  ghost predicate Inv(s: Sys) {
    && Valid(s.store)
    && (forall r :: r in s.runs ==> RunOk(s.runs[r]) && LeaseOk(s.store, s.runs[r]))
    && DistinctTokens(s.runs)
  }

  // ---------- one act keeps the run and the table ----------

  /** What an act may do to the table: who holds a changed row, and which results it records. */
  ghost predicate Permitted(s: Store, run: Run, act: Act, s': Store) {
    && s'.targets.Keys == s.targets.Keys
    && (forall id :: id in s.targets && s'.targets[id] != s.targets[id] ==>
          match act
          case Refresh => id in TargetIds(run.jobs)
          case TakeLease(_) => s.targets[id].token == 0
          case Consume(_, _) => run.phase.Live? && Held(s, id, run.token)
          case DeferRequeue(_) => Held(s, id, run.token)
          case _ => false)
    && s.samples <= s'.samples
    && (s'.samples != s.samples ==>
          && act.Consume? && run.phase.Live?
          && |s'.samples| == |s.samples| + 1 && s'.samples[|s.samples|].token == run.token)
  }

  ghost predicate ActOk(s: Store, run: Run, act: Act, s': Store, run': Run) {
    && Lawful(s, s') && Permitted(s, run, act, s')
    && RunOk(run') && LeaseOk(s', run')
    && (run'.token == run.token || (run.token == 0 && s.issued < run'.token))
  }

  /** Nothing beside the runs revives a token, records a result or moves a row to another group. */
  lemma BesideLawful(s: Sys, a: Aside)
    requires Valid(s.store) && CanBeside(s, a)
    ensures Lawful(s.store, Written(s, a)) && Written(s, a).samples == s.store.samples
  {
    match a
    case WriteRow(w) => WriteDueLawful(s.store, s.writes[w].target, s.writes[w].due);
    case NewTarget(id, row) => CreateLawful(s.store, id, row);
    case DropTargets(ids) => DeleteLawful(s.store, ids, 0);
    case DropGroup(g) => DeleteLawful(s.store, {}, g);
    case RequestProbe(_, ids) => ResetLawful(s.store, ids, s.now);
    case _ =>
  }

  lemma ReconcileLawful(s: Store, groups: set<nat>)
    requires Valid(s)
    ensures Lawful(s, Reconcile(s, groups)) && Reconcile(s, groups).targets == s.targets
  {
  }

  lemma LeaseSurvives(s: Store, s': Store, run: Run)
    requires LeaseOk(s, run) && SameShape(s, s') && NoRevival(s, s')
    ensures LeaseOk(s', run)
  {
  }

  lemma TakeLeaseOk(s: Store, run: Run, ok: bool, now: int)
    requires Valid(s) && RunOk(run) && LeaseOk(s, run) && CanAct(run, TakeLease(ok))
    ensures var (s', run') := Leased(s, run, ok, now); ActOk(s, run, TakeLease(ok), s', run')
  {
    ClaimLawful(s, TargetIds(run.jobs), now);
    LeaseSurvives(s, Claim(s, TargetIds(run.jobs), now), run);
  }

  lemma MarkedRun(s: Store, run: Run, ok: bool)
    requires RunOk(run) && run.phase.Claimed?
    ensures RunOk(Marked(s, run, ok).1)
  {
    StartState(run.jobs, run.kind == Scheduled);
    var run' := Marked(s, run, ok).1;
    assert forall i :: 0 <= i < |run.stages| ==> run.stages[i] == Todo;
    if run.kind == Scheduled {
      assert run'.stages == run.stages;
    }
  }

  lemma MarkOk(s: Store, run: Run, ok: bool)
    requires Valid(s) && RunOk(run) && LeaseOk(s, run) && run.phase.Claimed?
    ensures var (s', run') := Marked(s, run, ok); ActOk(s, run, MarkTesting(ok), s', run')
  {
    MarkedRun(s, run, ok);
    var (s', run') := Marked(s, run, ok);
    MarkLawful(s, Groups(run.jobs));
    Advance(s, run, MarkTesting(ok), s', run');
  }

  lemma MarkLawful(s: Store, groups: set<nat>)
    requires Valid(s)
    ensures Lawful(s, s) && Lawful(s, MarkGroups(s, groups))
    ensures MarkGroups(s, groups).targets == s.targets && MarkGroups(s, groups).samples == s.samples
  {
  }

  /** The head of the channel is a result nobody handled yet. */
  lemma HeadIsNext(run: Run)
    requires RunOk(run) && run.phase.Live? && run.results != []
    ensures CanConsume(run) && ProbeConsumer.Next(run.jobs, run.history, Handled(run.results[0].job, Released))
  {
    var i := run.results[0].job;
    assert run.jobs[i].group in Groups(run.jobs);
  }

  lemma TailKeepsResults(run: Run)
    requires RunOk(run) && run.results != []
    ensures OneResultEach(run.jobs, run.stages, run.results[1..], run.history)
  {
  }

  lemma HistoryKeepsResults(run: Run, h: Handled)
    requires RunOk(run) && run.results != [] && h.job == run.results[0].job
    requires ProbeConsumer.Next(run.jobs, run.history, h)
    ensures OneResultEach(run.jobs, run.stages, run.results[1..], run.history + [h])
  {
    AffectedStep(run.jobs, run.history, h);
  }

  lemma StopOk(run: Run)
    requires RunOk(run) && run.phase.Live? && run.results != []
    ensures RunOk(Stop(run))
  {
    TailKeepsResults(run);
  }

  lemma StopAfterOk(run: Run, h: Handled)
    requires RunOk(run) && run.phase.Live? && run.results != [] && h.job == run.results[0].job
    requires ProbeConsumer.Next(run.jobs, run.history, h)
    ensures RunOk(Stop(run).(history := run.history + [h]))
  {
    HistoryKeepsResults(run, h);
  }

  lemma NotedOk(run: Run, h: Handled)
    requires RunOk(run) && run.phase.Live? && run.results != [] && h.job == run.results[0].job
    requires ProbeConsumer.Next(run.jobs, run.history, h) && run.jobs[h.job].group in run.consumer.remaining
    ensures RunOk(Noted(run, h))
  {
    HistoryKeepsResults(run, h);
    assert LoopOk(Noted(run, h)) by {
      IterateState(run.jobs, run.history, run.consumer, h, run.kind == Scheduled);
    }
  }

  lemma PersistOk(s: Store, run: Run, res: Result, due: int, now: int, fault: Fault)
    requires Valid(s) && LeaseOk(s, run) && run.token > 0 && run.phase.Live? && res.job < |run.jobs|
    ensures var s' := Persist(s, run, res, due, now).0;
            Lawful(s, s') && Permitted(s, run, Consume(due, fault), s')
  {
    var id := run.jobs[res.job].target;
    match res.outcome
    case Skip(_) => ReleaseLawful(s, id, run.token, now);
    case Probe(success) => RecordLawful(s, id, run.token, success, now, due);
  }

  lemma Advance(s: Store, run: Run, act: Act, s': Store, run': Run)
    requires LeaseOk(s, run) && Lawful(s, s') && Permitted(s, run, act, s') && RunOk(run')
    requires run'.token == run.token && run'.jobs == run.jobs && !Quiet(run'.phase)
    ensures ActOk(s, run, act, s', run')
  {
  }

  /** The possible outcomes of one pass, before any invariant. */
  lemma ConsumedShape(s: Store, run: Run, due: int, fault: Fault, now: int)
    requires CanConsume(run)
    ensures var (s1, effect, _) := Persist(s, run, run.results[0], due, now);
            var h := Handled(run.results[0].job, effect);
            var (s', run') := Consumed(s, run, due, fault, now);
            && (s' == s || s' == s1 || s' == Reconcile(s1, {run.jobs[h.job].group}))
            && (run' == Stop(run) || run' == Noted(run, h) || run' == Stop(run).(history := run.history + [h]))
            && run'.token == run.token && run'.jobs == run.jobs && !Quiet(run'.phase)
  {
  }

  lemma ReconcilePermitted(s: Store, run: Run, act: Act, s1: Store, groups: set<nat>)
    requires Lawful(s, s1) && Permitted(s, run, act, s1)
    ensures Lawful(s, Reconcile(s1, groups)) && Permitted(s, run, act, Reconcile(s1, groups))
  {
    ReconcileLawful(s1, groups);
  }

  lemma ConsumedRun(s: Store, run: Run, due: int, fault: Fault, now: int)
    requires RunOk(run) && CanConsume(run)
    ensures RunOk(Consumed(s, run, due, fault, now).1)
  {
    HeadIsNext(run);
    ConsumedShape(s, run, due, fault, now);
    var run' := Consumed(s, run, due, fault, now).1;
    var h := Handled(run.results[0].job, Persist(s, run, run.results[0], due, now).1);
    if run' == Stop(run) {
      StopOk(run);
    } else if run' == Noted(run, h) {
      NotedOk(run, h);
    } else {
      StopAfterOk(run, h);
    }
  }

  lemma ConsumedStore(s: Store, run: Run, due: int, fault: Fault, now: int)
    requires Valid(s) && LeaseOk(s, run) && run.token > 0 && CanConsume(run)
    ensures var s' := Consumed(s, run, due, fault, now).0;
            Lawful(s, s') && Permitted(s, run, Consume(due, fault), s')
  {
    ConsumedShape(s, run, due, fault, now);
    var res := run.results[0];
    PersistOk(s, run, res, due, now, fault);
    ReconcilePermitted(s, run, Consume(due, fault), Persist(s, run, res, due, now).0, {run.jobs[res.job].group});
  }

  lemma ConsumeOk(s: Store, run: Run, due: int, fault: Fault, now: int)
    requires Valid(s) && RunOk(run) && LeaseOk(s, run) && CanConsume(run)
    ensures var (s', run') := Consumed(s, run, due, fault, now);
            ActOk(s, run, Consume(due, fault), s', run')
  {
    ConsumedShape(s, run, due, fault, now);
    ConsumedRun(s, run, due, fault, now);
    ConsumedStore(s, run, due, fault, now);
    var (s', run') := Consumed(s, run, due, fault, now);
    Advance(s, run, Consume(due, fault), s', run');
  }

  lemma EndLoopOk(s: Store, run: Run, reconciled: set<nat>)
    requires Valid(s) && RunOk(run) && LeaseOk(s, run) && CanAct(run, EndLoop(reconciled))
    ensures var (s', run') := Ended(s, run, reconciled); ActOk(s, run, EndLoop(reconciled), s', run')
  {
    ReconcileLawful(s, reconciled);
    var run' := Ended(s, run, reconciled).1;
    assert run.consumer.reconciled <= run.consumer.affected;
  }

  lemma DeferRequeueOk(s: Store, run: Run, ok: bool, now: int)
    requires Valid(s) && RunOk(run) && LeaseOk(s, run) && run.phase.Returned?
    ensures var (s', run') := Requeueing(s, run, ok, now); ActOk(s, run, DeferRequeue(ok), s', run')
  {
    RequeueLawful(s, TargetIds(run.jobs), run.token, now);
    var (s', run') := Requeueing(s, run, ok, now);
    LeaseSurvives(s, s', run);
  }

  lemma DeferReconcileOk(s: Store, run: Run, reconciled: set<nat>)
    requires Valid(s) && RunOk(run) && LeaseOk(s, run) && CanAct(run, DeferReconcile(reconciled))
    ensures var (s', run') := Perform(s, run, DeferReconcile(reconciled), 0);
            ActOk(s, run, DeferReconcile(reconciled), s', run')
  {
    ReconcileLawful(s, reconciled);
    var run' := Perform(s, run, DeferReconcile(reconciled), 0).1;
  }

  lemma RefreshOk(s: Store, run: Run, now: int)
    requires Valid(s) && RunOk(run) && LeaseOk(s, run) && CanAct(run, Refresh)
    ensures var (s', run') := Perform(s, run, Refresh, now); ActOk(s, run, Refresh, s', run')
  {
    ResetLawful(s, TargetIds(run.jobs), now);
    var (s', run') := Perform(s, run, Refresh, now);
    LeaseSurvives(s, s', run);
  }

  lemma DoActOk(s: Store, run: Run, act: Act, now: int)
    requires Valid(s) && RunOk(run) && LeaseOk(s, run) && CanAct(run, act)
    ensures var (s', run') := Perform(s, run, act, now); ActOk(s, run, act, s', run')
  {
    match act
    case Refresh => RefreshOk(s, run, now);
    case TakeLease(ok) => TakeLeaseOk(s, run, ok, now);
    case MarkTesting(ok) => MarkOk(s, run, ok);
    case Go(step) => DoKeepsRun(run, step);
    case Consume(due, fault) => ConsumeOk(s, run, due, fault, now);
    case EndLoop(reconciled) => EndLoopOk(s, run, reconciled);
    case DeferRequeue(ok) => DeferRequeueOk(s, run, ok, now);
    case DeferReconcile(reconciled) => DeferReconcileOk(s, run, reconciled);
  }
}
