/**
 Safety of every interleaving of probe runs: what each event may change, what holds in every
 reachable state, and what a run leaves behind.
 */
module ProbeTheorems {
  import opened ProbeStore
  import opened ProbeConsumer
  import opened ProbeRun
  import opened ProbeSystem

  ghost predicate Initial(s: Sys) {
    Valid(s.store) && s.store.samples == [] && s.runs == map[] && s.writes == map[]
  }

  ghost predicate Follows(s: Sys, e: Event, s': Sys) {
    Enabled(s, e) && s' == ProbeSystem.Next(s, e)
  }

  ghost predicate StepOk(states: seq<Sys>, events: seq<Event>, i: nat) {
    i < |events| && i + 1 < |states| && Follows(states[i], events[i], states[i + 1])
  }

  /** states[i+1] is the result of events[i] in states[i]. */
  ghost predicate Execution(states: seq<Sys>, events: seq<Event>) {
    |states| == |events| + 1 && forall i: nat :: i < |events| ==> StepOk(states, events, i)
  }

  lemma StepAt(states: seq<Sys>, events: seq<Event>, n: nat)
    requires Execution(states, events) && 0 < n < |states|
    ensures Follows(states[n - 1], events[n - 1], states[n])
  {
    assert StepOk(states, events, n - 1);
  }

  // ---------- one event ----------

  lemma TokensStayDistinct(s: Sys, r: nat, run: Run)
    requires Inv(s) && r in s.runs
    requires run.token == s.runs[r].token || s.store.issued < run.token
    ensures DistinctTokens(s.runs[r := run])
  {
    assert forall q :: q in s.runs ==> LeaseOk(s.store, s.runs[q]);
  }

  lemma OthersKeepLeases(s: Sys, r: nat, s': Store)
    requires Inv(s) && Lawful(s.store, s')
    ensures forall q :: q in s.runs && q != r ==> LeaseOk(s', s.runs[q])
  {
    forall q | q in s.runs && q != r ensures LeaseOk(s', s.runs[q]) {
      LeaseSurvives(s.store, s', s.runs[q]);
    }
  }

  lemma InvAfter(s: Sys, r: nat, store: Store, run: Run)
    requires Inv(s) && r in s.runs && Lawful(s.store, store) && RunOk(run) && LeaseOk(store, run)
    requires run.token == s.runs[r].token || s.store.issued < run.token
    ensures Inv(s.(store := store, runs := s.runs[r := run]))
  {
    TokensStayDistinct(s, r, run);
    OthersKeepLeases(s, r, store);
  }

  lemma RunActKeeps(s: Sys, r: nat, act: Act)
    requires Inv(s) && Enabled(s, RunAct(r, act))
    ensures Inv(ProbeSystem.Next(s, RunAct(r, act)))
    ensures Lawful(s.store, ProbeSystem.Next(s, RunAct(r, act)).store)
  {
    DoActOk(s.store, s.runs[r], act, s.now);
    var (store, run) := Perform(s.store, s.runs[r], act, s.now);
    InvAfter(s, r, store, run);
  }

  lemma NewRunOk(s: Store, kind: Kind, jobs: seq<Job>, t: nat, i: nat)
    requires Valid(s) && JobsMatch(s, jobs) && DistinctTargets(jobs)
    ensures RunOk(NewRun(kind, jobs, t, i)) && LeaseOk(s, NewRun(kind, jobs, t, i))
  {
    var run := NewRun(kind, jobs, t, i);
    assert InStage(jobs, run.stages, true, Working) == {};
    assert InStage(jobs, run.stages, false, Working) == {};
  }

  /** Every event keeps the system invariant, and no table change revives an issued token. */
  lemma StepKeepsInv(s: Sys, e: Event)
    requires Inv(s) && Enabled(s, e)
    ensures Inv(ProbeSystem.Next(s, e)) && Lawful(s.store, ProbeSystem.Next(s, e).store)
  {
    var s' := ProbeSystem.Next(s, e);
    match e
    case RunAct(r, act) => RunActKeeps(s, r, act);
    case Select(r, kind, jobs, t, i) => NewRunOk(s.store, kind, jobs, t, i);
    case ExpireLeases =>
      RequeueExpiredLawful(s.store, s.now);
      forall q | q in s.runs ensures LeaseOk(s'.store, s'.runs[q]) { LeaseSurvives(s.store, s'.store, s.runs[q]); }
    case Beside(a) =>
      BesideLawful(s, a);
      forall q | q in s.runs ensures LeaseOk(s'.store, s'.runs[q]) { LeaseSurvives(s.store, s'.store, s.runs[q]); }
    case Tick(_) =>
  }

  /** Why a row may change: its holder handled a result or requeued it; it was free and got
      leased; its lease ran out; or a manual probe of its model or group took it over. */
  ghost predicate Authorised(s: Sys, e: Event, id: nat)
    requires id in s.store.targets
  {
    match e
    case ExpireLeases => Expired(s.store.targets[id], s.now)
    case Beside(a) => a.RequestProbe? && id in a.targets
    case RunAct(r, act) =>
      r in s.runs &&
      (match act
       case Consume(_, _) => s.runs[r].phase.Live? && Held(s.store, id, s.runs[r].token)
       case DeferRequeue(_) => Held(s.store, id, s.runs[r].token)
       case TakeLease(_) => s.store.targets[id].token == 0
       case Refresh => s.runs[r].kind == Immediate && id in TargetIds(s.runs[r].jobs)
       case _ => false)
    case _ => false
  }

  /** Rescheduling writes the row's due time. */
  ghost predicate Redates(s: Sys, e: Event, id: nat) {
    e.Beside? && e.aside.WriteRow? && e.aside.write in s.writes && s.writes[e.aside.write].target == id
  }

  /** The row, or its whole group, is deleted. */
  ghost predicate Removes(s: Sys, e: Event, id: nat)
    requires id in s.store.targets
  {
    && e.Beside?
    && ((e.aside.DropTargets? && id in e.aside.targets) || (e.aside.DropGroup? && s.store.targets[id].group == e.aside.group))
  }

  /** The row in two states: gone only if `removed`, changed only with authority, but for its due
      time if `redated`, and there at all only if it was before or is `created`. */
  ghost predicate Accounted(before: map<nat, Target>, after: map<nat, Target>, id: nat, authorised: bool, redated: bool,
                            removed: bool, created: bool) {
    && (id in before ==> (id in after <==> !removed))
    && (id in before && id in after ==>
          && (after[id].(nextProbeAt := before[id].nextProbeAt) != before[id] ==> authorised)
          && (after[id].nextProbeAt != before[id].nextProbeAt ==> authorised || redated))
    && (id !in before && id in after ==> created)
  }

  lemma AsideAccounted(s: Sys, a: Aside, id: nat)
    requires Valid(s.store) && CanBeside(s, a)
    ensures var e := Beside(a);
            Accounted(s.store.targets, Written(s, a).targets, id, id in s.store.targets && Authorised(s, e, id),
                      Redates(s, e, id), id in s.store.targets && Removes(s, e, id), a.NewTarget? && a.target == id)
  {
  }

  lemma ActAccounted(s: Sys, r: nat, act: Act, id: nat)
    requires Inv(s) && Enabled(s, RunAct(r, act))
    ensures var after := ProbeSystem.Next(s, RunAct(r, act)).store.targets;
            Accounted(s.store.targets, after, id, id in s.store.targets && Authorised(s, RunAct(r, act), id), false, false, false)
  {
    ActPermitted(s, r, act);
  }

  /** In every reachable state a target row changes only with authority, but for its due time,
      which rescheduling overwrites whoever holds the row; it goes exactly when it is deleted,
      and appears only when it is created. */
  lemma OnlyAuthorisedChanges(s: Sys, e: Event, id: nat)
    requires Inv(s) && Enabled(s, e)
    ensures Accounted(s.store.targets, ProbeSystem.Next(s, e).store.targets, id,
                      id in s.store.targets && Authorised(s, e, id), Redates(s, e, id),
                      id in s.store.targets && Removes(s, e, id),
                      e.Beside? && e.aside.NewTarget? && e.aside.target == id)
  {
    match e
    case RunAct(r, act) => ActAccounted(s, r, act, id);
    case Beside(a) => AsideAccounted(s, a, id);
    case _ =>
  }

  /** Handling a result without the lease leaves the whole table as it was. A probed result then
      affects no group; a skipped one counts its group as affected all the same. */
  lemma LostLeaseIsHarmless(s: Store, run: Run, res: Result, due: int, now: int)
    requires res.job < |run.jobs| && !Held(s, run.jobs[res.job].target, run.token)
    ensures var (s', effect, ok) := Persist(s, run, res, due, now);
            s' == s && ok && (Affects(effect) <==> res.outcome.Skip?)
  {
  }

  // ---------- whole executions ----------

  lemma InitialInv(s: Sys)
    requires Initial(s)
    ensures Inv(s)
  {
  }

  lemma InvAt(states: seq<Sys>, events: seq<Event>, n: nat)
    requires Execution(states, events) && 0 < n < |states| && Inv(states[n - 1])
    ensures Inv(states[n])
  {
    StepAt(states, events, n);
    StepKeepsInv(states[n - 1], events[n - 1]);
  }

  lemma {:induction false} Safety(states: seq<Sys>, events: seq<Event>, n: nat)
    requires Execution(states, events) && Inv(states[0]) && n < |states|
    ensures Inv(states[n])
  {
    if n > 0 {
      Safety(states, events, n - 1);
      InvAt(states, events, n);
    }
  }

  lemma LostStep(s: Sys, e: Event, id: nat, token: nat)
    requires Inv(s) && Enabled(s, e)
    requires 0 < token <= s.store.issued && !Held(s.store, id, token)
    ensures !Held(ProbeSystem.Next(s, e).store, id, token) && token <= ProbeSystem.Next(s, e).store.issued
  {
    var store' := ProbeSystem.Next(s, e).store;
    assert NoRevival(s.store, store') && s.store.issued <= store'.issued by { StepKeepsInv(s, e); }
  }

  ghost predicate Lost(s: Store, id: nat, token: nat) {
    0 < token <= s.issued && !Held(s, id, token)
  }

  lemma LostAt(states: seq<Sys>, events: seq<Event>, n: nat, id: nat, token: nat)
    requires Execution(states, events) && Inv(states[0]) && 0 < n < |states|
    requires Lost(states[n - 1].store, id, token)
    ensures Lost(states[n].store, id, token)
  {
    Safety(states, events, n - 1);
    StepAt(states, events, n);
    LostStep(states[n - 1], events[n - 1], id, token);
  }

  /** A target that is not under an issued token never comes under it again: a lost lease is
      lost for good, whoever runs next. */
  lemma {:induction false} LostLeaseStaysLost(states: seq<Sys>, events: seq<Event>, i: nat, j: nat, id: nat, token: nat)
    requires Execution(states, events) && Inv(states[0]) && i <= j < |states|
    requires Lost(states[i].store, id, token)
    ensures Lost(states[j].store, id, token)
  {
    if i < j {
      LostLeaseStaysLost(states, events, i, j - 1, id, token);
      LostAt(states, events, j, id, token);
    }
  }

  ghost predicate BodyOver(phase: Phase) {
    phase.Returned? || phase.Requeued? || phase.Done?
  }

  lemma PhaseOfStep(run: Run, step: Step)
    requires Can(run, step)
    ensures var run' := Do(run, step);
            run'.jobs == run.jobs && run'.token == run.token && (run'.phase == run.phase || run.phase.Preflight?)
  {
  }

  lemma PhaseOfAct(s: Store, run: Run, act: Act, now: int)
    requires RunOk(run) && CanAct(run, act)
    ensures var run' := Perform(s, run, act, now).1;
            && run'.jobs == run.jobs
            && (run.token > 0 ==> run'.token == run.token)
            && (BodyOver(run.phase) ==> BodyOver(run'.phase) && run'.token == run.token)
            && (Quiet(run.phase) ==> Quiet(run'.phase))
  {
    match act
    case Consume(due, fault) => ConsumedShape(s, run, due, fault, now);
    case Go(step) => PhaseOfStep(run, step);
    case _ =>
  }

  lemma PhasesAdvance(s: Sys, e: Event, r: nat)
    requires Enabled(s, e) && r in s.runs && RunOk(s.runs[r])
    ensures var s' := ProbeSystem.Next(s, e);
            && r in s'.runs
            && (BodyOver(s.runs[r].phase) ==> BodyOver(s'.runs[r].phase) && s'.runs[r].token == s.runs[r].token)
            && (Quiet(s.runs[r].phase) ==> Quiet(s'.runs[r].phase))
  {
    if e.RunAct? && e.run == r { PhaseOfAct(s.store, s.runs[r], e.act, s.now); }
  }

  /** One event records nothing under `token` unless a live run holds it. */
  ghost predicate NothingRecorded(s: Store, s': Store, token: nat) {
    && |s.samples| <= |s'.samples|
    && forall k :: |s.samples| <= k < |s'.samples| ==> s'.samples[k].token != token
  }

  lemma PermittedRecord(s: Store, run: Run, act: Act, s': Store, token: nat)
    requires Permitted(s, run, act, s') && (run.phase.Live? ==> run.token != token)
    ensures NothingRecorded(s, s', token) && s.samples <= s'.samples
  {
  }

  lemma ActPermitted(s: Sys, r: nat, act: Act)
    requires Inv(s) && Enabled(s, RunAct(r, act))
    ensures Permitted(s.store, s.runs[r], act, ProbeSystem.Next(s, RunAct(r, act)).store)
  {
    DoActOk(s.store, s.runs[r], act, s.now);
  }

  lemma OverRunRecordsNothing(s: Sys, e: Event, r: nat)
    requires Inv(s) && Enabled(s, e) && r in s.runs && BodyOver(s.runs[r].phase) && s.runs[r].token > 0
    ensures NothingRecorded(s.store, ProbeSystem.Next(s, e).store, s.runs[r].token)
    ensures s.store.samples <= ProbeSystem.Next(s, e).store.samples
  {
    match e
    case RunAct(q, act) =>
      assert s.runs[q].phase.Live? ==> s.runs[q].token != s.runs[r].token;
      ActPermitted(s, q, act);
      PermittedRecord(s.store, s.runs[q], act, ProbeSystem.Next(s, e).store, s.runs[r].token);
    case _ =>
  }

  lemma SilentAt(states: seq<Sys>, events: seq<Event>, n: nat, r: nat)
    requires Execution(states, events) && Inv(states[0]) && 0 < n < |states|
    requires r in states[n - 1].runs && BodyOver(states[n - 1].runs[r].phase) && states[n - 1].runs[r].token > 0
    ensures NothingRecorded(states[n - 1].store, states[n].store, states[n - 1].runs[r].token)
    ensures states[n - 1].store.samples <= states[n].store.samples
  {
    Safety(states, events, n - 1);
    StepAt(states, events, n);
    OverRunRecordsNothing(states[n - 1], events[n - 1], r);
  }

  /** Nothing is recorded for a run after its body returned, whatever its workers still send. */
  lemma {:induction false} SilentAfterReturn(states: seq<Sys>, events: seq<Event>, i: nat, j: nat, r: nat)
    requires Execution(states, events) && Inv(states[0]) && i <= j < |states|
    requires r in states[i].runs && BodyOver(states[i].runs[r].phase) && states[i].runs[r].token > 0
    ensures NothingRecorded(states[i].store, states[j].store, states[i].runs[r].token)
  {
    if i < j {
      SilentAfterReturn(states, events, i, j - 1, r);
      StillOver(states, events, i, j - 1, r);
      SilentAt(states, events, j, r);
    }
  }

  /** The run's body is over, and stays so: phase and token of a run in two states. */
  ghost predicate Over(run: Run, run': Run) {
    && BodyOver(run'.phase) && run'.token == run.token
    && (Quiet(run.phase) ==> Quiet(run'.phase))
  }

  lemma OverAt(states: seq<Sys>, events: seq<Event>, n: nat, r: nat)
    requires Execution(states, events) && Inv(states[0]) && 0 < n < |states|
    requires r in states[n - 1].runs && BodyOver(states[n - 1].runs[r].phase)
    ensures r in states[n].runs && Over(states[n - 1].runs[r], states[n].runs[r])
  {
    Safety(states, events, n - 1);
    StepAt(states, events, n);
    PhasesAdvance(states[n - 1], events[n - 1], r);
  }

  lemma {:induction false} StillOver(states: seq<Sys>, events: seq<Event>, i: nat, j: nat, r: nat)
    requires Execution(states, events) && Inv(states[0]) && i <= j < |states|
    requires r in states[i].runs && BodyOver(states[i].runs[r].phase)
    ensures r in states[j].runs && Over(states[i].runs[r], states[j].runs[r])
  {
    if i < j {
      StillOver(states, events, i, j - 1, r);
      OverAt(states, events, j, r);
    }
  }

  /** On every exit path: from the moment the deferred requeue went through, no target is ever
      again under the run's token. */
  lemma NothingLeftClaimed(states: seq<Sys>, events: seq<Event>, i: nat, j: nat, r: nat, id: nat)
    requires Execution(states, events) && Inv(states[0]) && i <= j < |states|
    requires r in states[i].runs && Quiet(states[i].runs[r].phase) && states[i].runs[r].token > 0
    ensures !Held(states[j].store, id, states[i].runs[r].token)
  {
    StillOver(states, events, i, j, r);
    Safety(states, events, j);
  }

  /** One claim records at most one result for a target. */
  lemma OneSamplePerClaim(states: seq<Sys>, events: seq<Event>, n: nat, a: nat, b: nat)
    requires Execution(states, events) && Initial(states[0]) && n < |states|
    requires a < b < |states[n].store.samples|
    ensures var x, y := states[n].store.samples[a], states[n].store.samples[b];
            x.target != y.target || x.token != y.token
  {
    InitialInv(states[0]);
    Safety(states, events, n);
  }

  // ---------- completion ----------

  /** A completed run reconciled exactly the groups its handled results affected. If every job
      delivered, its summary balances: due = tested + skipped. */
  lemma CompletedRun(states: seq<Sys>, events: seq<Event>, n: nat, r: nat)
    requires Execution(states, events) && Initial(states[0]) && n < |states| && r in states[n].runs
    requires Completed(states[n].runs[r].phase)
    ensures var run := states[n].runs[r];
            && WellFormed(run.jobs, run.history)
            && run.consumer.reconciled == AffectedGroups(run.jobs, run.history)
            && run.consumer.tested == run.consumer.succeeded + run.consumer.failed
            && run.consumer.tested + CountSkipped(run.history) == |run.history| <= |run.jobs|
  {
    InitialInv(states[0]);
    Safety(states, events, n);
    var run := states[n].runs[r];
    assert RunOk(run);
    HistoryAtMostJobs(run.jobs, run.history);
  }

  lemma HistoryAtMostJobs(jobs: seq<Job>, hs: seq<Handled>)
    requires WellFormed(jobs, hs)
    ensures |hs| <= |jobs|
  {
    if |hs| > 0 {
      var m := |hs| - 1;
      assert hs[m].job !in HandledJobs(hs[..m]);
      MissingOne(hs[..m], |jobs|, hs[m].job);
    }
  }

  /** One pool sees the cancellation, if it has a job queued. */
  ghost function Dropped(run: Run, image: bool): Run {
    if Can(run, Abandon(image)) then Do(run, Abandon(image)) else run
  }

  /** A cancelled run with every job still queued, text, image or both, can drop them all and
      close its channel. */
  lemma DropsAll(run: Run)
    requires RunOk(run) && run.started && run.cancelled && !run.closed
    requires forall i :: 0 <= i < |run.stages| ==> run.stages[i] == Queued
    ensures var r := Dropped(Dropped(run, true), false);
            Can(r, CloseResults) && Do(r, CloseResults) == run.(stages := seq(|run.jobs|, _ => Abandoned), closed := true)
  {
    var r1 := Dropped(run, true);
    assert forall i :: 0 <= i < |run.jobs| ==> r1.stages[i] == if run.jobs[i].image then Abandoned else Queued;
    var r2 := Dropped(r1, false);
    assert forall i :: 0 <= i < |run.jobs| ==> r2.stages[i] == Abandoned;
    assert r2.stages == seq(|run.jobs|, _ => Abandoned);
  }

  lemma NothingAffected(run: Run)
    requires RunOk(run) && run.phase.Live? && run.history == []
    ensures run.consumer.affected == {} && run.consumer.reconciled == {} && Trailing(run.consumer) == {}
  {
    assert run.consumer.affected == AffectedGroups(run.jobs, []);
    assert forall g :: g in run.consumer.reconciled ==> g in run.consumer.affected;
  }

  /** Not every path reconciles: a scheduled run cancelled after its preflight queued every job
      and before any was dispatched drops them all (DropsAll), and then ends completed: its
      targets are requeued, its groups stay marked and no deferred reconcile follows. */
  lemma CancelledBeforeDispatch(s: Store, run: Run, now: int)
    requires run.kind == Scheduled && run.phase == Live && run.closed && run.results == []
    requires RunOk(run) && run.history == []
    ensures CanAct(run, EndLoop({}))
    ensures var (s1, r1) := Perform(s, run, EndLoop({}), now);
            && r1.phase == Returned(true) && r1.consumer.reconciled == {} && CanAct(r1, DeferRequeue(true))
            && var (s2, r2) := Perform(s1, r1, DeferRequeue(true), now);
            && s2.marked == s.marked && r2.phase == Requeued(true, true)
            && forall g :: CanAct(r2, DeferReconcile(g)) ==> g == {}
  {
    NothingAffected(run);
  }

  // ---------- progress ----------

  lemma MarkLosesWeight(s: Store, run: Run, ok: bool)
    requires RunOk(run) && run.phase.Claimed?
    ensures Weight(Marked(s, run, ok).1) < Weight(run)
  {
    var run' := Marked(s, run, ok).1;
    RanksDrop(run.stages, run'.stages);
  }

  lemma ConsumeLosesWeight(s: Store, run: Run, due: int, fault: Fault, now: int)
    requires CanConsume(run)
    ensures Weight(Consumed(s, run, due, fault, now).1) < Weight(run)
  {
    ConsumedShape(s, run, due, fault, now);
    var run' := Consumed(s, run, due, fault, now).1;
    assert run'.stages == run.stages && |run'.results| == |run.results| - 1;
  }

  lemma ActLosesWeight(s: Store, run: Run, act: Act, now: int)
    requires RunOk(run) && CanAct(run, act)
    ensures Weight(Perform(s, run, act, now).1) < Weight(run)
  {
    match act
    case Go(step) => DoLosesWeight(run, step);
    case Consume(due, fault) => ConsumeLosesWeight(s, run, due, fault, now);
    case MarkTesting(ok) => MarkLosesWeight(s, run, ok);
    case _ =>
  }

  /** A run is never stuck: until it is done and its goroutines are gone, one of its own steps
      is possible; every one of them loses weight, and a run starts with weight
      4 * jobs + 9. So every run ends, cancelled or not, after at most that many steps. */
  lemma RunsNeverStuck(run: Run) returns (act: Act)
    requires RunOk(run)
    requires !run.phase.Done? || (run.started && !run.closed)
    ensures CanAct(run, act)
    ensures forall s, now :: Weight(Perform(s, run, act, now).1) < Weight(run)
  {
    if run.started && !run.closed {
      var step := GoroutinesNeverStuck(run);
      act := Go(step);
    } else if run.phase.Live? {
      if run.results != [] {
        HeadIsNext(run);
        act := Consume(0, NoFault);
      } else {
        act := EndLoop({});
      }
    } else {
      act := match run.phase
        case Selected => if run.kind == Immediate then Refresh else TakeLease(true)
        case Refreshed => TakeLease(true)
        case Claimed => MarkTesting(true)
        case Preflight(next) => Go(if next < |run.jobs| then PreflightJob(false, Skip(false)) else StartPools)
        case Returned(_) => DeferRequeue(true)
        case _ => DeferReconcile({});
    }
    forall s, now ensures Weight(Perform(s, run, act, now).1) < Weight(run) {
      ActLosesWeight(s, run, act, now);
    }
  }
}
