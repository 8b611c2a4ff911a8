/**
 From a probe's outcome to the table and the summary: what handling a result does, in terms of
 the table before and after, and where a recorded result came from
 (controller/hub_supply_probe.go, lines 207-256 and 341-362).
 */
module ProbeResults {
  import opened ProbeStore
  import opened ProbeConsumer
  import opened ProbeRun
  import opened ProbeSystem
  import opened ProbeTheorems

  /** The target the head of the channel is about, and its group. */
  function HeadTarget(run: Run): nat
    requires run.results != [] && run.results[0].job < |run.jobs|
  {
    run.jobs[run.results[0].job].target
  }

  function HeadGroup(run: Run): nat
    requires run.results != [] && run.results[0].job < |run.jobs|
  {
    run.jobs[run.results[0].job].group
  }

  /** The row's configuration is the one its group has in the table. */
  predicate UpToDate(s: Store, id: nat) {
    id in s.targets && s.targets[id].group in s.versions && s.targets[id].version == s.versions[s.targets[id].group]
  }

  lemma HeadGroupMatches(s: Store, run: Run)
    requires LeaseOk(s, run) && CanConsume(run) && HeadTarget(run) in s.targets
    ensures s.targets[HeadTarget(run)].group == HeadGroup(run)
  {
  }

  /** A sample is added exactly when a probed result is handled under the lease of an existing
      group and nothing stopped the run before; it is the result's own. */
  lemma SampleExactly(s: Store, run: Run, due: int, fault: Fault, now: int)
    requires CanConsume(run)
    ensures var s', o, id := Consumed(s, run, due, fault, now).0, run.results[0].outcome, HeadTarget(run);
            s'.samples ==
              if !StopsAtOnce(run, o, fault) && o.Probe? && Held(s, id, run.token) && s.targets[id].group in s.versions
              then s.samples + [Sample(id, run.token, o.success)] else s.samples
  {
  }

  /** The history grew by a result of the head's job: a skipped one as such, a probed one with its
      own success. It affects its group if it was skipped, or if it was recorded and the row's
      configuration is current in the table. */
  ghost predicate Handles(s: Store, run: Run, s': Store, run': Run)
    requires CanConsume(run)
  {
    && run'.jobs == run.jobs && |run'.history| == |run.history| + 1 && run.history <= run'.history
    && var h, o := run'.history[|run.history|], run.results[0].outcome;
    && h.job == run.results[0].job && (h.effect.Released? <==> o.Skip?)
    && (o.Probe? ==> h.effect.success == o.success)
    && (Affects(h.effect) <==> o.Skip? || (s'.samples != s.samples && UpToDate(s, HeadTarget(run))))
  }

  /** A result is handled so, or the run stops with its history as it was and no sample. */
  lemma HandledExactly(s: Store, run: Run, due: int, fault: Fault, now: int)
    requires CanConsume(run)
    ensures var (s', run') := Consumed(s, run, due, fault, now);
            Handles(s, run, s', run') || (run'.history == run.history && s'.samples == s.samples && run'.phase == Returned(false))
  {
  }

  /** What a handled result adds to the affected groups. */
  lemma HandledCounts(s: Store, run: Run, s': Store, run': Run)
    requires CanConsume(run) && Handles(s, run, s', run')
    requires WellFormed(run.jobs, run.history) && run.results[0].job !in HandledJobs(run.history)
    ensures WellFormed(run'.jobs, run'.history)
    ensures AffectedGroups(run'.jobs, run'.history) ==
            AffectedGroups(run.jobs, run.history) +
            if run.results[0].outcome.Skip? || (s'.samples != s.samples && UpToDate(s, HeadTarget(run)))
            then {HeadGroup(run)} else {}
  {
    var h := run'.history[|run.history|];
    assert run'.history == run.history + [h];
    AffectedStep(run.jobs, run.history, h);
  }

  /** What the loop knows after a recorded result: the sample's success, and the group as affected
      if the row's configuration is current; if it is not, this result affects nothing. */
  ghost predicate CountedRight(s: Store, run: Run, s': Store, run': Run)
    requires CanConsume(run) && WellFormed(run.jobs, run.history)
  {
    var id, g := HeadTarget(run), HeadGroup(run);
    && Handles(s, run, s', run') && WellFormed(run'.jobs, run'.history)
    && |s'.samples| == |s.samples| + 1 && s'.samples[|s.samples|].target == id
    && !run'.history[|run.history|].effect.Released?
    && run'.history[|run.history|].effect.success == s'.samples[|s.samples|].success
    && id in s.targets && g in s.versions
    && (s.targets[id].version == s.versions[g] ==> g in AffectedGroups(run'.jobs, run'.history))
    && (s.targets[id].version != s.versions[g] ==>
          AffectedGroups(run'.jobs, run'.history) == AffectedGroups(run.jobs, run.history))
    && (run'.phase.Live? ==> run'.consumer.affected == AffectedGroups(run'.jobs, run'.history))
  }

  lemma CountedFrom(s: Store, run: Run, s': Store, run': Run)
    requires RunOk(run) && RunOk(run') && LeaseOk(s, run) && CanConsume(run) && Handles(s, run, s', run')
    requires HeadTarget(run) in s.targets && s.targets[HeadTarget(run)].group in s.versions && run.results[0].outcome.Probe?
    requires s'.samples == s.samples + [Sample(HeadTarget(run), run.token, run.results[0].outcome.success)]
    ensures CountedRight(s, run, s', run')
  {
    HeadGroupMatches(s, run);
    HeadIsNext(run);
    HandledCounts(s, run, s', run');
  }

  /** When handling a result adds a sample, the loop counts that very success, and the group is
      affected from then on if the row's configuration is current in the table. */
  lemma RecordedIsCounted(s: Store, run: Run, due: int, fault: Fault, now: int)
    requires RunOk(run) && LeaseOk(s, run) && CanConsume(run)
    ensures var (s', run') := Consumed(s, run, due, fault, now);
            s'.samples != s.samples ==> CountedRight(s, run, s', run')
  {
    SampleExactly(s, run, due, fault, now);
    HandledExactly(s, run, due, fault, now);
    ConsumedRun(s, run, due, fault, now);
    var (s', run') := Consumed(s, run, due, fault, now);
    if s'.samples != s.samples { CountedFrom(s, run, s', run'); }
  }

  /** A cancelled scheduled run, and any run at a fault of a skipped probe, stops at the next
      result and leaves the table alone; an immediate run does not look at the cancellation. */
  lemma StopsAndLeaves(s: Store, run: Run, due: int, fault: Fault, now: int)
    requires CanConsume(run)
    ensures var (s', run'), o := Consumed(s, run, due, fault, now), run.results[0].outcome;
            && ((run.kind == Scheduled && run.cancelled) || (o.Skip? && o.fault) ==> s' == s && run'.phase == Returned(false))
            && (run.kind == Immediate && fault == NoFault && o.Probe? && !Held(s, HeadTarget(run), run.token) ==> run'.phase.Live?)
  {
  }

  /** A group whose last result arrives in a scheduled run, and that is affected, is marked no
      more, unless reconciling fails and ends the run. */
  lemma LastResultUnmarks(s: Store, run: Run, due: int, fault: Fault, now: int)
    requires CanConsume(run) && run.kind == Scheduled
    ensures var (s', run') := Consumed(s, run, due, fault, now);
            var g := HeadGroup(run);
            run'.phase.Live? && g in run'.consumer.affected && g in run'.consumer.remaining && run'.consumer.remaining[g] == 0 ==>
              g !in s'.marked && g in run'.consumer.reconciled
  {
  }

  /** Marking marks every group of the run, and no other; a deferred reconcile that gets through
      unmarks every one. */
  lemma MarksExactly(s: Store, run: Run, g: nat)
    ensures run.phase.Claimed? ==> (g in Marked(s, run, true).0.marked <==> g in s.marked || g in Groups(run.jobs))
    ensures CanAct(run, DeferReconcile(Groups(run.jobs))) ==>
              (g in Perform(s, run, DeferReconcile(Groups(run.jobs)), 0).0.marked <==> g in s.marked && g !in Groups(run.jobs))
  {
  }

  // ---------- over executions ----------

  /** One of the run's own goroutines sent the result: a worker, or the preflight of that job. */
  ghost predicate SentAt(states: seq<Sys>, events: seq<Event>, j: nat, r: nat, res: Result) {
    && j < |events| && j < |states| && r in states[j].runs
    && (events[j] == RunAct(r, Go(Deliver(res.job, res.outcome)))
        || (events[j] == RunAct(r, Go(PreflightJob(true, res.outcome))) && states[j].runs[r].phase == Preflight(res.job)))
  }

  ghost predicate SentBefore(states: seq<Sys>, events: seq<Event>, n: nat, r: nat, res: Result) {
    exists j: nat :: j < n && SentAt(states, events, j, r, res)
  }

  /** The act sends this result. */
  ghost predicate Sends(run: Run, act: Act, res: Result) {
    || act == Go(Deliver(res.job, res.outcome))
    || (act == Go(PreflightJob(true, res.outcome)) && run.phase == Preflight(res.job))
  }

  lemma StepSends(run: Run, step: Step, res: Result)
    requires Can(run, step) && res in Do(run, step).results
    ensures res in run.results || Sends(run, Go(step), res)
  {
  }

  lemma ActSends(s: Store, run: Run, act: Act, now: int, res: Result)
    requires CanAct(run, act) && res in Perform(s, run, act, now).1.results
    ensures res in run.results || Sends(run, act, res)
  {
    match act
    case Go(step) => StepSends(run, step, res);
    case Consume(due, fault) => ConsumedShape(s, run, due, fault, now);
    case _ =>
  }

  lemma SentStep(states: seq<Sys>, events: seq<Event>, n: nat, r: nat, res: Result)
    requires Execution(states, events) && 0 < n < |states| && r in states[n].runs && res in states[n].runs[r].results
    ensures r in states[n - 1].runs && (res in states[n - 1].runs[r].results || SentAt(states, events, n - 1, r, res))
  {
    StepAt(states, events, n);
    var s, e := states[n - 1], events[n - 1];
    if e.RunAct? && e.run == r { ActSends(s.store, s.runs[r], e.act, s.now, res); }
  }

  /** Every result in a run's channel was sent by one of its own goroutines. */
  lemma {:induction false} ResultsWereSent(states: seq<Sys>, events: seq<Event>, n: nat, r: nat, res: Result)
    requires Execution(states, events) && Initial(states[0]) && n < |states|
    requires r in states[n].runs && res in states[n].runs[r].results
    ensures SentBefore(states, events, n, r, res)
  {
    if n > 0 {
      SentStep(states, events, n, r, res);
      if res in states[n - 1].runs[r].results { ResultsWereSent(states, events, n - 1, r, res); }
    }
  }

  lemma SampleOf(states: seq<Sys>, events: seq<Event>, n: nat, r: nat)
    requires Execution(states, events) && 0 < n < |states| && r in states[n - 1].runs
    requires events[n - 1].RunAct? && events[n - 1].run == r && events[n - 1].act.Consume?
    ensures CanConsume(states[n - 1].runs[r])
    ensures var run := states[n - 1].runs[r];
            var was, now := states[n - 1].store.samples, states[n].store.samples;
            now == was || (run.results[0].outcome.Probe?
                           && now == was + [Sample(HeadTarget(run), run.token, run.results[0].outcome.success)])
  {
    StepAt(states, events, n);
    var s, act := states[n - 1], events[n - 1].act;
    SampleExactly(s.store, s.runs[r], act.due, act.fault, s.now);
  }

  /** Where a recorded result comes from: its success is what a goroutine of the run that holds the
      token delivered for a job on that very target. */
  lemma RecordedWasSent(states: seq<Sys>, events: seq<Event>, n: nat, r: nat)
    requires Execution(states, events) && Initial(states[0]) && 0 < n < |states| && r in states[n - 1].runs
    requires events[n - 1].RunAct? && events[n - 1].run == r && events[n - 1].act.Consume?
    requires states[n].store.samples != states[n - 1].store.samples
    ensures exists i: nat, ok :: i < |states[n - 1].runs[r].jobs|
              && SentBefore(states, events, n - 1, r, Result(i, Probe(ok)))
              && states[n].store.samples == states[n - 1].store.samples +
                   [Sample(states[n - 1].runs[r].jobs[i].target, states[n - 1].runs[r].token, ok)]
  {
    SampleOf(states, events, n, r);
    var res := states[n - 1].runs[r].results[0];
    ResultsWereSent(states, events, n - 1, r, res);
    assert res == Result(res.job, Probe(res.outcome.success));
  }

  /** The run in two states: same jobs, and the history only grows. */
  ghost predicate Longer(run: Run, run': Run) {
    run'.jobs == run.jobs && run.history <= run'.history
  }

  lemma ActLonger(s: Store, run: Run, act: Act, now: int)
    requires CanAct(run, act)
    ensures Longer(run, Perform(s, run, act, now).1)
  {
    match act
    case Consume(due, fault) => ConsumedShape(s, run, due, fault, now);
    case _ =>
  }

  lemma LongerAt(states: seq<Sys>, events: seq<Event>, n: nat, r: nat)
    requires Execution(states, events) && 0 < n < |states| && r in states[n - 1].runs
    ensures r in states[n].runs && Longer(states[n - 1].runs[r], states[n].runs[r])
  {
    StepAt(states, events, n);
    var s, e := states[n - 1], events[n - 1];
    if e.RunAct? && e.run == r { ActLonger(s.store, s.runs[r], e.act, s.now); }
  }

  lemma {:induction false} HistoryGrows(states: seq<Sys>, events: seq<Event>, i: nat, j: nat, r: nat)
    requires Execution(states, events) && i <= j < |states| && r in states[i].runs
    ensures r in states[j].runs && Longer(states[i].runs[r], states[j].runs[r])
  {
    if i < j {
      HistoryGrows(states, events, i, j - 1, r);
      LongerAt(states, events, j, r);
    }
  }

  lemma AffectedGrows(jobs: seq<Job>, hs: seq<Handled>, hs': seq<Handled>)
    requires WellFormed(jobs, hs') && hs <= hs'
    ensures WellFormed(jobs, hs) && AffectedGroups(jobs, hs) <= AffectedGroups(jobs, hs')
  {
    assert forall k :: 0 <= k < |hs| ==> hs[k] == hs'[k];
  }

  lemma ConsumedAt(states: seq<Sys>, events: seq<Event>, n: nat, r: nat)
    requires Execution(states, events) && 0 < n < |states| && r in states[n - 1].runs
    requires events[n - 1].RunAct? && events[n - 1].run == r && events[n - 1].act.Consume?
    ensures CanConsume(states[n - 1].runs[r]) && r in states[n].runs
    ensures var s, act := states[n - 1], events[n - 1].act;
            (states[n].store, states[n].runs[r]) == Consumed(s.store, s.runs[r], act.due, act.fault, s.now)
  {
    StepAt(states, events, n);
  }

  lemma RunOkAt(states: seq<Sys>, events: seq<Event>, n: nat, r: nat)
    requires Execution(states, events) && Initial(states[0]) && n < |states| && r in states[n].runs
    ensures RunOk(states[n].runs[r]) && LeaseOk(states[n].store, states[n].runs[r])
  {
    InitialInv(states[0]);
    Safety(states, events, n);
  }

  lemma CountedAt(states: seq<Sys>, events: seq<Event>, n: nat, r: nat)
    requires Execution(states, events) && Initial(states[0]) && 0 < n < |states| && r in states[n - 1].runs
    requires events[n - 1].RunAct? && events[n - 1].run == r && events[n - 1].act.Consume?
    requires CanConsume(states[n - 1].runs[r]) && states[n].store.samples != states[n - 1].store.samples
    ensures r in states[n].runs
    ensures var run := states[n - 1].runs[r];
            WellFormed(run.jobs, run.history) && CountedRight(states[n - 1].store, run, states[n].store, states[n].runs[r])
  {
    RunOkAt(states, events, n - 1, r);
    ConsumedAt(states, events, n, r);
    var s, act := states[n - 1], events[n - 1].act;
    RecordedIsCounted(s.store, s.runs[r], act.due, act.fault, s.now);
  }

  lemma GroupAt(states: seq<Sys>, events: seq<Event>, n: nat, r: nat)
    requires Execution(states, events) && Initial(states[0]) && n < |states| && r in states[n].runs
    requires CanConsume(states[n].runs[r]) && HeadTarget(states[n].runs[r]) in states[n].store.targets
    ensures states[n].store.targets[HeadTarget(states[n].runs[r])].group == HeadGroup(states[n].runs[r])
  {
    RunOkAt(states, events, n, r);
    HeadGroupMatches(states[n].store, states[n].runs[r]);
  }

  /** A result recorded under the current configuration is not forgotten: if its run completes,
      scheduled or immediate, it has reconciled the group. */
  lemma RecordedIsReconciled(states: seq<Sys>, events: seq<Event>, i: nat, n: nat, r: nat)
    requires Execution(states, events) && Initial(states[0]) && 0 < i <= n < |states| && r in states[i - 1].runs
    requires events[i - 1].RunAct? && events[i - 1].run == r && events[i - 1].act.Consume?
    requires CanConsume(states[i - 1].runs[r]) && states[i].store.samples != states[i - 1].store.samples
    requires UpToDate(states[i - 1].store, HeadTarget(states[i - 1].runs[r]))
    requires r in states[n].runs && Completed(states[n].runs[r].phase)
    ensures HeadGroup(states[i - 1].runs[r]) in states[n].runs[r].consumer.reconciled
  {
    CountedAt(states, events, i, r);
    HistoryGrows(states, events, i, n, r);
    CompletedRun(states, events, n, r);
    GroupAt(states, events, i - 1, r);
    AffectedGrows(states[n].runs[r].jobs, states[i].runs[r].history, states[n].runs[r].history);
  }
}
