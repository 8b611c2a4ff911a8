/**
 The life of one probe target through every interleaving of probe runs: what its failure count
 means, when it is suspended and for how long, and what a skipped probe gives back
 (model/hub_supply_probe.go, lines 815-876 and 911-1014).
 */
module ProbeLifecycle {
  import opened ProbeStore
  import opened ProbeConsumer
  import opened ProbeRun
  import opened ProbeSystem
  import opened ProbeTheorems

  /** The event is a manual reset of the target, by an immediate run or a request for its group
      or model. */
  ghost predicate Resets(s: Sys, e: Event, id: nat) {
    || (e.RunAct? && e.act.Refresh? && e.run in s.runs && id in TargetIds(s.runs[e.run].jobs))
    || (e.Beside? && e.aside.RequestProbe? && id in e.aside.targets)
  }

  /** Failed results recorded for the target since its last success or manual reset, on top of
      the count it had in state `m`. */
  ghost function Streak(states: seq<Sys>, events: seq<Event>, m: nat, n: nat, id: nat): nat
    requires Execution(states, events) && m <= n < |states| && id in states[m].store.targets
    decreases n
  {
    if n == m then states[m].store.targets[id].failures
    else
      var before, was, now := Streak(states, events, m, n - 1, id), states[n - 1].store.samples, states[n].store.samples;
      if Resets(states[n - 1], events[n - 1], id) then 0
      else if |was| < |now| && now[|was|].target == id then (if now[|was|].success then 0 else before + 1)
      else before
  }

  /** The step left the target's failure count alone, or counted the one result it recorded. */
  ghost predicate Counts(s: Store, s': Store, id: nat)
    requires id in s.targets && id in s'.targets
  {
    var was, now := s.targets[id].failures, s'.targets[id].failures;
    if |s'.samples| == |s.samples| + 1 && s'.samples[|s.samples|].target == id
    then now == if s'.samples[|s.samples|].success then 0 else was + 1
    else now == was && |s'.samples| <= |s.samples| + 1
  }

  lemma RecordCounts(s: Store, id: nat, token: nat, success: bool, now: int, due: int, x: nat)
    requires Valid(s) && x in s.targets
    ensures var s' := Record(s, id, token, success, now, due).0; x in s'.targets && Counts(s, s', x)
  {
  }

  lemma PersistCounts(s: Store, run: Run, res: Result, due: int, now: int, x: nat)
    requires Valid(s) && x in s.targets && res.job < |run.jobs|
    ensures var s' := Persist(s, run, res, due, now).0; x in s'.targets && Counts(s, s', x)
  {
    if res.outcome.Probe? {
      RecordCounts(s, run.jobs[res.job].target, run.token, res.outcome.success, now, due, x);
    }
  }

  lemma ConsumeCounts(s: Store, run: Run, due: int, fault: Fault, now: int, x: nat)
    requires Valid(s) && CanConsume(run) && x in s.targets
    ensures var s' := Consumed(s, run, due, fault, now).0; x in s'.targets && Counts(s, s', x)
  {
    PersistCounts(s, run, run.results[0], due, now, x);
    ConsumedShape(s, run, due, fault, now);
  }

  lemma ActCounts(s: Store, run: Run, act: Act, now: int, x: nat)
    requires Valid(s) && CanAct(run, act) && x in s.targets
    ensures var s' := Perform(s, run, act, now).0;
            && x in s'.targets
            && (if act.Refresh? && x in TargetIds(run.jobs) then s'.targets[x].failures == 0 else Counts(s, s', x))
  {
    match act
    case Consume(due, fault) => ConsumeCounts(s, run, due, fault, now, x);
    case _ =>
  }

  lemma EventCounts(s: Sys, e: Event, x: nat)
    requires Valid(s.store) && Enabled(s, e) && x in s.store.targets && x in ProbeSystem.Next(s, e).store.targets
    ensures var s' := ProbeSystem.Next(s, e);
            if Resets(s, e, x) then s'.store.targets[x].failures == 0 else Counts(s.store, s'.store, x)
  {
    match e
    case RunAct(r, act) => ActCounts(s.store, s.runs[r], act, s.now, x);
    case Beside(a) => BesideLawful(s, a);
    case _ =>
  }

  lemma ShapeAt(states: seq<Sys>, events: seq<Event>, n: nat)
    requires Execution(states, events) && Inv(states[0]) && 0 < n < |states|
    ensures SameShape(states[n - 1].store, states[n].store)
  {
    Safety(states, events, n - 1);
    StepAt(states, events, n);
    StepKeepsInv(states[n - 1], events[n - 1]);
  }

  lemma {:induction false} UsedGrows(states: seq<Sys>, events: seq<Event>, m: nat, n: nat)
    requires Execution(states, events) && Inv(states[0]) && m <= n < |states|
    ensures states[m].store.used <= states[n].store.used
  {
    if m < n {
      UsedGrows(states, events, m, n - 1);
      ShapeAt(states, events, n);
    }
  }

  /** A row that exists now and existed earlier existed all the while. */
  lemma StillThere(states: seq<Sys>, events: seq<Event>, m: nat, n: nat, id: nat)
    requires Execution(states, events) && Inv(states[0]) && m < n < |states|
    requires id in states[m].store.targets && id in states[n].store.targets
    ensures id in states[n - 1].store.targets
  {
    assert id <= states[m].store.used by { Safety(states, events, m); }
    UsedGrows(states, events, m, n - 1);
    ShapeAt(states, events, n);
  }

  lemma CountsAt(states: seq<Sys>, events: seq<Event>, n: nat, id: nat)
    requires Execution(states, events) && Inv(states[0]) && 0 < n < |states|
    requires id in states[n - 1].store.targets && id in states[n].store.targets
    ensures if Resets(states[n - 1], events[n - 1], id) then states[n].store.targets[id].failures == 0
            else Counts(states[n - 1].store, states[n].store, id)
  {
    Safety(states, events, n - 1);
    StepAt(states, events, n);
    EventCounts(states[n - 1], events[n - 1], id);
  }

  lemma SuspendedAtLimit(states: seq<Sys>, events: seq<Event>, n: nat, id: nat)
    requires Execution(states, events) && Inv(states[0]) && n < |states| && id in states[n].store.targets
    ensures var t := states[n].store.targets[id]; t.status == Suspended <==> t.failures == SUSPEND_LIMIT
  {
    Safety(states, events, n);
    assert ValidTarget(states[n].store.targets[id], states[n].store.issued);
  }

  /** In every execution, for as long as a target exists, its failure count is its streak of
      failures, and it is suspended exactly when that streak reaches the limit. */
  lemma {:induction false} FailuresAreStreak(states: seq<Sys>, events: seq<Event>, m: nat, n: nat, id: nat)
    requires Execution(states, events) && Inv(states[0]) && m <= n < |states|
    requires id in states[m].store.targets && id in states[n].store.targets
    ensures var t, streak := states[n].store.targets[id], Streak(states, events, m, n, id);
            t.failures == streak && (t.status == Suspended <==> streak == SUSPEND_LIMIT)
    decreases n
  {
    if m < n {
      StillThere(states, events, m, n, id);
      FailuresAreStreak(states, events, m, n - 1, id);
      CountsAt(states, events, n, id);
    }
    SuspendedAtLimit(states, events, n, id);
  }

  lemma ActLeavesSuspended(s: Store, run: Run, act: Act, now: int, x: nat)
    requires Valid(s) && RunOk(run) && LeaseOk(s, run) && CanAct(run, act)
    requires x in s.targets && s.targets[x].status == Suspended && !(act.Refresh? && x in TargetIds(run.jobs))
    ensures var s' := Perform(s, run, act, now).0; x in s'.targets && s'.targets[x] == s.targets[x]
  {
    DoActOk(s, run, act, now);
  }

  /** The rows differ in their due time at most. */
  ghost predicate Frozen(t: Target, t': Target) {
    t' == t.(nextProbeAt := t'.nextProbeAt)
  }

  lemma EventLeavesSuspended(t: Target, s: Sys, e: Event, s': Sys, x: nat)
    requires Inv(s) && Follows(s, e, s') && x in s.store.targets && !Resets(s, e, x)
    requires t.status == Suspended && Frozen(t, s.store.targets[x])
    ensures x in s'.store.targets ==> Frozen(t, s'.store.targets[x])
  {
    match e
    case RunAct(r, act) => ActLeavesSuspended(s.store, s.runs[r], act, s.now, x);
    case _ =>
  }

  lemma FrozenAt(t: Target, states: seq<Sys>, events: seq<Event>, n: nat, id: nat)
    requires Execution(states, events) && Inv(states[0]) && 0 < n < |states|
    requires id in states[n - 1].store.targets && id in states[n].store.targets
    requires !Resets(states[n - 1], events[n - 1], id)
    requires t.status == Suspended && Frozen(t, states[n - 1].store.targets[id])
    ensures Frozen(t, states[n].store.targets[id])
  {
    Safety(states, events, n - 1);
    StepAt(states, events, n);
    EventLeavesSuspended(t, states[n - 1], events[n - 1], states[n], id);
  }

  ghost predicate NoReset(states: seq<Sys>, events: seq<Event>, i: nat, j: nat, id: nat)
    requires Execution(states, events) && i <= j < |states|
  {
    forall k :: i <= k < j ==> !Resets(states[k], events[k], id)
  }

  /** A suspended target stays exactly as it is but for its due time, and so unclaimed, until a
      manual probe resets it or it is deleted. */
  lemma {:induction false} SuspendedUntilReset(states: seq<Sys>, events: seq<Event>, i: nat, j: nat, id: nat)
    requires Execution(states, events) && Inv(states[0]) && i <= j < |states| && NoReset(states, events, i, j, id)
    requires id in states[i].store.targets && states[i].store.targets[id].status == Suspended
    requires id in states[j].store.targets
    ensures Frozen(states[i].store.targets[id], states[j].store.targets[id])
  {
    if i < j {
      StillThere(states, events, i, j, id);
      SuspendedUntilReset(states, events, i, j - 1, id);
      FrozenAt(states[i].store.targets[id], states, events, j, id);
    }
  }

  /** The status tells failures from successes, as a recorded result leaves it. */
  ghost predicate Told(t: Target) {
    t.status == if t.failures == SUSPEND_LIMIT then Suspended
                else if t.failures > 0 then Failing
                else if t.lastSuccessAt > 0 then Available else Pending
  }

  /** A recorded result leaves a telling status and counts: a failure adds one, a success starts
      over and is dated. The target is scheduled again exactly when its configuration is current,
      it is not suspended and a probe is due, and then from that time on. */
  lemma RecordTells(s: Store, id: nat, token: nat, success: bool, now: int, due: int)
    requires Valid(s) && now > 0 && Held(s, id, token)
    ensures var (s', o) := Record(s, id, token, success, now, due);
            o.Recorded? ==>
              && Told(s'.targets[id])
              && (forall g :: g in s'.marked <==> g in s.marked && !(o.current && g == s.targets[id].group))
              && (success <==> s'.targets[id].status == Available)
              && (s'.targets[id].status == Suspended <==> s'.targets[id].failures == 100)
              && s'.targets[id].failures == (if success then 0 else s.targets[id].failures + 1)
              && s'.targets[id].lastSuccessAt == (if success then now else s.targets[id].lastSuccessAt)
              && (forall at :: Claimable(s'.targets[id], at) <==>
                                 o.current && s'.targets[id].status != Suspended && 0 < due <= at)
              && ((exists at :: Claimable(s'.targets[id], at)) <==>
                    o.current && s'.targets[id].status != Suspended && due > 0)
  {
    var (s', o) := Record(s, id, token, success, now, due);
    assert o.Recorded? && s'.targets[id].status != Suspended && due > 0 && o.current ==> Claimable(s'.targets[id], due);
  }

  /** Releasing a claimed target after a skipped probe gives back the status it was claimed with
      exactly when that status was telling; nothing but its due time and manual flag changes. */
  lemma SkipUndoesClaim(s: Store, ids: set<nat>, id: nat, now: int, later: int)
    requires Valid(s) && id > 0 && id in ids && id in s.targets && Claimable(s.targets[id], now)
    ensures var t := s.targets[id];
            var t' := ReleaseSkipped(Claim(s, ids, now), id, s.issued + 1, later).targets[id];
            && Told(t')
            && t' == t.(status := t'.status, nextProbeAt := later, manual := false)
            && (t'.status == t.status <==> Told(t))
  {
    var claimed := Claim(s, ids, now);
    assert Held(claimed, id, s.issued + 1);
  }

  /** A requeued target is due at once, with its failures and successes as they were. */
  lemma RequeuedIsDue(s: Store, ids: set<nat>, id: nat, token: nat, now: int)
    requires Valid(s) && now > 0 && id in ids && Held(s, id, token)
    ensures var t, t' := s.targets[id], Requeue(s, ids, token, now).targets[id];
            Claimable(t', now) && t' == t.(status := Pending, nextProbeAt := now, token := 0)
  {
  }

  /** A manual probe takes over all its targets, suspended, unscheduled or leased to another run
      as they may be. */
  lemma ManualProbeTakesAll(s: Store, ids: set<nat>, id: nat, now: int, token: nat)
    requires Valid(s) && now > 0 && id in ids && id in s.targets
    ensures var s' := Claim(ResetForManualProbe(s, ids, now), ids, now);
            Held(s', id, s.issued + 1) && (token <= s.issued ==> !Held(s', id, token))
    ensures var t, t' := s.targets[id], Claim(ResetForManualProbe(s, ids, now), ids, now).targets[id];
            t'.failures == 0 && t'.manual && t'.lastSuccessAt == t.lastSuccessAt && t'.nextProbeAt == now + 300
            && t'.group == t.group && t'.version == t.version
  {
  }

  /** An expired target is due at once with its failures and successes as they were, and the next
      claim takes it from whoever held it; one that is not expired is left alone. */
  lemma ExpiredIsReclaimed(s: Store, ids: set<nat>, id: nat, now: int)
    requires Valid(s) && now > 0 && id in ids && id in s.targets && s.targets[id].status == Testing
    ensures var t, t' := s.targets[id], RequeueExpired(s, now).targets[id];
            if t.nextProbeAt <= now
            then Claimable(t', now) && t' == t.(status := Pending, nextProbeAt := now, token := 0) else t' == t
    ensures var t, s' := s.targets[id], Claim(RequeueExpired(s, now), ids, now);
            if t.nextProbeAt <= now then Held(s', id, s.issued + 1) && !Held(s', id, t.token) else Held(s', id, t.token)
  {
    var expired := RequeueExpired(s, now);
    assert id in expired.targets && expired.issued == s.issued;
  }

  /** When a target that nobody holds can be claimed after it has been rescheduled: never while
      automatic probing is off and nobody asked for one, never while it is suspended, and
      otherwise from its regular time on if it has been probed before, or from the time it had,
      or at once if there is no such time. */
  lemma RescheduledIsDue(s: Store, id: nat, off: bool, probed: bool, due: int, now: int, at: int)
    requires Valid(s) && now > 0 && id in s.targets && s.targets[id].status != Testing
    ensures var t := s.targets[id];
            var t' := WriteDue(s, id, NextDue(t, off, probed, due, now)).targets[id];
            var wanted := if probed && t.status != Pending then due else t.nextProbeAt;
            && t' == t.(nextProbeAt := t'.nextProbeAt)
            && (Claimable(t', at) <==>
                  && (off ==> t.manual) && t.status != Suspended
                  && (if wanted > 0 then wanted else now) <= at)
  {
  }

  /** A result that arrives after its group was edited is recorded and does not count for the
      group: the group stays marked and the target is not scheduled. */
  lemma EditOutdatesResult(s: Store, id: nat, token: nat, version: int, success: bool, now: int, due: int, at: int)
    requires Valid(s) && now > 0 && Held(s, id, token) && version != s.targets[id].version
    ensures var g := s.targets[id].group;
            var edited := EditGroup(s, g, version);
            var (s', o) := Record(edited, id, token, success, now, due);
            && o == Recorded(g, false) && s'.samples == s.samples + [Sample(id, token, success)]
            && s'.marked == s.marked && !Claimable(s'.targets[id], at)
            && id !in CurrentRows(edited, g) && CurrentRows(edited, g) <= s.targets.Keys
  {
    var edited := EditGroup(s, s.targets[id].group, version);
    assert Held(edited, id, token);
  }
}
