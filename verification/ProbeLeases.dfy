/**
 How long a lease lasts. Holding ends exactly with a handful of events; the deadline is the one
 the claim set, 300 seconds on, until rescheduling overwrites it, which it does without asking
 who holds the row (model/hub_supply_probe.go, lines 479-509, 785-863).
 */
module ProbeLeases {
  import opened ProbeStore
  import opened ProbeConsumer
  import opened ProbeRun
  import opened ProbeSystem
  import opened ProbeTheorems

  /** The run handles its result for the target, and nothing stops it before the table is
      written. */
  ghost predicate Settles(s: Store, run: Run, fault: Fault, id: nat)
    requires id in s.targets
  {
    && CanConsume(run)
    && var res := run.results[0];
    && run.jobs[res.job].target == id && !StopsAtOnce(run, res.outcome, fault)
    && (res.outcome.Probe? ==> s.targets[id].group in s.versions)
  }

  /** The events that end the lease of a target held under `token`. */
  ghost predicate Ends(s: Sys, e: Event, id: nat, token: nat)
    requires id in s.store.targets
  {
    match e
    case ExpireLeases => s.store.targets[id].nextProbeAt <= s.now
    case Beside(a) => (a.RequestProbe? && id in a.targets) || Removes(s, e, id)
    case RunAct(r, act) =>
      r in s.runs &&
      (match act
       case Refresh => id in TargetIds(s.runs[r].jobs)
       case Consume(_, fault) => s.runs[r].token == token && Settles(s.store, s.runs[r], fault, id)
       case DeferRequeue(ok) => s.runs[r].token == token && ok
       case _ => false)
    case _ => false
  }

  lemma PersistEnds(s: Store, run: Run, res: Result, due: int, now: int, id: nat, token: nat)
    requires Valid(s) && token > 0 && id > 0 && Held(s, id, token) && res.job < |run.jobs|
    ensures var (s', _, ok) := Persist(s, run, res, due, now);
            var own := run.token == token && run.jobs[res.job].target == id;
            && (Held(s', id, token) <==> !(own && (res.outcome.Probe? ==> s.targets[id].group in s.versions)))
            && (own && Held(s', id, token) ==> !ok) && (Held(s', id, token) ==> s'.targets[id] == s.targets[id])
  {
  }

  lemma ConsumeEnds(s: Store, run: Run, due: int, fault: Fault, now: int, id: nat, token: nat)
    requires Valid(s) && CanConsume(run) && token > 0 && id > 0 && Held(s, id, token)
    ensures var s' := Consumed(s, run, due, fault, now).0;
            && (Held(s', id, token) <==> !(run.token == token && Settles(s, run, fault, id)))
            && (Held(s', id, token) ==> s'.targets[id] == s.targets[id])
  {
    PersistEnds(s, run, run.results[0], due, now, id, token);
  }

  /** Claims, requeues under other tokens and resets of other rows leave a held row alone. */
  lemma UntouchedRow(s: Store, ids: set<nat>, other: nat, now: int, id: nat, token: nat)
    requires Valid(s) && token > 0 && Held(s, id, token)
    ensures var s' := Claim(s, ids, now); Held(s', id, token) && s'.targets[id] == s.targets[id]
    ensures var s' := ResetForManualProbe(s, ids, now);
            (Held(s', id, token) <==> id !in ids) && (Held(s', id, token) ==> s'.targets[id] == s.targets[id])
    ensures var s' := Requeue(s, ids, other, now);
            && (Held(s', id, token) <==> !(other == token && id in ids))
            && (Held(s', id, token) ==> s'.targets[id] == s.targets[id])
  {
  }

  lemma ActEnds(s: Sys, r: nat, act: Act, id: nat, token: nat)
    requires Inv(s) && Enabled(s, RunAct(r, act)) && token > 0 && id > 0 && Held(s.store, id, token)
    ensures var s' := Perform(s.store, s.runs[r], act, s.now).0;
            && (Held(s', id, token) <==> !Ends(s, RunAct(r, act), id, token))
            && (Held(s', id, token) ==> s'.targets[id] == s.store.targets[id])
  {
    var run := s.runs[r];
    match act
    case Consume(due, fault) => ConsumeEnds(s.store, run, due, fault, s.now, id, token);
    case TakeLease(_) => UntouchedRow(s.store, TargetIds(run.jobs), 0, s.now, id, token);
    case Refresh => UntouchedRow(s.store, TargetIds(run.jobs), 0, s.now, id, token);
    case DeferRequeue(_) =>
      assert LeaseOk(s.store, run);
      UntouchedRow(s.store, TargetIds(run.jobs), run.token, s.now, id, token);
    case _ =>
  }

  /** The due time rescheduling writes over that of the row. */
  ghost function Redated(s: Sys, e: Event, id: nat): int
    requires id in s.store.targets
  {
    if Redates(s, e, id) then s.writes[e.aside.write].due else s.store.targets[id].nextProbeAt
  }

  lemma BesideEnds(s: Sys, a: Aside, id: nat, token: nat)
    requires Valid(s.store) && CanBeside(s, a) && token > 0 && Held(s.store, id, token)
    ensures var s' := Written(s, a);
            && (Held(s', id, token) <==> !Ends(s, Beside(a), id, token))
            && (Held(s', id, token) ==> s'.targets[id].nextProbeAt == Redated(s, Beside(a), id))
  {
  }

  /** One event: a held target stays held exactly unless the event ends its lease, and its
      deadline moves exactly as rescheduling writes it. */
  lemma HeldUntilEnded(s: Sys, e: Event, id: nat, token: nat)
    requires Inv(s) && Enabled(s, e) && token > 0 && id > 0 && Held(s.store, id, token)
    ensures var s' := ProbeSystem.Next(s, e).store;
            && (Held(s', id, token) <==> !Ends(s, e, id, token))
            && (Held(s', id, token) ==> s'.targets[id].nextProbeAt == Redated(s, e, id))
  {
    match e
    case RunAct(r, act) => ActEnds(s, r, act, id, token);
    case Beside(a) => BesideEnds(s, a, id, token);
    case _ =>
  }

  /** No event from state `i` to state `j` ends the lease. */
  ghost predicate Unended(states: seq<Sys>, events: seq<Event>, i: nat, j: nat, id: nat, token: nat)
    requires Execution(states, events) && i <= j < |states|
  {
    forall k :: i <= k < j ==> id in states[k].store.targets && !Ends(states[k], events[k], id, token)
  }

  /** The deadline in state `i`, or what rescheduling wrote last since. */
  ghost function Deadline(states: seq<Sys>, events: seq<Event>, i: nat, j: nat, id: nat): int
    requires Execution(states, events) && i <= j < |states| && id in states[i].store.targets
    decreases j
  {
    if j == i then states[i].store.targets[id].nextProbeAt
    else if Redates(states[j - 1], events[j - 1], id) then states[j - 1].writes[events[j - 1].aside.write].due
    else Deadline(states, events, i, j - 1, id)
  }

  lemma HeldStep(s: Sys, e: Event, s': Sys, id: nat, token: nat)
    requires Inv(s) && Follows(s, e, s') && 0 < token <= s.store.issued && id > 0
    ensures token <= s'.store.issued
    ensures Held(s'.store, id, token) <==> Held(s.store, id, token) && !Ends(s, e, id, token)
    ensures Held(s'.store, id, token) ==> s'.store.targets[id].nextProbeAt == Redated(s, e, id)
  {
    if Held(s.store, id, token) {
      HeldUntilEnded(s, e, id, token);
      StepKeepsInv(s, e);
    } else {
      LostStep(s, e, id, token);
    }
  }

  lemma HeldAt(states: seq<Sys>, events: seq<Event>, n: nat, id: nat, token: nat)
    requires Execution(states, events) && Inv(states[0]) && 0 < n < |states|
    requires 0 < token <= states[n - 1].store.issued && id > 0
    ensures token <= states[n].store.issued
    ensures Held(states[n].store, id, token) <==>
            Held(states[n - 1].store, id, token) && !Ends(states[n - 1], events[n - 1], id, token)
    ensures Held(states[n].store, id, token) ==>
              states[n].store.targets[id].nextProbeAt == Redated(states[n - 1], events[n - 1], id)
  {
    Safety(states, events, n - 1);
    StepAt(states, events, n);
    HeldStep(states[n - 1], events[n - 1], states[n], id, token);
  }

  lemma HeldIssued(s: Sys, id: nat, token: nat)
    requires Inv(s) && Held(s.store, id, token)
    ensures token <= s.store.issued
  {
    assert ValidTarget(s.store.targets[id], s.store.issued);
  }

  /** Over every execution: a lease held in state `i` is held in state `j` exactly if no event
      between ended it, and its deadline is then the original one or what rescheduling wrote
      last. */
  lemma {:induction false} LeaseLasts(states: seq<Sys>, events: seq<Event>, i: nat, j: nat, id: nat, token: nat)
    requires Execution(states, events) && Inv(states[0]) && i <= j < |states|
    requires token > 0 && id > 0 && Held(states[i].store, id, token)
    ensures token <= states[j].store.issued
    ensures Held(states[j].store, id, token) <==> Unended(states, events, i, j, id, token)
    ensures Held(states[j].store, id, token) ==>
              states[j].store.targets[id].nextProbeAt == Deadline(states, events, i, j, id)
    decreases j
  {
    if i == j {
      Safety(states, events, i);
      HeldIssued(states[i], id, token);
    } else {
      LeaseLasts(states, events, i, j - 1, id, token);
      HeldAt(states, events, j, id, token);
    }
  }

  /** A claim sets a deadline 300 seconds on. */
  lemma ClaimDeadline(s: Sys, r: nat, id: nat)
    requires Inv(s) && Enabled(s, RunAct(r, TakeLease(true)))
    requires id in TargetIds(s.runs[r].jobs) && id in s.store.targets && Claimable(s.store.targets[id], s.now)
    ensures var s' := ProbeSystem.Next(s, RunAct(r, TakeLease(true)));
            && Held(s'.store, id, s'.runs[r].token)
            && s'.store.targets[id].nextProbeAt == s.now + LEASE_SECONDS
  {
  }

  /** Rescheduling that reads a held row writes its deadline back exactly unless automatic probing
      of the model is off and the probe is not manual; then it writes 0. */
  lemma RescheduleKeepsDeadline(s: Store, id: nat, token: nat, off: bool, probed: bool, due: int, now: int)
    requires Valid(s) && Held(s, id, token) && token > 0 && s.targets[id].nextProbeAt > 0
    ensures var t := s.targets[id];
            NextDue(t, off, probed, due, now) == (if off && !t.manual then 0 else t.nextProbeAt)
  {
    assert ValidTarget(s.targets[id], s.issued);
  }

  /** A due time read before a claim and written after it is no deadline: what was read from a
      row that was pending and due has passed already, so that the next expiry ends the lease
      however young it is. */
  lemma StaleWriteEndsLease(s: Store, ids: set<nat>, id: nat, now: int, off: bool, probed: bool, due: int, later: int)
    requires Valid(s) && id in ids && id in s.targets && Claimable(s.targets[id], now) && now <= later
    requires s.targets[id].status == Pending || (off && !s.targets[id].manual)
    ensures var written := WriteDue(Claim(s, ids, now), id, NextDue(s.targets[id], off, probed, due, now));
            Held(written, id, s.issued + 1) && !Held(RequeueExpired(written, later), id, s.issued + 1)
  {
    assert ValidTarget(s.targets[id], s.issued);
  }
}
