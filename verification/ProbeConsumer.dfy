/**
 The result loop of a probe run (controller/hub_supply_probe.go, lines 132-139 and
 205-273): per-group countdown, the groups a result affects, and the reconcile calls.
 A result reaches the loop in any order; what handling it did to the store is its effect.
 */
module ProbeConsumer {
  import opened Counting

  datatype Job = Job(target: nat, group: nat, image: bool)

  /** Released: a skipped probe. Stored: recorded under the lease. Lost: the lease was gone. */
  datatype Effect = Released | Stored(success: bool, current: bool) | Lost(success: bool)

  datatype Handled = Handled(job: nat, effect: Effect)

  /** A reconcile call for `group`, made when `after` results had been handled. */
  datatype Call = Call(group: nat, after: nat)

  datatype Consumer = Consumer(
    remaining: map<nat, int>, affected: set<nat>, reconciled: set<nat>, calls: seq<Call>,
    handled: nat, tested: nat, succeeded: nat, failed: nat)

  function Groups(jobs: seq<Job>): set<nat> {
    set i | 0 <= i < |jobs| :: jobs[i].group
  }

  function JobsOf(jobs: seq<Job>, g: nat): set<nat> {
    set i: nat | i < |jobs| && jobs[i].group == g
  }

  function HandledJobs(hs: seq<Handled>): set<nat> {
    set k | 0 <= k < |hs| :: hs[k].job
  }

  /** The jobs of a group that have not delivered a result. */
  function Outstanding(jobs: seq<Job>, hs: seq<Handled>, g: nat): set<nat> {
    JobsOf(jobs, g) - HandledJobs(hs)
  }

  predicate Affects(e: Effect) {
    e.Released? || (e.Stored? && e.current)
  }

  predicate WellFormed(jobs: seq<Job>, hs: seq<Handled>) {
    && (forall k :: 0 <= k < |hs| ==> hs[k].job < |jobs|)
    && (forall k, l :: 0 <= k < l < |hs| ==> hs[k].job != hs[l].job)
  }

  /** `h` is the result of a job that has not delivered one yet. */
  ghost predicate Next(jobs: seq<Job>, hs: seq<Handled>, h: Handled) {
    WellFormed(jobs, hs) && h.job < |jobs| && h.job !in HandledJobs(hs)
  }

  /** The groups some handled result affected. A skipped result affects its group whether or
      not the run still held the lease; a recorded one only while it did. */
  function AffectedGroups(jobs: seq<Job>, hs: seq<Handled>): set<nat>
    requires WellFormed(jobs, hs)
  {
    set k | 0 <= k < |hs| && Affects(hs[k].effect) :: jobs[hs[k].job].group
  }

  function CountSkipped(hs: seq<Handled>): nat {
    if hs == [] then 0
    else CountSkipped(hs[..|hs| - 1]) + if hs[|hs| - 1].effect.Released? then 1 else 0
  }

  function CountSuccess(hs: seq<Handled>): nat {
    if hs == [] then 0
    else CountSuccess(hs[..|hs| - 1])
         + if !hs[|hs| - 1].effect.Released? && hs[|hs| - 1].effect.success then 1 else 0
  }

  // ---------- one iteration ----------

  function Absorb(c: Consumer, jobs: seq<Job>, h: Handled): Consumer
    requires h.job < |jobs| && jobs[h.job].group in c.remaining
  {
    var g := jobs[h.job].group;
    var c1 := c.(remaining := c.remaining[g := c.remaining[g] - 1],
                 affected := if Affects(h.effect) then c.affected + {g} else c.affected,
                 handled := c.handled + 1);
    if h.effect.Released? then c1
    else if h.effect.success then c1.(tested := c.tested + 1, succeeded := c.succeeded + 1)
    else c1.(tested := c.tested + 1, failed := c.failed + 1)
  }

  predicate LastOfAffected(c: Consumer, g: nat) {
    g in c.remaining && c.remaining[g] == 0 && g in c.affected
  }

  function NoteReconciled(c: Consumer, g: nat): Consumer {
    c.(reconciled := c.reconciled + {g}, calls := c.calls + [Call(g, c.handled)])
  }

  /** The scheduled run reconciles inside the loop; the immediate one only after it. */
  function Iterate(c: Consumer, jobs: seq<Job>, h: Handled, inLoop: bool): Consumer
    requires h.job < |jobs| && jobs[h.job].group in c.remaining
  {
    var c1 := Absorb(c, jobs, h);
    if inLoop && LastOfAffected(c1, jobs[h.job].group) then NoteReconciled(c1, jobs[h.job].group) else c1
  }

  function CountGroup(jobs: seq<Job>, g: nat): nat {
    if jobs == [] then 0
    else CountGroup(jobs[..|jobs| - 1], g) + if jobs[|jobs| - 1].group == g then 1 else 0
  }

  function Start(jobs: seq<Job>): Consumer {
    Consumer(map g | g in Groups(jobs) :: CountGroup(jobs, g), {}, {}, [], 0, 0, 0, 0)
  }

  // ---------- what the loop state means ----------

  /** Each group is reconciled by at most one call. */
  ghost predicate CallsOnce(reconciled: set<nat>, calls: seq<Call>) {
    && (forall k :: 0 <= k < |calls| ==> calls[k].group in reconciled)
    && (forall g :: g in reconciled ==> exists k :: 0 <= k < |calls| && calls[k].group == g)
    && (forall k, l :: 0 <= k < l < |calls| ==> calls[k].group != calls[l].group)
  }

  /** An in-loop call comes right after the last result of its group. */
  ghost predicate CallTimely(jobs: seq<Job>, hs: seq<Handled>, call: Call) {
    && 0 < call.after <= |hs|
    && hs[call.after - 1].job < |jobs|
    && jobs[hs[call.after - 1].job].group == call.group
    && Outstanding(jobs, hs[..call.after], call.group) == {}
  }

  ghost predicate CallsTimely(jobs: seq<Job>, hs: seq<Handled>, calls: seq<Call>) {
    forall k :: 0 <= k < |calls| ==> CallTimely(jobs, hs, calls[k])
  }

  ghost predicate Countdown(jobs: seq<Job>, hs: seq<Handled>, remaining: map<nat, int>) {
    && remaining.Keys == Groups(jobs)
    && forall g :: g in remaining ==> remaining[g] == |Outstanding(jobs, hs, g)|
  }

  ghost predicate Summed(hs: seq<Handled>, c: Consumer) {
    && c.handled == |hs|
    && c.tested + CountSkipped(hs) == |hs|
    && c.succeeded == CountSuccess(hs)
    && c.succeeded + c.failed == c.tested
  }

  /** In the loop of a scheduled run exactly the affected groups with nothing outstanding are
      reconciled; an immediate run reconciles after its loop. */
  ghost predicate ReconciledSoFar(jobs: seq<Job>, hs: seq<Handled>, c: Consumer, inLoop: bool) {
    forall g :: g in c.reconciled <==> inLoop && g in c.affected && Outstanding(jobs, hs, g) == {}
  }

  ghost predicate Tallied(jobs: seq<Job>, hs: seq<Handled>, c: Consumer) {
    && WellFormed(jobs, hs)
    && Countdown(jobs, hs, c.remaining)
    && c.affected == AffectedGroups(jobs, hs)
    && Summed(hs, c)
  }

  ghost predicate Called(jobs: seq<Job>, hs: seq<Handled>, c: Consumer, inLoop: bool) {
    && CallsOnce(c.reconciled, c.calls)
    && CallsTimely(jobs, hs, c.calls)
    && ReconciledSoFar(jobs, hs, c, inLoop)
  }

  ghost predicate LoopState(jobs: seq<Job>, hs: seq<Handled>, c: Consumer, inLoop: bool) {
    Tallied(jobs, hs, c) && Called(jobs, hs, c, inLoop)
  }

  lemma {:induction false} CountGroupIsSize(jobs: seq<Job>, g: nat)
    ensures CountGroup(jobs, g) == |JobsOf(jobs, g)|
  {
    if jobs != [] {
      var n := |jobs| - 1;
      CountGroupIsSize(jobs[..n], g);
      assert JobsOf(jobs, g) == JobsOf(jobs[..n], g) + if jobs[n].group == g then {n} else {};
    }
  }

  lemma StartState(jobs: seq<Job>, inLoop: bool)
    ensures LoopState(jobs, [], Start(jobs), inLoop)
  {
    forall g | g in Groups(jobs) ensures CountGroup(jobs, g) == |Outstanding(jobs, [], g)| {
      CountGroupIsSize(jobs, g);
      assert Outstanding(jobs, [], g) == JobsOf(jobs, g);
    }
  }

  /** Handling one result takes exactly that job out of its own group's countdown. */
  lemma OutstandingStep(jobs: seq<Job>, hs: seq<Handled>, h: Handled, g: nat)
    requires Next(jobs, hs, h)
    ensures Outstanding(jobs, hs + [h], g) ==
            if jobs[h.job].group == g then Outstanding(jobs, hs, g) - {h.job} else Outstanding(jobs, hs, g)
    ensures jobs[h.job].group == g ==> h.job in Outstanding(jobs, hs, g)
  {
    var hs' := hs + [h];
    assert forall k :: 0 <= k < |hs| ==> hs'[k] == hs[k];
    assert hs'[|hs|] == h;
    assert HandledJobs(hs') == HandledJobs(hs) + {h.job};
  }

  lemma CountdownStep(jobs: seq<Job>, hs: seq<Handled>, h: Handled, remaining: map<nat, int>)
    requires Next(jobs, hs, h) && Countdown(jobs, hs, remaining)
    ensures jobs[h.job].group in remaining
    ensures Countdown(jobs, hs + [h], remaining[jobs[h.job].group := remaining[jobs[h.job].group] - 1])
  {
    var g0 := jobs[h.job].group;
    assert g0 in Groups(jobs);
    var remaining' := remaining[g0 := remaining[g0] - 1];
    assert remaining'.Keys == remaining.Keys;
    forall g | g in remaining' ensures remaining'[g] == |Outstanding(jobs, hs + [h], g)| {
      OutstandingStep(jobs, hs, h, g);
      assert remaining[g] == |Outstanding(jobs, hs, g)|;
    }
  }

  lemma AffectedStep(jobs: seq<Job>, hs: seq<Handled>, h: Handled)
    requires Next(jobs, hs, h)
    ensures WellFormed(jobs, hs + [h])
    ensures AffectedGroups(jobs, hs + [h]) ==
            AffectedGroups(jobs, hs) + if Affects(h.effect) then {jobs[h.job].group} else {}
  {
    var hs' := hs + [h];
    assert forall k :: 0 <= k < |hs| ==> hs'[k] == hs[k];
    assert hs'[|hs|] == h;
    assert WellFormed(jobs, hs') by {
      forall k | 0 <= k < |hs| ensures hs[k].job != h.job {
        assert hs[k].job in HandledJobs(hs);
      }
    }
    forall g | g in AffectedGroups(jobs, hs) ensures g in AffectedGroups(jobs, hs') {
      var k :| 0 <= k < |hs| && Affects(hs[k].effect) && jobs[hs[k].job].group == g;
      assert hs'[k] == hs[k];
    }
  }

  lemma NoteOnce(reconciled: set<nat>, calls: seq<Call>, call: Call)
    requires CallsOnce(reconciled, calls) && call.group !in reconciled
    ensures CallsOnce(reconciled + {call.group}, calls + [call])
  {
    var calls' := calls + [call];
    assert forall k :: 0 <= k < |calls| ==> calls'[k] == calls[k];
    forall g | g in reconciled + {call.group} ensures exists k :: 0 <= k < |calls'| && calls'[k].group == g {
      if g in reconciled {
        var k :| 0 <= k < |calls| && calls[k].group == g;
        assert calls'[k].group == g;
      } else {
        assert calls'[|calls|].group == g;
      }
    }
  }

  lemma CallsStayTimely(jobs: seq<Job>, hs: seq<Handled>, h: Handled, calls: seq<Call>)
    requires CallsTimely(jobs, hs, calls)
    ensures CallsTimely(jobs, hs + [h], calls)
  {
    forall k | 0 <= k < |calls| ensures CallTimely(jobs, hs + [h], calls[k]) {
      var a := calls[k].after;
      assert CallTimely(jobs, hs, calls[k]);
      assert (hs + [h])[..a] == hs[..a];
    }
  }

  lemma SummedStep(c: Consumer, jobs: seq<Job>, hs: seq<Handled>, h: Handled)
    requires Summed(hs, c) && h.job < |jobs| && jobs[h.job].group in c.remaining
    ensures Summed(hs + [h], Absorb(c, jobs, h))
  {
    assert (hs + [h])[..|hs + [h]| - 1] == hs;
  }

  lemma IterateGroups(c: Consumer, jobs: seq<Job>, h: Handled, inLoop: bool, g: nat)
    requires h.job < |jobs| && jobs[h.job].group in c.remaining && jobs[h.job].group !in c.reconciled
    ensures var g0, c1, c2 := jobs[h.job].group, Absorb(c, jobs, h), Iterate(c, jobs, h, inLoop);
            && (g != g0 ==> (g in c2.affected <==> g in c.affected) && (g in c2.reconciled <==> g in c.reconciled))
            && (g0 in c2.reconciled <==> inLoop && g0 in c2.affected && c1.remaining[g0] == 0)
  {
  }

  lemma ReconciledStep(jobs: seq<Job>, hs: seq<Handled>, c: Consumer, h: Handled, inLoop: bool)
    requires Next(jobs, hs, h) && jobs[h.job].group in c.remaining
    requires ReconciledSoFar(jobs, hs, c, inLoop)
    requires Absorb(c, jobs, h).remaining[jobs[h.job].group] == |Outstanding(jobs, hs + [h], jobs[h.job].group)|
    ensures jobs[h.job].group !in c.reconciled
    ensures ReconciledSoFar(jobs, hs + [h], Iterate(c, jobs, h, inLoop), inLoop)
  {
    var g0, c2 := jobs[h.job].group, Iterate(c, jobs, h, inLoop);
    OutstandingStep(jobs, hs, h, g0);
    forall g ensures g in c2.reconciled <==> inLoop && g in c2.affected && Outstanding(jobs, hs + [h], g) == {} {
      IterateGroups(c, jobs, h, inLoop, g);
      OutstandingStep(jobs, hs, h, g);
    }
  }

  lemma CallsStep(jobs: seq<Job>, hs: seq<Handled>, c: Consumer, h: Handled, inLoop: bool)
    requires h.job < |jobs| && jobs[h.job].group in c.remaining && c.handled == |hs|
    requires CallsOnce(c.reconciled, c.calls) && CallsTimely(jobs, hs, c.calls)
    requires jobs[h.job].group !in c.reconciled
    requires Absorb(c, jobs, h).remaining[jobs[h.job].group] == |Outstanding(jobs, hs + [h], jobs[h.job].group)|
    ensures var c2 := Iterate(c, jobs, h, inLoop);
            CallsOnce(c2.reconciled, c2.calls) && CallsTimely(jobs, hs + [h], c2.calls)
  {
    CallsStayTimely(jobs, hs, h, c.calls);
    var hs', g0 := hs + [h], jobs[h.job].group;
    if inLoop && LastOfAffected(Absorb(c, jobs, h), g0) {
      NoteOnce(c.reconciled, c.calls, Call(g0, |hs'|));
      assert hs'[..|hs'|] == hs';
      assert CallTimely(jobs, hs', Call(g0, |hs'|));
    }
  }

  lemma TalliedStep(jobs: seq<Job>, hs: seq<Handled>, c: Consumer, h: Handled)
    requires Tallied(jobs, hs, c) && Next(jobs, hs, h)
    ensures jobs[h.job].group in c.remaining
    ensures Tallied(jobs, hs + [h], Absorb(c, jobs, h))
  {
    CountdownStep(jobs, hs, h, c.remaining);
    AffectedStep(jobs, hs, h);
    SummedStep(c, jobs, hs, h);
  }

  lemma CalledStep(jobs: seq<Job>, hs: seq<Handled>, c: Consumer, h: Handled, inLoop: bool)
    requires Next(jobs, hs, h) && jobs[h.job].group in c.remaining && c.handled == |hs|
    requires Called(jobs, hs, c, inLoop)
    requires Absorb(c, jobs, h).remaining[jobs[h.job].group] == |Outstanding(jobs, hs + [h], jobs[h.job].group)|
    ensures Called(jobs, hs + [h], Iterate(c, jobs, h, inLoop), inLoop)
  {
    ReconciledStep(jobs, hs, c, h, inLoop);
    CallsStep(jobs, hs, c, h, inLoop);
  }

  /** Every iteration keeps the meaning of the loop state, whatever result arrives next. */
  lemma IterateState(jobs: seq<Job>, hs: seq<Handled>, c: Consumer, h: Handled, inLoop: bool)
    requires LoopState(jobs, hs, c, inLoop) && Next(jobs, hs, h)
    ensures jobs[h.job].group in c.remaining
    ensures LoopState(jobs, hs + [h], Iterate(c, jobs, h, inLoop), inLoop)
  {
    TalliedStep(jobs, hs, c, h);
    CalledStep(jobs, hs, c, h, inLoop);
    var c1, c2 := Absorb(c, jobs, h), Iterate(c, jobs, h, inLoop);
    assert c2 == c1.(reconciled := c2.reconciled, calls := c2.calls);
  }

  // ---------- after the loop ----------

  /** The groups left for the trailing loop. */
  function Trailing(c: Consumer): set<nat> {
    c.affected - c.reconciled
  }

  /** When every job delivered a result the scheduled run's trailing loop has nothing to do:
      each affected group was reconciled, once, right after its own last result; and the
      summary's due count is tested plus skipped. */
  lemma AllDelivered(jobs: seq<Job>, hs: seq<Handled>, c: Consumer)
    requires LoopState(jobs, hs, c, true) && |hs| == |jobs|
    ensures Trailing(c) == {} && c.reconciled == AffectedGroups(jobs, hs)
    ensures |jobs| == c.tested + CountSkipped(hs) && c.tested == c.succeeded + c.failed
    ensures forall g :: g in c.remaining ==> c.remaining[g] == 0
  {
    forall g ensures Outstanding(jobs, hs, g) == {} {
      if i :| i in Outstanding(jobs, hs, g) {
        MissingOne(hs, |jobs|, i);
      }
    }
  }

  /** Distinct results that miss job `i` are fewer than the jobs. */
  lemma MissingOne(hs: seq<Handled>, n: nat, i: nat)
    requires forall k :: 0 <= k < |hs| ==> hs[k].job < n
    requires forall k, l :: 0 <= k < l < |hs| ==> hs[k].job != hs[l].job
    requires i < n && i !in HandledJobs(hs)
    ensures |hs| < n
  {
    var xs := seq(|hs|, k requires 0 <= k < |hs| => hs[k].job);
    assert forall k :: 0 <= k < |hs| ==> hs[k].job in HandledJobs(hs);
    DistinctMissing(xs, n, i);
  }

  lemma {:induction false} CallsSize(reconciled: set<nat>, calls: seq<Call>)
    requires CallsOnce(reconciled, calls)
    ensures |reconciled| == |calls|
  {
    if calls == [] {
      assert reconciled == {};
    } else {
      var m := |calls| - 1;
      var g := calls[m].group;
      forall x | x in reconciled - {g} ensures exists k :: 0 <= k < m && calls[..m][k].group == x {
        var k :| 0 <= k < |calls| && calls[k].group == x;
        assert calls[..m][k].group == x;
      }
      CallsSize(reconciled - {g}, calls[..m]);
    }
  }

  // ---------- the loop as the source runs it ----------

  /** The countdown map of lines 134-139. */
  method CountByGroup(jobs: seq<Job>) returns (remaining: map<nat, int>)
    ensures Countdown(jobs, [], remaining)
    ensures remaining == Start(jobs).remaining
  {
    remaining := map[];
    for n := 0 to |jobs|
      invariant remaining.Keys == Groups(jobs[..n])
      invariant forall g :: g in remaining ==> remaining[g] == CountGroup(jobs[..n], g)
    {
      var g := jobs[n].group;
      GroupsStep(jobs, n);
      ghost var before := remaining;
      remaining := remaining[g := (if g in remaining then remaining[g] else 0) + 1];
      assert remaining.Keys == before.Keys + {g};
      forall x | x in remaining ensures remaining[x] == CountGroup(jobs[..n + 1], x) {
        if x !in before { CountAbsent(jobs[..n], x); }
      }
    }
    assert jobs[..|jobs|] == jobs;
    assert remaining == Start(jobs).remaining;
    StartState(jobs, true);
  }

  lemma GroupsStep(jobs: seq<Job>, n: nat)
    requires n < |jobs|
    ensures jobs[..n + 1][..n] == jobs[..n]
    ensures Groups(jobs[..n + 1]) == Groups(jobs[..n]) + {jobs[n].group}
  {
    var a, b := jobs[..n], jobs[..n + 1];
    assert forall i :: 0 <= i < n ==> b[i] == a[i];
    forall g | g in Groups(a) ensures g in Groups(b) {
      var i :| 0 <= i < n && a[i].group == g;
      assert b[i].group == g;
    }
    assert b[n].group in Groups(b);
  }

  lemma CountAbsent(jobs: seq<Job>, g: nat)
    requires g !in Groups(jobs)
    ensures CountGroup(jobs, g) == 0
  {
    CountGroupIsSize(jobs, g);
    assert forall i: nat :: i < |jobs| ==> jobs[i].group in Groups(jobs);
    assert JobsOf(jobs, g) == {};
  }

  /** One pass of the loop body, lines 211-255. */
  method HandleResult(c: Consumer, jobs: seq<Job>, h: Handled) returns (c': Consumer)
    requires h.job < |jobs| && jobs[h.job].group in c.remaining
    ensures c' == Iterate(c, jobs, h, true)
  {
    var g := jobs[h.job].group;
    c' := c.(handled := c.handled + 1);
    if Affects(h.effect) {
      c' := c'.(affected := c'.affected + {g});
    }
    c' := c'.(remaining := c'.remaining[g := c'.remaining[g] - 1]);
    if c'.remaining[g] == 0 && g in c'.affected {
      c' := c'.(reconciled := c'.reconciled + {g}, calls := c'.calls + [Call(g, c'.handled)]);
    }
    if !h.effect.Released? {
      c' := c'.(tested := c'.tested + 1);
      if h.effect.success {
        c' := c'.(succeeded := c'.succeeded + 1);
      } else {
        c' := c'.(failed := c'.failed + 1);
      }
    }
  }

  /** Lines 205-256: the loop over the results in arrival order. */
  method ConsumeResults(jobs: seq<Job>, arrivals: seq<Handled>) returns (c: Consumer)
    requires WellFormed(jobs, arrivals)
    ensures LoopState(jobs, arrivals, c, true)
  {
    var remaining := CountByGroup(jobs);
    c := Consumer(remaining, {}, {}, [], 0, 0, 0, 0);
    StartState(jobs, true);
    assert arrivals[..0] == [];
    for n := 0 to |arrivals|
      invariant LoopState(jobs, arrivals[..n], c, true)
    {
      assert arrivals[..n + 1] == arrivals[..n] + [arrivals[n]];
      PrefixNext(jobs, arrivals, n);
      IterateState(jobs, arrivals[..n], c, arrivals[n], true);
      c := HandleResult(c, jobs, arrivals[n]);
    }
    assert arrivals[..|arrivals|] == arrivals;
  }

  lemma PrefixNext(jobs: seq<Job>, hs: seq<Handled>, n: nat)
    requires WellFormed(jobs, hs) && n < |hs|
    ensures Next(jobs, hs[..n], hs[n])
  {
  }

  /** Lines 258-270: the affected groups not reconciled yet, in ascending order. */
  method ReconcileTrailing(affected: set<nat>, done: set<nat>, made: seq<Call>, at: nat) returns (calls: seq<Call>)
    requires done <= affected && CallsOnce(done, made)
    ensures made <= calls && CallsOnce(affected, calls)
    ensures forall k :: |made| <= k < |calls| ==> calls[k].after == at && calls[k].group in affected - done
  {
    calls := made;
    var reconciled, rest := done, affected - done;
    while rest != {}
      invariant affected == rest + reconciled && rest !! reconciled && done <= reconciled
      invariant CallsOnce(reconciled, calls) && made <= calls
      invariant forall k :: |made| <= k < |calls| ==> calls[k].after == at && calls[k].group in affected - done
      decreases rest
    {
      ghost var least := Least(rest);
      var g :| g in rest && forall x :: x in rest ==> g <= x;
      NoteOnce(reconciled, calls, Call(g, at));
      reconciled := reconciled + {g};
      calls := calls + [Call(g, at)];
      rest := rest - {g};
    }
    assert reconciled == affected;
  }

  /** Lines 205-273: every affected group is reconciled by exactly one call; those made in the
      loop follow the last result of their group, those made after it are for groups with a
      result missing, and when no result is missing there are none of the latter. */
  method RunResultLoop(jobs: seq<Job>, arrivals: seq<Handled>)
    returns (tested: nat, succeeded: nat, failed: nat, groups: nat, calls: seq<Call>, inLoopCalls: nat)
    requires WellFormed(jobs, arrivals)
    ensures tested == succeeded + failed && succeeded == CountSuccess(arrivals)
    ensures tested + CountSkipped(arrivals) == |arrivals|
    ensures inLoopCalls <= |calls| == groups == |AffectedGroups(jobs, arrivals)|
    ensures CallsOnce(AffectedGroups(jobs, arrivals), calls)
    ensures CallsTimely(jobs, arrivals, calls[..inLoopCalls])
    ensures forall k :: inLoopCalls <= k < |calls| ==>
              calls[k].after == |arrivals| && Outstanding(jobs, arrivals, calls[k].group) != {}
    ensures |arrivals| == |jobs| ==> inLoopCalls == |calls|
  {
    var c := ConsumeResults(jobs, arrivals);
    tested, succeeded, failed, inLoopCalls := c.tested, c.succeeded, c.failed, |c.calls|;
    calls := ReconcileTrailing(c.affected, c.reconciled, c.calls, |arrivals|);
    assert calls[..inLoopCalls] == c.calls;
    groups := |c.affected|;
    CallsSize(c.affected, calls);
    if |arrivals| == |jobs| {
      AllDelivered(jobs, arrivals, c);
      CallsSize(c.reconciled, c.calls);
    }
  }

  lemma AffectsSome(jobs: seq<Job>, hs: seq<Handled>)
    requires WellFormed(jobs, hs)
    ensures AffectedGroups(jobs, hs) != {} <==> exists k :: 0 <= k < |hs| && Affects(hs[k].effect)
  {
    if k :| 0 <= k < |hs| && Affects(hs[k].effect) {
      assert jobs[hs[k].job].group in AffectedGroups(jobs, hs);
    }
    if AffectedGroups(jobs, hs) != {} {
      var g :| g in AffectedGroups(jobs, hs);
    }
  }

  /** Lines 340-366: an immediate probe reports success exactly when every result was a success,
      recorded or not, and reconciles once exactly when some result affected its group. */
  method RunImmediateLoop(jobs: seq<Job>, arrivals: seq<Handled>) returns (allSucceeded: bool, reconcile: bool)
    requires WellFormed(jobs, arrivals)
    ensures allSucceeded <==> CountSuccess(arrivals) == |arrivals|
    ensures reconcile <==> AffectedGroups(jobs, arrivals) != {}
  {
    allSucceeded, reconcile := true, false;
    for n := 0 to |arrivals|
      invariant CountSuccess(arrivals[..n]) <= n && (allSucceeded <==> CountSuccess(arrivals[..n]) == n)
      invariant reconcile <==> exists k :: 0 <= k < n && Affects(arrivals[k].effect)
    {
      assert arrivals[..n + 1][..n] == arrivals[..n];
      var effect := arrivals[n].effect;
      if effect.Released? {
        allSucceeded, reconcile := false, true;
      } else {
        reconcile := reconcile || (effect.Stored? && effect.current);
        allSucceeded := allSucceeded && effect.success;
      }
    }
    assert arrivals[..|arrivals|] == arrivals;
    AffectsSome(jobs, arrivals);
  }
}
