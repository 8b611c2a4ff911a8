/**
 The probe-target table and its lease-checked operations
 (model/hub_supply_probe.go), as values: every operation is one SQL statement or
 one transaction, so it is one atomic function of the table.
 A lease token is a positive number; 0 is the empty token.
 */
module ProbeStore {

  const LEASE_SECONDS := 300
  const SUSPEND_LIMIT := 100

  datatype Status = Pending | Testing | Waiting | Available | Failing | Suspended

  datatype Target = Target(
    group: nat, version: int, status: Status, token: nat,
    nextProbeAt: int, failures: nat, lastSuccessAt: int, manual: bool)

  datatype Sample = Sample(target: nat, token: nat, success: bool)

  /** `versions` is the current configuration version of each group; `marked` the groups put
      in the testing state and not recomputed since; tokens 1..issued and row ids up to `used`
      have been handed out; `samples` is the log of recorded results. */
  datatype Store = Store(
    targets: map<nat, Target>, versions: map<nat, int>, marked: set<nat>,
    issued: nat, used: nat, samples: seq<Sample>)

  datatype RecordOutcome = LeaseLost | Failed | Recorded(group: nat, current: bool)

  predicate Held(s: Store, id: nat, token: nat) {
    id in s.targets && s.targets[id].status == Testing && s.targets[id].token == token
  }

  // ---------- operations ----------

  predicate Expired(t: Target, now: int) {
    t.status == Testing && t.nextProbeAt <= now
  }

  function RequeueExpired(s: Store, now: int): Store {
    s.(targets := map id | id in s.targets ::
         if Expired(s.targets[id], now)
         then s.targets[id].(status := Pending, nextProbeAt := now, token := 0) else s.targets[id])
  }

  predicate Claimable(t: Target, now: int) {
    t.status != Suspended && t.status != Testing && 0 < t.nextProbeAt <= now
  }

  /** Leases the claimable targets among `ids` under a token never issued before. */
  function Claim(s: Store, ids: set<nat>, now: int): Store {
    s.(issued := s.issued + 1,
       targets := map id | id in s.targets ::
         if id in ids && Claimable(s.targets[id], now)
         then s.targets[id].(status := Testing, nextProbeAt := now + LEASE_SECONDS, token := s.issued + 1)
         else s.targets[id])
  }

  function Requeue(s: Store, ids: set<nat>, token: nat, now: int): Store {
    s.(targets := map id | id in s.targets ::
         if id in ids && Held(s, id, token)
         then s.targets[id].(status := Pending, nextProbeAt := now, token := 0) else s.targets[id])
  }

  function ResetForManualProbe(s: Store, ids: set<nat>, now: int): Store {
    s.(targets := map id | id in s.targets ::
         if id in ids
         then s.targets[id].(status := Pending, nextProbeAt := now, failures := 0, manual := true, token := 0)
         else s.targets[id])
  }

  function ReleaseSkipped(s: Store, id: nat, token: nat, now: int): Store {
    if id == 0 || token == 0 || !Held(s, id, token) then s else
    var t := s.targets[id];
    var status := if t.failures >= SUSPEND_LIMIT then Suspended
                  else if t.failures > 0 then Failing
                  else if t.lastSuccessAt > 0 then Available else Pending;
    var next := if t.failures >= SUSPEND_LIMIT then 0 else now;
    s.(targets := s.targets[id := t.(status := status, nextProbeAt := next, manual := false, token := 0)])
  }

  /** The row written for a probe result; `due` is the next scheduled probe time. */
  function Settled(t: Target, success: bool, current: bool, now: int, due: int): Target {
    var failures := if success then 0
                    else if t.failures + 1 >= SUSPEND_LIMIT then SUSPEND_LIMIT else t.failures + 1;
    var status := if success then Available
                  else if t.failures + 1 >= SUSPEND_LIMIT then Suspended else Failing;
    t.(status := status, failures := failures,
       lastSuccessAt := if success then now else t.lastSuccessAt,
       nextProbeAt := if current && status != Suspended then due else 0,
       manual := false, token := 0)
  }

  function Record(s: Store, id: nat, token: nat, success: bool, now: int, due: int): (Store, RecordOutcome) {
    if !Held(s, id, token) then (s, LeaseLost) else
    var t := s.targets[id];
    if t.group !in s.versions then (s, Failed) else
    var current := s.versions[t.group] == t.version;
    (s.(targets := s.targets[id := Settled(t, success, current, now, due)],
        samples := s.samples + [Sample(id, token, success)],
        marked := if current then s.marked - {t.group} else s.marked),
     Recorded(t.group, current))
  }

  function MarkGroups(s: Store, groups: set<nat>): Store {
    s.(marked := s.marked + groups)
  }

  function Reconcile(s: Store, groups: set<nat>): Store {
    s.(marked := s.marked - groups)
  }

  // ---------- writers beside the runs ----------

  /** A group edit elsewhere in the program: a new configuration version. */
  function EditGroup(s: Store, group: nat, version: int): Store {
    s.(versions := s.versions[group := version])
  }

  /** The due time rescheduling computes from a row (lines 484-504): `off` when automatic probing
      of its model is off, `due` the regular next time of a row that has been probed. */
  function NextDue(t: Target, off: bool, probed: bool, due: int, now: int): int {
    if off && !t.manual then 0 else
    var out := t.status == Suspended || t.failures >= SUSPEND_LIMIT;
    var at := if out then 0
              else if probed && t.status != Pending && t.status != Testing then due else t.nextProbeAt;
    if at <= 0 && !out then now else at
  }

  /** Lines 488 and 505: a due time is written without asking for status or lease. */
  function WriteDue(s: Store, id: nat, at: int): Store {
    if id in s.targets then s.(targets := s.targets[id := s.targets[id].(nextProbeAt := at)]) else s
  }

  /** A row as it is created (lines 459-474 and 739-760). */
  predicate NewRow(t: Target) {
    t.token == 0 && t.failures == 0 && !t.manual && (t.status == Pending || t.status == Waiting || t.status == Available)
  }

  /** Row ids are handed out once. */
  function CreateRow(s: Store, id: nat, t: Target): Store {
    s.(targets := s.targets[id := t], used := id)
  }

  function DeleteRows(s: Store, ids: set<nat>): Store {
    s.(targets := s.targets - ids)
  }

  function DeleteGroup(s: Store, group: nat): Store {
    s.(targets := map id | id in s.targets && s.targets[id].group != group :: s.targets[id],
       versions := s.versions - {group}, marked := s.marked - {group})
  }

  /** The rows of a group under its current configuration. */
  function CurrentRows(s: Store, group: nat): set<nat> {
    set id | id in s.targets && s.targets[id].group == group && group in s.versions && s.targets[id].version == s.versions[group]
  }

  // ---------- table invariant ----------

  ghost predicate ValidTarget(t: Target, issued: nat) {
    && t.token <= issued
    && (t.status == Testing <==> t.token != 0)
    && t.failures <= SUSPEND_LIMIT
    && (t.status == Suspended <==> t.failures == SUSPEND_LIMIT)
  }

  /** One result at most per claimed target: a recorded pair never holds its token again. */
  ghost predicate SamplesOnce(s: Store) {
    && (forall i, j :: 0 <= i < j < |s.samples| ==>
          !(s.samples[i].target == s.samples[j].target && s.samples[i].token == s.samples[j].token))
    && (forall i :: 0 <= i < |s.samples| ==>
          && 0 < s.samples[i].token <= s.issued
          && !Held(s, s.samples[i].target, s.samples[i].token))
  }

  ghost predicate Valid(s: Store) {
    && (forall id :: id in s.targets ==> id <= s.used && ValidTarget(s.targets[id], s.issued))
    && SamplesOnce(s)
  }

  /** What every operation leaves alone: the group a row belongs to. No row comes back. */
  ghost predicate SameShape(s: Store, s': Store) {
    && s.issued <= s'.issued && s.used <= s'.used
    && (forall id :: id in s'.targets && id !in s.targets ==> s.used < id)
    && forall id :: id in s.targets && id in s'.targets ==> s'.targets[id].group == s.targets[id].group
  }

  /** No target comes to hold a token that was already issued. */
  ghost predicate NoRevival(s: Store, s': Store) {
    forall id, token :: 0 < token <= s.issued && Held(s', id, token) ==> Held(s, id, token)
  }

  /** Only rows held under `token` differ. */
  ghost predicate OnlyHolderChanged(s: Store, s': Store, token: nat) {
    forall id :: id in s.targets && id in s'.targets && s'.targets[id] != s.targets[id] ==> Held(s, id, token)
  }

  ghost predicate Lawful(s: Store, s': Store) {
    Valid(s') && SameShape(s, s') && NoRevival(s, s')
  }

  lemma RequeueExpiredLawful(s: Store, now: int)
    requires Valid(s)
    ensures Lawful(s, RequeueExpired(s, now))
    ensures forall id, token :: Held(RequeueExpired(s, now), id, token) ==> s.targets[id].nextProbeAt > now
  {
  }

  lemma ClaimLawful(s: Store, ids: set<nat>, now: int)
    requires Valid(s)
    ensures Lawful(s, Claim(s, ids, now))
    ensures forall id :: Held(Claim(s, ids, now), id, s.issued + 1) <==>
                         id in ids && id in s.targets && Claimable(s.targets[id], now)
    ensures forall id :: id in s.targets && Claim(s, ids, now).targets[id] != s.targets[id] ==> s.targets[id].token == 0
  {
  }

  lemma RequeueLawful(s: Store, ids: set<nat>, token: nat, now: int)
    requires Valid(s) && token > 0
    ensures Lawful(s, Requeue(s, ids, token, now))
    ensures OnlyHolderChanged(s, Requeue(s, ids, token, now), token)
    ensures forall id :: Held(Requeue(s, ids, token, now), id, token) ==> id !in ids
  {
  }

  lemma ResetLawful(s: Store, ids: set<nat>, now: int)
    requires Valid(s)
    ensures Lawful(s, ResetForManualProbe(s, ids, now))
    ensures forall id, token :: token > 0 && Held(ResetForManualProbe(s, ids, now), id, token) ==> id !in ids
  {
  }

  lemma ReleaseLawful(s: Store, id: nat, token: nat, now: int)
    requires Valid(s) && token > 0 && id > 0
    ensures Lawful(s, ReleaseSkipped(s, id, token, now))
    ensures OnlyHolderChanged(s, ReleaseSkipped(s, id, token, now), token)
    ensures !Held(ReleaseSkipped(s, id, token, now), id, token)
    ensures Held(s, id, token) ==> ReleaseSkipped(s, id, token, now).targets[id].status != Suspended
  {
  }

  lemma RecordLawful(s: Store, id: nat, token: nat, success: bool, now: int, due: int)
    requires Valid(s) && 0 < token <= s.issued
    ensures var (s', o) := Record(s, id, token, success, now, due);
            && Lawful(s, s') && OnlyHolderChanged(s, s', token)
            && (o == LeaseLost <==> !Held(s, id, token))
            && (o == Failed <==> Held(s, id, token) && s.targets[id].group !in s.versions)
            && (!o.Recorded? ==> s' == s)
            && (o.Recorded? ==> !Held(s', id, token) && s'.samples == s.samples + [Sample(id, token, success)])
  {
    var (s', o) := Record(s, id, token, success, now, due);
    if o.Recorded? {
      assert forall i :: 0 <= i < |s.samples| ==> s'.samples[i] == s.samples[i];
    }
  }

  lemma WriteDueLawful(s: Store, id: nat, at: int)
    requires Valid(s)
    ensures Lawful(s, WriteDue(s, id, at))
  {
  }

  lemma CreateLawful(s: Store, id: nat, t: Target)
    requires Valid(s) && s.used < id && NewRow(t)
    ensures Lawful(s, CreateRow(s, id, t))
  {
  }

  lemma DeleteLawful(s: Store, ids: set<nat>, group: nat)
    requires Valid(s)
    ensures Lawful(s, DeleteRows(s, ids)) && Lawful(s, DeleteGroup(s, group))
  {
  }
}
