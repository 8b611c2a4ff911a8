# Gateway mechanisms, modelled and proved

This project models the mechanisms of an LLM gateway that carry invariants of their own, and proves what they keep. It is
written in Dafny 4.11; `dafny verify dfyconfig.toml` verifies all of it.

| files | mechanism |
|---|---|
| `ProbeStore`, `ProbeConsumer`, `ProbeRun`, `ProbeSystem`, `ProbeTheorems`, `ProbeLifecycle`, `ProbeLeases`, `ProbeResults` | the supply probe: leases on targets, preflight, two worker pools, the result loop, deferred clean-up; any number of scheduled and immediate runs interleaved, at the level of one database operation or one goroutine step, with each other and with everything else that writes the target table: rescheduling, row creation and deletion, manual requests, configuration edits |
| `ModelNames`, `UpstreamUpdate`, `StoredNames`, `UpstreamRuns`, `UpstreamOverlap`, `KeysetScan` | detecting and applying upstream model changes, and the batch scan over channels |
| `RateLimit` | the in-memory sliding-window limiter and its sweeper |
| `BodyStorage`, `StorageAccounting` | memory and disk storage of request bodies, and the global counters under concurrency |
| `TtftTracker` | the detector of the first meaningful stream line |
| `MultiKey`, `MultiKeyHandlers`, `MultiKeyCreate` | channels with several keys and index-keyed status maps |
| `OggScan` | the Ogg page scanner, against section 6 of RFC 3533 |
| `QuotaMath`, `Verification`, `TenantAdmin` | quota conversions and the test charge, verification codes, tenant domains and owners |
| `Counting`, `Text`, `Octets`, `Wrappers`, `EventRuns` | counting facts, string functions, bytes, optional values, runs of a transition system |

Objects and loops of the source are classes and loops here, proved against functions of their inputs; the theorems are about
those functions and about runs of them. Concurrency is a transition system: an event is enabled in a state and leads to the
next one, and a theorem speaks of every sequence of events. Clock readings, database faults, cancellation, probe outcomes and
scheduling are arbitrary parameters of the events.

## What the proofs found

Where a property that one would expect does not hold of the code, the model follows the code, and the exact condition is
proved.

- Detect, apply everything, detect again leaves nothing pending exactly when no pending name contains a comma (names are
  stored comma-joined) and no ignore rule that is still needed is spelled like a pending name (`UpstreamUpdate.Convergence`).
- For the same reason a step keeps pending additions out of the models exactly when no name left pending is a comma-separated
  piece of an added one (`UpstreamRuns.StepKeepsPending`, `UpstreamRuns.CommaBreaksPending`).
- The rate limiter agrees with an unbounded log on all runs exactly when the limit is at least 1 and the window is at most one
  second longer than the sweep expiry (`RateLimit.ExactBounds`).
- Memory and disk storage answer a sequence of operations alike exactly when it has no zero-length read at the end of the data:
  memory reports the end there, a file does not (`BodyStorage.ObservationallyEqual`).
- Deleting keys of a multi-key channel keeps each other key with its status exactly when the remaining keys can be read back
  from the joined text: a key with a line break in it, or an empty key that moves to the first or last place, shifts the keys
  against their statuses (`MultiKey.DeleteKeyExact`, `MultiKey.BlankKeyShifts`). When every key is automatically disabled,
  deleting them keeps them all and enables them (`MultiKey.AllAutoDisabledComeBack`), because an empty key text is not written.
  An index that only the recorded size admits is accepted, and nothing is deleted: a channel created from a blank line and two
  keys records three (`MultiKey.NothingDeleted`, `MultiKeyCreate.ThirdOfTwo`).
- A stored key text that reads as an empty array is counted as lines and listed as no keys, and a deletion can leave one
  (`MultiKey.EmptyArrayLeft`); size and keys fit after every action exactly when no action stores such a text
  (`MultiKey.SizedExactly`), and tidy keys never lead there (`MultiKey.TidyForever`).
- Upstream handlers save their settings whole, from the row they read: a selection saved in between is lost. A name stays
  ignored exactly while every handler that saves remembers it, and always if none saves that had read the row before
  (`UpstreamOverlap.IgnoredExactly`, `UpstreamOverlap.SelectionForgotten`).
- A multi-key channel is created with a size that is the number of keys read back exactly when the first and the last of its
  lines that are not exactly empty are not blank; a text that reads as an array is counted in lines all the same, so that an
  array on one line is recorded as one key (`MultiKeyCreate.CreatedSizeExact`, `MultiKeyCreate.ArrayOnOneLine`).
- A skipped probe result counts its group as affected even if the run has lost the lease; a probed one does not
  (`ProbeTheorems.LostLeaseIsHarmless`).
- A probe run cancelled before anything is dispatched ends as completed: its targets are requeued, its groups stay marked and
  that run does not reconcile them (`ProbeTheorems.CancelledBeforeDispatch`).
- A tenant update that leaves out the field and commits a row read before another request committed can give a tenant two
  primary domains or two owners; exactly then (`TenantAdmin.SaveBreaksExactly`, `TenantAdmin.UpdateBreaksExactly`).
- The disk limit is a limit exactly if at most one admission is in flight at a time, or nothing can be admitted: k overlapping
  admissions of B bytes reach limit + (k - 1) * B, and no more (`StorageAccounting.LimitHoldsExactly`).
- The tracker of the first stream line is wrong about a chunk exactly when the chunk overflows the 32 KiB buffer, no line that
  stays whole fires, and the lost lines and the remnant of the cut one disagree. It can miss a line and it can hear one that is
  not there (`TtftTracker.TrackerIsBatch`, `LongLineMissed`, `ShortLineMissed`, `FalseAlarm`).
- Rescheduling writes due times without asking who holds a row, so that it can cut a lease short: a lease keeps its deadline
  exactly until rescheduling writes another one (`ProbeLeases.LeaseLasts`, `ProbeLeases.StaleWriteEndsLease`).
- A tenant keeps a primary domain through creations, and loses it exactly when a save leaves neither its own domain nor
  another primary (`TenantAdmin.PrimaryForever`).

## Model

| member | source | states |
|---|---|---|
| ProbeStore.RequeueExpiredLawful | model/hub_supply_probe.go:785-792 | expiring leases keeps the table invariant (a target is in testing exactly when it has a token, suspended exactly at 100 failures, one sample per claim), revives no token, and leaves only unexpired leases |
| ProbeStore.ClaimLawful | model/hub_supply_probe.go:843-863 | a claim leases under the fresh token exactly the listed targets that are due, not suspended and not in testing, and touches only unleased rows |
| ProbeStore.RequeueLawful | model/hub_supply_probe.go:798-813 | a requeue changes only rows held under the token, and leaves none of the listed ones under it |
| ProbeStore.ResetLawful | model/hub_supply_probe.go:865-876 | a manual reset takes the listed targets away from every holder and keeps the table invariant |
| ProbeStore.ReleaseLawful | model/hub_supply_probe.go:815-836 | releasing a skipped target changes only a row held under the token, gives it back and never suspends it |
| ProbeStore.RecordLawful | model/hub_supply_probe.go:911-1014 | a result is stored exactly when the token holds the target and its group exists; without the lease it is lost, without the group it fails, and then nothing changes; a stored one adds one sample and ends the lease |
| ProbeLifecycle.FailuresAreStreak | model/hub_supply_probe.go:949-967 | in every execution, for as long as a target exists, its failure count is the number of failed results since its last success or manual reset, by a run or a request, and it is suspended exactly when that reaches 100 |
| ProbeLifecycle.SuspendedUntilReset | model/hub_supply_probe.go:843-876 | a suspended target stays exactly as it is, but for its due time, through every interleaving until a manual reset or its deletion |
| ProbeLifecycle.RecordTells | model/hub_supply_probe.go:949-971 | a recorded result leaves a status that tells success from failure, adds one failure or clears them and dates the success; the target can be claimed again exactly from its due time on, if its configuration is current, it is not suspended and a probe is due; the group is unmarked exactly when the configuration is current |
| ProbeLifecycle.SkipUndoesClaim | model/hub_supply_probe.go:815-863 | claiming and then releasing a target after a skipped probe gives its status back exactly when that status told its failures and successes; only due time and manual flag change otherwise |
| ProbeLeases.HeldUntilEnded | model/hub_supply_probe.go:785-876 | one event: a held target stays held exactly unless its lease expires, its holder settles or requeues it, a manual probe takes it or it is deleted; its deadline moves exactly as rescheduling writes it |
| ProbeLeases.LeaseLasts | model/hub_supply_probe.go:785-863 | over every execution: a lease is still held exactly if no event ended it, and its deadline is then the one it had or what rescheduling wrote last |
| ProbeLeases.ClaimDeadline | model/hub_supply_probe.go:843-863 | a claim sets the deadline 300 seconds on |
| ProbeLeases.RescheduleKeepsDeadline | model/hub_supply_probe.go:479-509 | rescheduling that reads a held row writes its deadline back exactly unless automatic probing of the model is off and the probe is not manual; then it writes 0 |
| ProbeLeases.StaleWriteEndsLease | model/hub_supply_probe.go:479-509 | a due time read before a claim and written after it lets the next expiry end the lease however young it is |
| ProbeLifecycle.RequeuedIsDue | model/hub_supply_probe.go:798-813 | a requeued target can be claimed at once and keeps its failures and successes |
| ProbeLifecycle.ManualProbeTakesAll | controller/hub_supply_probe.go:295-302 | reset and claim give a manual probe all its targets, whoever held them and even if suspended, with failures cleared, the manual flag set and the last success kept |
| ProbeLifecycle.ExpiredIsReclaimed | model/hub_supply_probe.go:785-863 | an expired target is due at once with failures and successes kept, and the next claim takes it from its holder; one that is not expired stays held |
| ProbeLifecycle.RescheduledIsDue | model/hub_supply_probe.go:479-509 | a rescheduled target that nobody holds is never due while its model is switched off and nobody asked, or while it is suspended; otherwise exactly from its regular time, the time it had, or now |
| ProbeLifecycle.EditOutdatesResult | model/hub_supply_probe.go:936-971 | a result that arrives after an edit of its group is recorded as not current: the group stays marked and the target is not scheduled |
| ProbeConsumer.CountByGroup | controller/hub_supply_probe.go:132-139 | the countdown map holds for each group the number of its jobs |
| ProbeConsumer.IterateState | controller/hub_supply_probe.go:211-255 | handling any next result keeps: countdown is the outstanding jobs of each group, affected groups and counts are those of the handled results, exactly the affected groups with nothing outstanding are reconciled, each by one call right after its last result |
| ProbeConsumer.AllDelivered | controller/hub_supply_probe.go:205-273 | when every job delivered, in any order, the trailing loop has nothing left, every affected group is reconciled, and jobs = tested + skipped, tested = succeeded + failed |
| ProbeConsumer.HandleResult | controller/hub_supply_probe.go:211-255 | one pass of the loop body, in the source's order of updates, is the step that IterateState is about |
| ProbeConsumer.ConsumeResults | controller/hub_supply_probe.go:205-256 | the loop over arrivals in any order ends in the state described by IterateState |
| ProbeConsumer.ReconcileTrailing | controller/hub_supply_probe.go:258-270 | the trailing loop adds exactly one call for each affected group not reconciled yet, and none for others |
| ProbeConsumer.RunResultLoop | controller/hub_supply_probe.go:205-273 | each affected group is reconciled by exactly one call; calls in the loop follow the group's last result, later ones are for groups with a result missing, and there are none of these if nothing is missing; the summary balances |
| ProbeConsumer.RunImmediateLoop | controller/hub_supply_probe.go:340-367 | an immediate probe succeeds exactly when every result was a success and reconciles exactly when some result affected the group |
| ProbeRun.DoKeepsRun | controller/hub_supply_probe.go:169-203 | every preflight, pool, worker and closer step keeps: at most one result per job, waiting or handled; workers within their limits; the channel closed only when every job is settled |
| ProbeRun.NeverBlocks | controller/hub_supply_probe.go:169-180 | whoever is about to send finds room in a channel of one place per job, whether or not anybody receives |
| ProbeRun.GoroutinesNeverStuck | controller/hub_supply_probe.go:413-449 | after the start some worker, feeder or closer can always move, without the consumer, until the channel is closed |
| ProbeRun.DoLosesWeight | controller/hub_supply_probe.go:413-449 | every goroutine step lowers a natural-number measure |
| ProbeRun.NewRunWeight | controller/hub_supply_probe.go:110-139 | that measure starts at 4 * jobs + 9 |
| ProbeSystem.ConsumeOk | controller/hub_supply_probe.go:207-256 | handling the head of the channel, with any fault, keeps the run invariant, changes only a row the run holds, and records at most one result, under its token |
| ProbeSystem.DoActOk | controller/hub_supply_probe.go:110-167 | the same for every act of a run: reset, claim, mark, goroutine step, consume, end of loop, deferred requeue and reconcile; the synchronisation at line 114 is modelled by the events beside the runs |
| ProbeSystem.BesideLawful | model/hub_supply_probe.go:358-509 | what else writes the table (rescheduling, creating and deleting rows, manual requests, edits, reconciling) keeps it valid, revives no token and records no result |
| ProbeTheorems.StepKeepsInv | controller/hub_supply_probe.go:110-368 | every event, of a run or beside the runs, keeps the table valid, every run's invariant and leases, and tokens distinct |
| ProbeTheorems.OnlyAuthorisedChanges | controller/hub_supply_probe.go:69-108 | a target row changes only because its token holder handled a result or requeued it, it was free and got leased, its lease ran out, or a manual probe reset it; its due time alone is also overwritten by rescheduling; it goes exactly when deleted and appears only when created |
| ProbeTheorems.LostLeaseIsHarmless | controller/hub_supply_probe.go:69-90 | handling a result without the lease leaves the whole table unchanged, and affects the group exactly when the result is a skipped one |
| ProbeTheorems.Safety | controller/hub_supply_probe.go:110-368 | the invariant holds in every state of every execution |
| ProbeTheorems.LostLeaseStaysLost | controller/hub_supply_probe.go:140-164 | a target that is not under an issued token never comes under it again, whoever runs next |
| ProbeTheorems.SilentAfterReturn | controller/hub_supply_probe.go:205-231 | nothing is recorded under a run's token after its body returned, whatever its workers still send |
| ProbeTheorems.NothingLeftClaimed | controller/hub_supply_probe.go:152-164 | on every exit path, from the moment the deferred requeue succeeds no target is ever again under the run's token |
| ProbeTheorems.OneSamplePerClaim | model/hub_supply_probe.go:986-1004 | in every execution a claim records at most one sample for a target |
| ProbeTheorems.CompletedRun | controller/hub_supply_probe.go:258-273 | a completed run, scheduled or immediate, has reconciled exactly the groups its handled results affected, and its counts balance |
| ProbeResults.SampleExactly | controller/hub_supply_probe.go:69-90 | handling a result adds a sample exactly when it is a probed one, nothing stops the run before, the run holds the target and its group exists; the sample is the result's own |
| ProbeResults.HandledExactly | controller/hub_supply_probe.go:207-256 | handling a result appends one entry for its job, skipped or with the success probed, that affects the group exactly if it was skipped, or recorded with the row's version equal to the group's; or the run stops with no entry and no sample |
| ProbeResults.HandledCounts | controller/hub_supply_probe.go:231-255 | the affected groups grow by exactly the group of such an entry, and by nothing otherwise |
| ProbeResults.RecordedIsCounted | controller/hub_supply_probe.go:231-237 | when handling a result adds a sample, the loop counts that very success; the group is affected from then on if the row's version is the group's in the table, and this result adds nothing if it is not |
| ProbeResults.StopsAndLeaves | controller/hub_supply_probe.go:207-214 | a cancelled scheduled run, and any run at a skipped result with an error, stops at the next result and leaves the table alone; an immediate run goes on past a lost lease |
| ProbeResults.LastResultUnmarks | controller/hub_supply_probe.go:218-246 | when the last result of an affected group is handled in a scheduled run that goes on, the group is no longer marked and counts as reconciled |
| ProbeResults.MarksExactly | controller/hub_supply_probe.go:140-167 | marking marks exactly the groups of the run besides those marked before; a deferred reconcile that gets through unmarks exactly these |
| ProbeResults.ResultsWereSent | controller/hub_supply_probe.go:413-449 | over every execution: each result in a run's channel was sent by a worker or the preflight of that run for that job |
| ProbeResults.RecordedWasSent | controller/hub_supply_probe.go:169-237 | over every execution: each recorded sample is the success that a goroutine of the recording run delivered for a job on that very target, under the run's token |
| ProbeResults.RecordedIsReconciled | controller/hub_supply_probe.go:231-273 | over every execution: a run that completes, scheduled or immediate, has reconciled the group of every result it recorded under the current configuration |
| ProbeTheorems.DropsAll | controller/hub_supply_probe.go:438-443 | a cancelled run with every job queued, text, image or both, can drop them all and close its channel |
| ProbeTheorems.CancelledBeforeDispatch | controller/hub_supply_probe.go:152-164 | such a run ends completed, requeues, leaves the marks as they are and runs no deferred reconcile |
| ProbeTheorems.ActLosesWeight | controller/hub_supply_probe.go:110-368 | every act of a run lowers its measure, so every run ends |
| ProbeTheorems.RunsNeverStuck | controller/hub_supply_probe.go:110-368 | until a run is done and its goroutines are gone one of its own acts is enabled |
| ModelNames.NormalizeFacts | controller/channel_upstream_update.go:100-105 | normalising gives trimmed, non-empty, distinct names, exactly those some entry trims to |
| ModelNames.NormalizeClean | controller/channel_upstream_update.go:100-105 | a clean list is its own normal form |
| ModelNames.MergeFacts | controller/channel_upstream_update.go:107-121 | merging is union, clean, and keeps the base as a prefix |
| ModelNames.SubtractFacts | controller/channel_upstream_update.go:123-132 | subtracting is set difference and clean |
| ModelNames.IntersectFacts | controller/channel_upstream_update.go:134-143 | intersecting is set intersection and clean |
| ModelNames.ApplySelectedFacts | controller/channel_upstream_update.go:145-150 | a selected change is (origin + add) - (remove - add): adding wins |
| ModelNames.NormalizeGrows | controller/channel_upstream_update.go:100-105 | the first of equal names keeps its place: a longer list normalises to an extension of what its beginning does |
| ModelNames.FilterInOrder | controller/channel_upstream_update.go:123-143 | subtracting and intersecting go name by name, in order |
| ModelNames.NormalizeNames | controller/channel_upstream_update.go:100-105 | the loop that trims and deduplicates computes the normal form |
| ModelNames.MergeNames | controller/channel_upstream_update.go:107-121 | the loop with a seen set computes the union of MergeFacts |
| UpstreamUpdate.PendingFacts | controller/channel_upstream_update.go:179-238 | pending additions are the upstream names that are neither local nor redirect targets nor ignored; pending removals the local names that are neither redirect sources nor upstream |
| UpstreamUpdate.LocalsFacts | model/channel.go:301-306 | stored names are clean and without commas, and reading them again changes nothing |
| UpstreamUpdate.StoreLocals | controller/channel_upstream_update.go:493-502 | a clean comma-free list survives being stored as one text |
| UpstreamUpdate.DetectFacts | controller/channel_upstream_update.go:519-551 | what a check that only stages leaves pending, as sets |
| UpstreamUpdate.RemovedExactly | controller/channel_upstream_update.go:228-236 | after any check the names to remove are exactly the models that are neither the source of a redirect nor upstream |
| UpstreamUpdate.DetectedExactly | controller/channel_upstream_update.go:203-227 | after a check that only stages, the names to add are exactly those upstream that are no model, no target of a redirect, no literal ignore entry and matched by no rule; an automatic one leaves none |
| UpstreamUpdate.ApplyIgnored | controller/channel_upstream_update.go:972-981 | the ignore list becomes old + ignored selection - added selection |
| UpstreamUpdate.ApplyPending | controller/channel_upstream_update.go:962-985 | what stays pending after an apply |
| UpstreamUpdate.ApplyModels | controller/channel_upstream_update.go:962-985 | the models become old + added - removed when no added name has a comma |
| UpstreamUpdate.Convergence | controller/channel_upstream_update.go:949-997 | for any channel, upstream list, rules and redirects: detect, apply all, detect again is empty exactly when no pending name has a comma and no needed rule is spelled like a pending name |
| UpstreamUpdate.ConvergesWithoutOddNames | controller/channel_upstream_update.go:949-997 | for any channel, rules and redirects: if no upstream name has a comma or looks like a rule, detect, apply all, detect again is empty |
| UpstreamUpdate.CommaReturns | controller/channel_upstream_update.go:205-227 | a pending name with a comma is wanted again whatever is stored |
| UpstreamUpdate.LostRule | controller/channel_upstream_update.go:972-981 | a channel with one rule, and an upstream list of the only name it matches and a name spelled like the rule: detecting, applying all and detecting again is not empty |
| UpstreamUpdate.AnchoredRule | controller/channel_upstream_update.go:217-222 | such a rule: `regex:^m$` |
| StoredNames.StoredLocals | model/channel.go:301-306 | storing any list as one comma-joined text and reading it again gives exactly the non-blank comma-separated pieces of its names |
| StoredNames.ApplyStores | controller/channel_upstream_update.go:962-985 | the models after an apply of any names: the old without the removed, and the pieces of the added |
| UpstreamRuns.CheckFacts | controller/channel_upstream_update.go:519-551 | a check replaces the pending lists, and automatic application stores the additions at once |
| UpstreamRuns.ModelsAfter | controller/channel_upstream_update.go:504-551 | the models after any step: old minus removed, plus the comma-free names it adds, plus the pieces of added names with commas |
| UpstreamRuns.StepKeepsApart | controller/channel_upstream_update.go:504-551 | on any names every step keeps pending additions apart from literally ignored names and pending removals inside the models |
| UpstreamRuns.StepKeepsPending | controller/channel_upstream_update.go:962-985 | a step keeps pending additions outside the models exactly when no name left pending is a piece of an added name with a comma |
| UpstreamRuns.StepKeepsIgnored | controller/channel_upstream_update.go:972-981 | a literally ignored name stays ignored, and enters the models exactly as a piece of an added name |
| UpstreamRuns.PendingStaysConsistent | controller/channel_upstream_update.go:504-551 | through a run of checks, failed checks, automatic applications and selections the pending lists are consistent after every step exactly when every step is harmless in that sense |
| UpstreamRuns.AlwaysApart | controller/channel_upstream_update.go:504-551 | the unconditional part of it, for every run |
| UpstreamRuns.IgnoredStaysOut | controller/channel_upstream_update.go:949-997 | through every run a literally ignored name stays ignored and is never pending, and does not enter the models unless as such a piece |
| UpstreamRuns.IgnoredForGood | controller/channel_upstream_update.go:949-997 | a name that a selection ignores and does not add is added by no later check, automatic application or selection |
| UpstreamRuns.CommaFreeRuns | controller/channel_upstream_update.go:504-551 | if no upstream list has a name with a comma, every run is harmless |
| UpstreamRuns.CommaBreaksPending | controller/channel_upstream_update.go:962-985 | selecting a pending name "x,y" while x is pending too leaves x both pending and a model |
| UpstreamRuns.BackedModelsStay | controller/channel_upstream_update.go:228-236 | over every run of checks and selections: a model that every check finds upstream or as a redirect source is never pending for removal and never removed |
| UpstreamRuns.BarredNamesStayOut | controller/channel_upstream_update.go:203-227 | over every run: a name that every check has as a redirect target or misses upstream is never pending and never a model, save as a piece of another name |
| UpstreamRuns.RunsWait | controller/channel_upstream_update.go:504-513 | over every run: an unforced check is too early exactly within the interval after the last step of any kind; no step changes whether changes are applied automatically |
| UpstreamOverlap.FreshSave | controller/channel_upstream_update.go:493-551 | a handler that saves over the row it read does what it does alone |
| UpstreamOverlap.ChangesExactly | controller/channel_upstream_update.go:529-551 | which handlers write the models: a check allowed to that found names to add, and a selection that adds a name not among the models it read or removes one that is |
| UpstreamOverlap.SavedIgnored | controller/channel_upstream_update.go:493-551 | what a save still ignores, from what the handler read and was asked |
| UpstreamOverlap.IgnoredExactly | controller/channel_upstream_update.go:493-551 | however handlers overlap, a literally ignored name stays ignored throughout a run exactly when every handler that saves remembers it |
| UpstreamOverlap.SelectionForgotten | controller/channel_upstream_update.go:504-551 | a check that read the row before a selection ignored a name, and saves after it, makes it pending again |
| UpstreamOverlap.IgnoredForGoodOverlapping | controller/channel_upstream_update.go:949-997 | an ignored name stays ignored, not pending and no model throughout a run in which no handler saves that had read the row before, unless it is a piece of an added name |
| UpstreamOverlap.SaveExactly | controller/channel_upstream_update.go:493-551 | a save leaves consistent pending lists exactly when it writes models and is harmless by itself, or what it leaves pending fits the models that are there by now |
| UpstreamOverlap.PendingExactly | controller/channel_upstream_update.go:493-551 | however handlers overlap, the pending lists are consistent in every state of a run exactly when every save fits |
| UpstreamRuns.CollectAdds | controller/channel_upstream_update.go:213-227 | the loop over upstream names collects, in order, those not covered and not suppressed |
| UpstreamRuns.CollectRemoves | controller/channel_upstream_update.go:228-236 | the loop over local names collects, in order, those neither redirected nor upstream |
| UpstreamRuns.CollectPending | controller/channel_upstream_update.go:179-238 | both loops together compute the lists of PendingFacts |
| UpstreamRuns.PlanCheck | controller/channel_upstream_update.go:519-540 | what a successful check writes, and that models change exactly when automatic application applies to a non-empty list |
| UpstreamRuns.PlanApply | controller/channel_upstream_update.go:962-985 | what an apply writes, and which names it reports as added and removed |
| UpstreamRuns.ChannelRow.CheckAndPersist | controller/channel_upstream_update.go:504-551 | which outcome occurs (too soon exactly within the interval, then not saved, then unreachable, else done) and the row after each |
| UpstreamRuns.ChannelRow.ApplyUpdates | controller/channel_upstream_update.go:949-997 | the row after an apply, and nothing changed if it was not saved |
| KeysetScan.QueryAscends | controller/channel_upstream_update.go:1003-1014 | a query returns at most a batch, ascending, after the last id |
| KeysetScan.QueryComplete | controller/channel_upstream_update.go:1003-1014 | a row a query leaves out lies beyond a full batch |
| KeysetScan.BatchStep | controller/channel_upstream_update.go:704-791 | a batch keeps the visited ids ascending, and a short one means every row that stayed was visited |
| KeysetScan.ProcessBatch | controller/channel_upstream_update.go:729-786 | a batch is processed in order, whole or up to the cancellation |
| KeysetScan.Scan | controller/channel_upstream_update.go:703-791 | whatever rows come and go between batches no channel is visited twice and ids ascend; a finished scan visited every channel that was there at each query it made; an unfinished one was cancelled or out of queries |
| KeysetScan.ScanStable | controller/channel_upstream_update.go:1023-1078 | a stable table of any size is visited exactly once each, in ascending order, within one query more than it has full batches |
| RateLimit.Limiter.constructor | common/rate-limit.go:14-26 | a new limiter is empty |
| RateLimit.Limiter.Request | common/rate-limit.go:45-70 | the decision and the new queues as functions of the old ones |
| RateLimit.Limiter.Sweep | common/rate-limit.go:33-39 | a pass of the sweeper removes exactly the idle queues |
| RateLimit.QueueTracksLog | common/rate-limit.go:28-70 | in every run the queue of a key is the tail of its log of accepts, at most the limit long, and what it forgot is outside the window, across sweeps and other keys |
| RateLimit.LimiterMatchesLog | common/rate-limit.go:45-70 | a request is accepted exactly when the log has fewer than the limit of accepts within the window |
| RateLimit.AcceptsAreSpaced | common/rate-limit.go:45-70 | the (i + max)-th accept of a key is at least one window after the i-th |
| RateLimit.BoundsNeeded | common/rate-limit.go:28-70 | for a limit of 0, or a window beyond the bound, some proper run is decided wrongly |
| RateLimit.ExactBounds | common/rate-limit.go:28-70 | every proper run agrees with the log if and only if max >= 1 and window <= expiry + 1 |
| BodyStorage.MemoryStorage.constructor | common/body_storage.go:37-45 | a memory storage starts at position 0 and counts itself once |
| BodyStorage.MemoryStorage.Read | common/body_storage.go:47-54 | a read refines the view (data, position, closed) |
| BodyStorage.MemoryStorage.Seek | common/body_storage.go:56-63 | a seek refines the view |
| BodyStorage.MemoryStorage.ReadAll | common/body_storage.go:74-81 | all data, without moving the position |
| BodyStorage.MemoryStorage.Close | common/body_storage.go:65-72 | only the first close gives the bytes back |
| BodyStorage.DiskStorage.constructor | common/body_storage.go:100-130 | a disk storage starts at position 0 and counts itself once |
| BodyStorage.DiskStorage.Read | common/body_storage.go:169-176 | a read refines the same view |
| BodyStorage.DiskStorage.Seek | common/body_storage.go:178-185 | a seek refines the same view |
| BodyStorage.DiskStorage.ReadAll | common/body_storage.go:198-230 | reading everything through the file's own offset leaves position and view as they were |
| BodyStorage.DiskStorage.Close | common/body_storage.go:187-196 | only the first close takes file and bytes off the counters, clamped at zero |
| BodyStorage.Stats.DecrementDisk | common/disk_cache_config.go:115-122 | subtraction with a clamp at zero |
| BodyStorage.CreateBodyStorage | common/body_storage.go:241-259 | exactly one storage, holding the data, on disk exactly when enabled, large enough, available and writable; the counters move by it alone |
| BodyStorage.CreateFromReader | common/body_storage.go:262-303 | a storage holds the whole body or there is an error; the exact conditions for disk, for memory, for too large and for a failed disk; all counters move by exactly the storage that was created |
| BodyStorage.ObservationallyEqual | common/body_storage.go:47-238 | memory and disk storages answer every sequence of operations alike exactly when it has no empty read at the end |
| BodyStorage.SeekThenRead | common/body_storage.go:47-63 | seeking to a position from the start, from here or from the end answers with it, in memory and on disk, and the next read finds the bytes from there |
| BodyStorage.LastBytes | common/body_storage.go:178-185 | going back k from the end and reading k bytes gives the last k bytes; the end is at the length of the data |
| BodyStorage.SeekFails | common/body_storage.go:56-63 | a seek before the start or with another mode fails and moves nothing |
| BodyStorage.ReadsDeliver | common/body_storage.go:47-54 | reads of any sizes deliver the data from where they began, every byte once and in order, as far as they asked or to the end |
| BodyStorage.DriveBoth | common/body_storage.go:47-238 | a memory and a disk storage of the same bytes driven side by side stay in step, and answer alike exactly when no read was empty at the end |
| BodyStorage.ClosedForGood | common/body_storage.go:47-81 | after a close nothing is readable and nothing moves |
| BodyStorage.ReadsAreContiguous | common/body_storage.go:47-54 | consecutive reads deliver the data in order without gap or overlap |
| StorageAccounting.StepKeepsAccounts | common/disk_cache_config.go:108-134 | every atomic step, each half of an increment or decrement by itself, keeps the counters at what the storages contribute and never clamps |
| StorageAccounting.AccountsHold | common/body_storage.go:187-196 | so does every interleaving |
| StorageAccounting.QuietCounters | common/disk_cache_config.go:108-134 | at every quiet point each counter pair is the number and total size of the open storages, and the clamp has never fired |
| StorageAccounting.AdmissionBound | common/disk_cache_config.go:169-177 | with at most k admissions in flight, each of at most B bytes, usage plus in-flight bytes never exceeds limit + (k - 1) * B |
| StorageAccounting.PeakBound | common/disk_cache_config.go:169-177 | so usage never exceeds limit + (k - 1) * min(B, limit) |
| StorageAccounting.Overshoot | common/body_storage.go:241-303 | for every k and every B from 1 to the limit a run that reaches limit + (k - 1) * B |
| StorageAccounting.LimitHoldsExactly | common/disk_cache_config.go:169-177 | usage stays within the limit on all runs if and only if k <= 1, B = 0 or limit = 0 |
| TtftTracker.DrainBuffer | controller/channel-test.go:65-81 | the loop over the buffer computes the recursive drain |
| TtftTracker.Tracker.Observe | controller/channel-test.go:57-82 | one chunk's effect on buffer and time |
| TtftTracker.Tracker.Value | controller/channel-test.go:84-93 | whole milliseconds since the start, never negative, absent until something fired |
| TtftTracker.LinesOfConcat | controller/channel-test.go:65-70 | the lines of a text cut anywhere are those of the first part and those of its unfinished line continued |
| TtftTracker.DrainIsBatch | controller/channel-test.go:65-81 | draining fires exactly when a complete line does, and otherwise leaves the unfinished line |
| TtftTracker.BufferIsKept | controller/channel-test.go:57-82 | on every stream, until it fires the tracker holds the last 32 KiB of the unfinished line |
| TtftTracker.FiresExactly | controller/channel-test.go:57-82 | on every stream, it fires at a chunk exactly when a complete line of the last 32 KiB of what the chunk completes fires, with that chunk's time |
| TtftTracker.HearsExactly | controller/channel-test.go:57-81 | on every stream, a tracker that has not fired fires at the next chunk exactly when a complete line in the last 32 KiB trims to the bytes `data:` followed by a payload that means something once trimmed |
| TtftTracker.HearsFittingStreams | controller/channel-test.go:57-81 | a stream that fits the buffer has fired exactly when one of its complete lines does that |
| TtftTracker.HearsOneLine | controller/channel-test.go:65-80 | one short line fires exactly when what follows its `data:` means something, and never without one |
| TtftTracker.NoEventNoFire | controller/channel-test.go:72-74 | a stream that fits and has no `data:` line never fires, for any judge |
| TtftTracker.NeverFromNothing | controller/channel-test.go:57-81 | on every stream, a tracker that fired has seen a complete line, or the end of one, that carries something behind `data:` |
| TtftTracker.RightExact | controller/channel-test.go:61-64 | a chunk is decided as by the batch scan exactly when it fits, or a line that stays whole fires, or the lost lines and the remnant of the cut one agree |
| TtftTracker.TrackerIsBatch | controller/channel-test.go:57-82 | the tracker agrees with the batch scan after every chunk exactly when every chunk before the first firing line is decided right |
| TtftTracker.FiresInFirstChunk | controller/channel-test.go:57-82 | then the recorded time is that of the first chunk completing a firing line |
| TtftTracker.FittingStreams | controller/channel-test.go:57-82 | streams that never overflow the buffer are decided right, and until something fires the buffer is the unfinished line |
| TtftTracker.LongLineMissed | controller/channel-test.go:61-64 | a firing line longer than the buffer is missed |
| TtftTracker.ShortLineMissed | controller/channel-test.go:61-64 | a short firing line is missed when 32 KiB follow it in one chunk |
| TtftTracker.FalseAlarm | controller/channel-test.go:61-64 | a line that does not fire, cut so that its rest begins with `data:`, fires |
| MultiKey.AlwaysSized | controller/channel.go:1838-2127 | after every run of actions, automatic disabling included, on any keys and any recorded size: as soon as one action has saved and counted, the size is the number of keys and status indices are in range exactly unless the stored text reads as an empty array; until then exactly if they were at the start |
| MultiKey.SizedExactly | controller/channel.go:1838-2127 | from a channel that fits, it fits after every action of a run exactly when no action stores a text that reads as an empty array, which is decided by the channel and the action before it |
| MultiKey.DisableExactly | controller/channel.go:1838-1879 | disabling an index below the size disables that key; time, reason and every other key stay as they were |
| MultiKey.EnableExactly | controller/channel.go:1881-1921 | enabling one enables that key and forgets its time and reason; every other key stays as it was |
| MultiKey.AllExactly | controller/channel.go:1923-1991 | disabling all disables every enabled key below the size and leaves the status of the disabled ones; enabling all leaves every key enabled without time and reason |
| MultiKey.MarkExactly | model/channel.go:696-730 | marking a key sets status, time and reason of exactly its first index, or only its status if it is enabled; an absent key changes nothing |
| MultiKey.StaysDisabled | controller/channel.go:1838-1991 | over every run of actions that rewrite no keys and do not enable it, a disabled key stays disabled |
| MultiKey.MarkSized | model/channel.go:696-746 | a status that changes by itself while a key is in use keeps size and range as they were |
| MultiKey.EmptyArrayLeft | controller/channel.go:1994-2059 | deleting the key beside an empty array leaves a text counted as one key and listed as none |
| MultiKey.EmptyArrayText | model/channel.go:187-209 | a key text with such a pair |
| MultiKey.TidyForever | controller/channel.go:1838-2127 | from tidy keys, appending only tidy ones, no run of actions, automatic disabling included, stores an empty array: there are always keys, they stay tidy, and their number is the size |
| MultiKey.StoredExact | model/channel.go:187-209 | joined keys are read back as the same list exactly when none has a line break, the first and last are not empty and the text is not an array |
| MultiKey.TidyReadsBack | model/channel.go:187-209 | trimmed one-line keys that do not open like an array are always read back |
| MultiKey.DeleteKeyExact | controller/channel.go:1994-2059 | whatever size is recorded: an accepted deletion removes exactly that key, each other one keeping its status, disabled ones time and reason, if and only if there is such a key, it is not the only one, and the others are read back |
| MultiKey.NothingDeleted | controller/channel.go:1994-2059 | an index that the size admits and no key has: the handler saves and reports success, and the keys stay the same exactly when they are read back or there is no text to write |
| MultiKey.DeleteAutoExact | controller/channel.go:2074-2127 | the same for deleting all automatically disabled keys: exactly the others are left if and only if they are read back |
| MultiKey.NoneAutoDisabledLeft | controller/channel.go:2074-2127 | with tidy keys of which one is left, no key is automatically disabled after the deletion, and each other key is still there with its status |
| MultiKey.AppendExactly | controller/channel.go:1123-1181 | appended to clean tidy keys, the new names follow the old ones, each once and enabled; the old keys keep their places, statuses, times and reasons |
| MultiKey.TidySurvivors | controller/channel.go:1994-2127 | any selection of tidy keys is read back, so deletions on such channels are exact |
| MultiKey.AllAutoDisabledComeBack | controller/channel.go:2113-2127 | if all keys are automatically disabled they all stay and lose their disabled status, whatever size was recorded |
| MultiKey.BlankKeyShifts | controller/channel.go:1994-2059 | deleting the key above an empty line does not keep the others |
| MultiKey.BlankKeyText | model/channel.go:187-209 | a key text with such a line |
| MultiKey.AppendExact | controller/channel.go:1160-1181 | the merged list has no duplicates and is old plus new; old keys keep their places if and only if they were trimmed, non-empty and distinct |
| MultiKey.AppendStored | controller/channel.go:1106-1181 | the merged list is what is stored exactly when it is read back, or there was and is no key |
| MultiKey.AppendKeepsStatus | controller/channel.go:1106-1181 | then no status is lost exactly when all status indices refer to merged keys |
| MultiKeyHandlers.KeptStep | controller/channel.go:2012-2041 | keeping one more index is pushing one more key with its moved entries |
| MultiKeyHandlers.RebuildWithout | controller/channel.go:2012-2041 | the loop rebuilds the keys and maps of all indices but one |
| MultiKeyHandlers.RebuildWithoutAuto | controller/channel.go:2084-2111 | the loop rebuilds the keys and maps without the automatically disabled ones, and counts these |
| MultiKeyHandlers.DisableEnabled | controller/channel.go:1950-1961 | the loop disables exactly the enabled keys; its count is 0 exactly when there are none |
| MultiKeyHandlers.AppendKeys | controller/channel.go:1160-1181 | two passes with one seen set compute the merge |
| MultiKeyHandlers.FindKey | model/channel.go:701-707 | the loop finds the first index of a key |
| MultiKeyHandlers.MultiKeyRow.Update | model/channel.go:559-626 | saving a row: an empty key is not written, the size is recounted, statuses beyond it dropped |
| MultiKeyHandlers.MultiKeyRow.Delete | controller/channel.go:1994-2059 | the row after deleting a key, and that it is saved exactly when the index is in range and a key remains |
| MultiKeyHandlers.MultiKeyRow.DeleteAutoDisabled | controller/channel.go:2074-2127 | the row after deleting the automatically disabled keys, their number, and that it is saved exactly when there are any |
| MultiKeyHandlers.MultiKeyRow.DisableAllKeys | controller/channel.go:1938-1992 | the row after disabling all enabled keys, saved exactly when there are any |
| MultiKeyHandlers.MultiKeyRow.DisableKey | controller/channel.go:1838-1880 | the row after disabling a key, refused exactly out of range |
| MultiKeyHandlers.MultiKeyRow.EnableKey | controller/channel.go:1881-1921 | the row after enabling a key, refused exactly out of range |
| MultiKeyHandlers.MultiKeyRow.EnableAllKeys | controller/channel.go:1923-1945 | the row after enabling all keys |
| MultiKeyHandlers.MultiKeyRow.MarkKey | model/channel.go:696-730 | the row after a key was disabled or enabled by itself, and whether the key was found |
| MultiKeyHandlers.MultiKeyRow.AppendNew | controller/channel.go:1106-1181 | the row after appending keys, saved exactly when there is a key text that is not a malformed array |
| MultiKeyCreate.CollectKeys | controller/channel.go:785-793 | the loop over lines keeps trimmed ones without a line break, dropping the empty |
| MultiKeyCreate.CreatedSizeExact | controller/channel.go:785-822 | the recorded size is the number of keys read back exactly when the first and the last line that is not exactly empty are not blank; for a text that reads as an array, exactly when it has as many elements as there are such lines |
| MultiKeyCreate.LineByLine | controller/channel.go:786-793 | cleaning goes line by line: an empty line is dropped and any other trimmed, a blank one to nothing |
| MultiKeyCreate.ArrayOnOneLine | controller/channel.go:785-797 | an array on a single line is recorded as one key however many it holds |
| MultiKeyCreate.ThirdOfTwo | controller/channel.go:785-822 | a channel created from a blank line and two keys records three; deleting the third is accepted and saved, and both keys are still there |
| OggScan.PageSize | common/audio.go:238-242 | the page size is the sum of the segment table |
| OggScan.ReadPage | common/audio.go:217-245 | one pass over the page at the reader's position |
| OggScan.LargestGranule | common/audio.go:206-249 | the loop ends on every byte string, its position only growing, with the value of the recursive scan |
| OggScan.OpusDuration | common/audio.go:197-254 | the duration is that value over 48000 |
| OggScan.GranuleRoundTrip | common/audio.go:224-231 | the signed 64-bit little-endian granule position of an encoded page is read back |
| OggScan.BytesWeigh | common/audio.go:229-243 | each further byte of the granule position weighs 256 times the one before, and the segment lengths add up |
| OggScan.PageStep | common/audio.go:217-245 | a well-formed page is read and skipped whole |
| OggScan.JunkSkipped | common/audio.go:217-222 | bytes in which no capture pattern starts are skipped |
| OggScan.StreamScan | common/audio.go:204-249 | on pages with quiet bytes before, between and after them the scan resynchronises and returns the largest granule position |
| OggScan.OpusLength | common/audio.go:197-254 | which is the maximum of 0 and all signed granule positions |
| OggScan.NeverInvented | common/audio.go:204-249 | on any bytes the result is 0 or the granule position of a captured header |
| QuotaMath.SaturateFacts | common/quota_math.go:72-86 | saturation lands in the 32-bit range and is monotone over numbers and infinities |
| QuotaMath.ConversionsMonotone | common/quota_math.go:95-148 | all three conversions are monotone |
| QuotaMath.StrictExactly | common/quota_math.go:88-134 | the strict forms succeed exactly when no clamp is reported, exactly inside the range, and then are within one (or one half) of the number |
| QuotaMath.ClampsExactly | common/quota_math.go:72-86 | which clamp is reported and with which value, for every number, infinity and NaN |
| QuotaMath.DecimalExactly | common/quota_math.go:134-148 | a decimal converts strictly exactly when it rounds to a number inside the range, then to the nearest integer with halves away from zero; beyond it is clamped |
| QuotaMath.RoundFacts | common/quota_math.go:119-128 | rounding is within one half, symmetric about zero, and takes halves away from zero |
| QuotaMath.ChargeMonotone | controller/channel-test.go:690-698 | more tokens never cost less |
| QuotaMath.ChargeAccuracy | controller/channel-test.go:690-698 | unless the minimum applies the twice-rounded charge is within 1/2 + r/2 of the unrounded price |
| QuotaMath.FreeExactly | controller/channel-test.go:690-698 | a charge is never negative and is free exactly when a ratio is zero |
| QuotaMath.SmallestCharge | controller/channel-test.go:690-698 | a price below one half is charged as one if both ratios are set |
| Verification.CodeStore.Register | common/verification.go:35-45 | the map after a registration, collected when it grows too large |
| Verification.CodeStore.Verify | common/verification.go:47-56 | present, not expired and equal |
| Verification.CodeStore.Delete | common/verification.go:58-62 | exactly one slot removed |
| Verification.CodeStore.RemoveExpired | common/verification.go:65-72 | the loop removes exactly the expired entries |
| Verification.RunFaithful | common/verification.go:35-72 | after every run the map holds the latest entry of a slot, or that entry has expired |
| Verification.ExpiryIsAge | common/verification.go:47-56 | whole seconds against whole minutes: expired exactly at the validity period in nanoseconds |
| Verification.VerifyIsLatest | common/verification.go:35-72 | verify succeeds exactly when the latest register or delete of the slot registered that code less than the validity period ago; collection is never observable |
| Verification.TenOrFresh | common/verification.go:35-72 | after every run that ends with a registration there are at most ten codes, or none that had expired when the collector looked |
| Verification.PurposesDoNotCollide | common/verification.go:35-45 | purposes of one length never share a slot |
| TenantAdmin.TenantDb.CreateDomain | controller/hub_tenant_admin.go:288-302 | the domains after a creation; one primary stays one |
| TenantAdmin.TenantDb.CommitDomain | controller/hub_tenant_admin.go:338-348 | the domains after saving a row read earlier |
| TenantAdmin.TenantDb.UpsertMember | controller/hub_tenant_admin.go:376-392 | refused exactly for a second owner; one owner stays one |
| TenantAdmin.TenantDb.CommitMember | controller/hub_tenant_admin.go:424-441 | the members after saving a row read earlier |
| TenantAdmin.SaveBreaksExactly | controller/hub_tenant_admin.go:323-348 | a save breaks uniqueness exactly when it leaves primary out, read a primary row, and another domain is primary by now |
| TenantAdmin.UpdateBreaksExactly | controller/hub_tenant_admin.go:420-441 | the same for the owner role |
| TenantAdmin.StepKeepsUnique | controller/hub_tenant_admin.go:288-470 | a step keeps one primary domain and one owner per tenant exactly unless it commits a row read as primary or owner, leaving the field out, while there is another by now |
| TenantAdmin.UniqueForever | controller/hub_tenant_admin.go:288-470 | however reads and transactions interleave, uniqueness holds in all states exactly when there is no such commit |
| TenantAdmin.CreatedExactly | controller/hub_tenant_admin.go:288-302 | a tenant's first domain is primary, and so is one that asks for it; only then do the tenant's others stop being primary |
| TenantAdmin.SavedExactly | controller/hub_tenant_admin.go:338-348 | a save writes its row with the flag it was given, and only making it primary touches the tenant's others |
| TenantAdmin.MembersExactly | controller/hub_tenant_admin.go:378-441 | a member gets the role asked for or the one that was read, no other changes, and it is refused exactly when it asks to be owner beside another |
| TenantAdmin.PrimaryForever | controller/hub_tenant_admin.go:262-348 | over every interleaving: each tenant with a domain has a primary one in all states exactly when every save of a domain leaves it one; creations always do |
| TenantAdmin.AtomicHandlersKeepUnique | controller/hub_tenant_admin.go:288-470 | with each handler one atomic step, that is each commit right after its own read, every run keeps one primary domain and one owner per tenant whatever the requests leave out |
| TenantAdmin.ExplicitRequestsKeepUnique | controller/hub_tenant_admin.go:288-470 | requests that name the field keep uniqueness however reads and transactions interleave |
| TenantAdmin.StaleSaveBreaks | controller/hub_tenant_admin.go:323-348 | a concrete interleaving that leaves two primary domains |

## Left out

- HTTP handlers, JSON binding, translations, audit logs, notifications and caches: input and output around the modelled logic.
- Executing a probe, choosing its endpoint and whether it streams: a probe's outcome is arbitrary.
- Route-state computation of a group: reconciling is modelled as clearing the mark that testing set, together with when and how often it is called.
- Latency, error text and the schedule in minutes of a probe result: the next due time is a parameter, 0 when automatic probing is off.
- Lease tokens are a counter: 24 random bytes are taken to be fresh. Row ids are handed out once, as an auto-increment column does.
- Synchronising a group's rows is taken one statement at a time, with any rows and times: which models, endpoints and minutes lead to them is not modelled, nor is the cooldown that limits manual requests for a group.
- The migration that repairs failure counts when the program starts: it runs before any probe.
- UpstreamRuns.IgnoredForGood: about whole steps, and about names ignored literally; what a regular-expression rule matches is a parameter.
- TtftTracker.TrackerIsBatch: judging a payload and trimming bytes are parameters.
- UpstreamRuns.PendingStaysConsistent: about whole steps, one after the other; handlers that overlap are the subject of UpstreamOverlap, and edits of a channel by other handlers are not modelled.
- UpstreamRuns.IgnoredStaysOut: about whole steps likewise.
- KeysetScan.Scan: what happens to a visited channel is not part of the scan; ids are positive.
- RateLimit.ExactBounds: for a whole number of seconds of expiry that is not negative, as a limiter without an expiry starts no sweeper, and for limits that are not negative, as the source fails on others when it allocates the queue.
- BodyStorage.CreateFromReader: the reader delivers the whole body; a reader that fails half-way is an error path not modelled.
- BodyStorage.DiskStorage.Seek: the platform's extra seek modes for sparse files are not modelled.
- Resetting, synchronising and cleaning up the disk cache, and configuration changes at run time: they move counters independently of open storages.
- StorageAccounting.AdmissionBound: assumes that a storage writes no more than it declared to the availability check.
- MultiKey.DeleteKeyExact: the JSON reader is a parameter of which one fact is used, that the text of an array is longer than its elements joined; negative map indices do not occur.
- MultiKey.MarkSized: the status of the channel itself, which turns with the last enabled key and decides whether the change is made at all, is not modelled; nor is the cached copy of the row.
- Key status listing, which only reads; Vertex key parsing, which is JSON reading; single and batch creation, which store one key each and have no index maps to keep aligned.
- OggScan.LargestGranule: the reader fills whole reads, as files and byte readers do.
- QuotaMath.ChargeAccuracy: exact reals; floating-point rounding, int64 overflow and the fixed-price branch are not modelled.
- TenantAdmin.UniqueForever: a transaction is one atomic step; the row lock that a database without one leaves out is not modelled.
- Other audio formats, payments, withdrawals, Midjourney refunds and the web front end.
