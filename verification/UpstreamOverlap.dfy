/**
 Checks and selections of one channel that overlap (controller/channel_upstream_update.go, lines
 493-551 and 949-997): a handler reads the row, works on what it read, fetching over the network
 in between, and saves its settings whole, and its models only if it changed them.
 */
module UpstreamOverlap {
  import opened Counting
  import opened Text
  import opened ModelNames
  import opened UpstreamUpdate
  import opened StoredNames
  import opened UpstreamRuns
  import opened EventRuns

  /** A handler that has read the row and not saved yet. */
  datatype Handler = Handler(read: Channel, step: Step)

  datatype Sys = Sys(row: Channel, handlers: map<nat, Handler>)

  datatype Event = Begin(h: nat, step: Step) | Commit(h: nat) | GiveUp(h: nat)

  predicate Enabled(s: Sys, e: Event) {
    if e.Begin? then e.h !in s.handlers else e.h in s.handlers
  }

  /** The step changes the models it read. */
  predicate Changes(read: Channel, step: Step) {
    match step
    case Check(env, upstream, auto, _) =>
      auto && read.autoSync && PendingAdd(env, Unpack(read.models, ','), upstream, read.ignored) != []
    case CheckFailed(_) => false
    case Select(addIn, _, removeIn, _) =>
      var add := Intersect(addIn, Normalize(read.detected));
      var remove := Subtract(Intersect(removeIn, Normalize(read.removed)), add);
      Locals(read.models) != ApplySelected(Locals(read.models), add, remove)
  }

  /** The row after a save: settings as the handler computed them, models only if it changed
      them. */
  function Saved(row: Channel, read: Channel, step: Step): Channel {
    var done := UpstreamRuns.Do(read, step);
    if Changes(read, step) then done else done.(models := row.models)
  }

  function Next(s: Sys, e: Event): Sys
    requires Enabled(s, e)
  {
    match e
    case Begin(h, step) => s.(handlers := s.handlers[h := Handler(s.row, step)])
    case Commit(h) => Sys(Saved(s.row, s.handlers[h].read, s.handlers[h].step), s.handlers - {h})
    case GiveUp(h) => s.(handlers := s.handlers - {h})
  }

  ghost function May(): (Sys, Event) -> bool {
    (s: Sys, e: Event) => Enabled(s, e)
  }

  ghost function Move(): (Sys, Event) -> Sys {
    (s: Sys, e: Event) => if Enabled(s, e) then Next(s, e) else s
  }

  lemma Unchanged(read: Channel, step: Step)
    requires !Changes(read, step)
    ensures UpstreamRuns.Do(read, step).models == read.models
  {
  }

  /** Adding what is there and removing what is not leaves the list as it is. */
  lemma SelectedSame(origin: seq<string>, add: seq<string>, remove: seq<string>)
    requires Clean(origin) && Clean(add) && Clean(remove)
    requires Elements(add) <= Elements(origin) && Elements(remove) * Elements(origin) == {}
    ensures ApplySelected(origin, add, remove) == origin
  {
    NormalizeClean(origin);
    NormalizeClean(add);
    NormalizeClean(remove);
    WithoutMembers(add, Elements(origin));
    EmptyElements(Without(add, Elements(origin)));
    assert Merge(origin, add) == origin;
    SubtractFacts(remove, add);
    forall x | x in origin ensures x !in Names(Subtract(remove, add)) {
      assert x in Elements(remove) ==> x in Elements(remove) * Elements(origin);
    }
    WithoutNone(origin, Names(Subtract(remove, add)));
  }

  lemma SelectedChanges(origin: seq<string>, add: seq<string>, remove: seq<string>)
    requires Clean(origin) && Clean(add) && Clean(remove) && Elements(add) !! Elements(remove)
    ensures origin != ApplySelected(origin, add, remove) <==>
            !(Elements(add) <= Elements(origin)) || Elements(remove) * Elements(origin) != {}
  {
    NormalizeClean(origin);
    NormalizeClean(add);
    NormalizeClean(remove);
    ApplySelectedFacts(origin, add, remove);
    var kept := Elements(remove) * Elements(origin);
    if Elements(add) <= Elements(origin) && kept == {} {
      SelectedSame(origin, add, remove);
    } else if kept != {} {
      var x :| x in kept;
      assert x in Elements(origin) && x !in Elements(ApplySelected(origin, add, remove));
    }
  }

  /** Which handlers write the models: a check that may and finds a name to add, and a selection
      that adds a name that is no model of the row it read or removes one that is. */
  lemma ChangesExactly(read: Channel, step: Step)
    ensures step.Check? ==>
              (Changes(read, step) <==>
               && step.auto && read.autoSync
               && Wanted(step.env, Models(read), Names(step.upstream), Names(read.ignored)) != {})
    ensures step.Select? ==>
              (Changes(read, step) <==>
               || !(Adding(read, step.add) <= Models(read))
               || Removing(read, step.add, step.remove) * Models(read) != {})
    ensures Changes(read, step) ==> !step.CheckFailed?
  {
    LocalsFacts(read.models);
    match step
    case Check(env, upstream, auto, _) =>
      PendingFacts(env, Unpack(read.models, ','), upstream, read.ignored);
      EmptyElements(PendingAdd(env, Unpack(read.models, ','), upstream, read.ignored));
    case CheckFailed(_) =>
    case Select(addIn, _, removeIn, _) => SelectionChanges(read, addIn, removeIn);
  }

  lemma SelectionChanges(read: Channel, addIn: seq<string>, removeIn: seq<string>)
    ensures var add := Intersect(addIn, Normalize(read.detected));
            var remove := Subtract(Intersect(removeIn, Normalize(read.removed)), add);
            Locals(read.models) != ApplySelected(Locals(read.models), add, remove) <==>
              || !(Adding(read, addIn) <= Models(read))
              || Removing(read, addIn, removeIn) * Models(read) != {}
  {
    var add := Intersect(addIn, Normalize(read.detected));
    var remove := Subtract(Intersect(removeIn, Normalize(read.removed)), add);
    Selections(read, addIn, removeIn);
    LocalsFacts(read.models);
    NormalizeClean(remove);
    SelectedChanges(Locals(read.models), add, remove);
  }

  /** A handler that saves over the row it read does what it would do alone. */
  lemma FreshSave(row: Channel, step: Step)
    ensures Saved(row, row, step) == UpstreamRuns.Do(row, step)
  {
    if !Changes(row, step) { Unchanged(row, step); }
  }

  // ---------- what stays ignored ----------

  /** What the handler will save still ignores `x`. */
  predicate Remembers(read: Channel, step: Step, x: string) {
    match step
    case Select(add, ignore, _, _) => (x in Names(read.ignored) || x in Adding(read, ignore)) && x !in Adding(read, add)
    case _ => x in Names(read.ignored)
  }

  lemma SavedIgnored(row: Channel, read: Channel, step: Step, x: string)
    ensures x in Names(Saved(row, read, step).ignored) <==> Remembers(read, step, x)
  {
    if step.Select? { ApplyIgnored(read, step.add, step.ignore, step.remove, step.at); }
  }

  ghost function IgnoresNow(x: string): Sys -> bool {
    (s: Sys) => x in IgnoredNames(s.row)
  }

  ghost function Mindful(x: string): (Sys, Event) -> bool {
    (s: Sys, e: Event) => e.Commit? && e.h in s.handlers ==> Remembers(s.handlers[e.h].read, s.handlers[e.h].step, x)
  }

  /** However handlers overlap, a literally ignored name stays ignored throughout a run exactly
      when every handler that saves remembers it. */
  lemma IgnoredExactly(s: Sys, events: seq<Event>, x: string)
    requires Runs(May(), Move(), s, events) && x in IgnoredNames(s.row)
    ensures Always(Move(), IgnoresNow(x), s, events) <==> EachStep(Move(), Mindful(x), s, events)
  {
    var may, move, inv, good := May(), Move(), IgnoresNow(x), Mindful(x);
    forall s, e | inv(s) && may(s, e) ensures inv(move(s, e)) <==> good(s, e) {
      if e.Commit? { SavedIgnored(s.row, s.handlers[e.h].read, s.handlers[e.h].step, x); }
    }
    AlwaysExactly(may, move, inv, good, s, events);
  }

  /** Two handlers begin on one row; the second saves first. */
  function Crossed(ch: Channel, first: Step, second: Step): (Channel, Channel) {
    var s2 := Next(Next(Sys(ch, map[]), Begin(1, first)), Begin(2, second));
    var s3 := Next(s2, Commit(2));
    (s3.row, Next(s3, Commit(1)).row)
  }

  lemma CrossedRows(ch: Channel, first: Step, second: Step)
    ensures Crossed(ch, first, second).0 == Saved(ch, ch, second)
    ensures Crossed(ch, first, second).1 == Saved(Saved(ch, ch, second), ch, first)
  {
  }

  lemma CheckForgets(row: Channel, ch: Channel, env: Env, upstream: seq<string>, x: string, at: int)
    requires x in Wanted(env, Models(ch), Names(upstream), Names(ch.ignored)) && !IsRule(x)
    ensures var after := Saved(row, ch, Check(env, upstream, false, at)); x !in IgnoredNames(after) && x in Names(after.detected)
  {
    assert Suppresses(env, x, x);
    CheckFacts(env, ch, upstream, false, at);
  }

  lemma SelectionIgnores(ch: Channel, x: string, at: int)
    requires x in Names(ch.detected) && !IsRule(x)
    ensures x in IgnoredNames(Saved(ch, ch, Select([], [x], [], at)))
  {
    NamesTrimmed(ch.detected);
    OneName(x);
    BlankNames();
    SavedIgnored(ch, ch, Select([], [x], [], at), x);
  }

  /** A check that read the row before a selection ignored `x`, and saves after it, brings `x`
      back: not ignored, and pending. */
  lemma SelectionForgotten(ch: Channel, env: Env, upstream: seq<string>, x: string, at: int)
    requires x in Names(ch.detected) && !IsRule(x)
    requires x in Wanted(env, Models(ch), Names(upstream), Names(ch.ignored))
    ensures var (selected, after) := Crossed(ch, Check(env, upstream, false, at), Select([], [x], [], at));
            x in IgnoredNames(selected) && x !in IgnoredNames(after) && x in Names(after.detected)
  {
    var check, select := Check(env, upstream, false, at), Select([], [x], [], at);
    CrossedRows(ch, check, select);
    SelectionIgnores(ch, x, at);
    CheckForgets(Saved(ch, ch, select), ch, env, upstream, x, at);
  }

  // ---------- handlers that begin later ----------

  /** Every handler that saves began in this run: those of the set, or a later one. */
  ghost predicate NoOldSaves(begun: set<nat>, events: seq<Event>)
    decreases |events|
  {
    events != [] ==>
      var e := events[0];
      && (e.Commit? ==> e.h in begun)
      && NoOldSaves(if e.Begin? then begun + {e.h} else begun - {e.h}, events[1..])
  }

  /** `x` is ignored, not pending and no model. */
  ghost predicate Out(ch: Channel, x: string) {
    x in IgnoredNames(ch) && Names(ch.detected) !! IgnoredNames(ch) && x !in Models(ch)
  }

  lemma StepKeepsOut(read: Channel, step: Step, x: string)
    requires Out(read, x) && x !in Splinters(read, step)
    ensures Out(UpstreamRuns.Do(read, step), x)
  {
    ModelsAfter(read, step);
    match step
    case Check(env, upstream, auto, at) =>
      CheckKeepsApart(env, read, upstream, auto, at);
      assert Suppresses(env, x, x);
    case CheckFailed(_) =>
    case Select(add, ignore, remove, at) =>
      ApplyIgnored(read, add, ignore, remove, at);
      ApplyPending(read, add, ignore, remove, at);
  }

  lemma SaveKeepsOut(row: Channel, read: Channel, step: Step, x: string)
    requires Out(row, x) && Out(read, x) && x !in Splinters(read, step)
    ensures Out(Saved(row, read, step), x)
  {
    StepKeepsOut(read, step, x);
  }

  ghost function StaysOut(x: string): Sys -> bool {
    (s: Sys) => Out(s.row, x)
  }

  ghost function NoSplinter(x: string): (Sys, Event) -> bool {
    (s: Sys, e: Event) => e.Commit? && e.h in s.handlers ==> x !in Splinters(s.handlers[e.h].read, s.handlers[e.h].step)
  }

  /** However handlers overlap, a name that is ignored, not pending and no model stays so
      throughout a run in which no handler saves that had read the row before, unless it is a
      piece of an added name. */
  lemma {:induction false} IgnoredForGoodOverlapping(s: Sys, begun: set<nat>, events: seq<Event>, x: string)
    requires Runs(May(), Move(), s, events) && NoOldSaves(begun, events) && EachStep(Move(), NoSplinter(x), s, events)
    requires Out(s.row, x) && forall h :: h in begun && h in s.handlers ==> Out(s.handlers[h].read, x)
    ensures Always(Move(), StaysOut(x), s, events)
    decreases |events|
  {
    if events != [] {
      var e := events[0];
      if e.Commit? { SaveKeepsOut(s.row, s.handlers[e.h].read, s.handlers[e.h].step, x); }
      var later := if e.Begin? then begun + {e.h} else begun - {e.h};
      IgnoredForGoodOverlapping(Next(s, e), later, events[1..], x);
    }
  }

  // ---------- pending lists ----------

  /** The additions and removals the handler leaves pending. */
  function LeftAdds(read: Channel, step: Step): set<string> {
    match step
    case Check(env, upstream, _, _) => Wanted(env, Models(read), Names(upstream), Names(read.ignored))
    case CheckFailed(_) => Names(read.detected)
    case Select(_, _, _, _) => Unselected(read, step)
  }

  function LeftRemovals(read: Channel, step: Step): set<string> {
    match step
    case Check(env, upstream, _, _) => Stale(env, Models(read), Names(upstream))
    case CheckFailed(_) => Names(read.removed)
    case Select(add, _, remove, _) => Names(read.removed) - Removing(read, add, remove)
  }

  lemma LeftPending(read: Channel, step: Step)
    requires !Changes(read, step)
    ensures var done := UpstreamRuns.Do(read, step);
            Names(done.detected) == LeftAdds(read, step) && Names(done.removed) == LeftRemovals(read, step)
  {
    match step
    case Check(env, upstream, auto, at) =>
      CheckFacts(env, read, upstream, auto, at);
      PendingFacts(env, Unpack(read.models, ','), upstream, read.ignored);
      LocalsFacts(read.models);
    case CheckFailed(_) =>
    case Select(add, ignore, remove, at) => ApplyPending(read, add, ignore, remove, at);
  }

  /** A save that clashes with nothing: one that writes models is harmless by itself, and one that
      does not leaves pending only what fits the models that are there by now. */
  ghost predicate Fits(row: Channel, read: Channel, step: Step) {
    if Changes(read, step) then Harmless(read, step)
    else LeftAdds(read, step) !! Models(row) && LeftRemovals(read, step) <= Models(row)
  }

  lemma SaveExactly(row: Channel, read: Channel, step: Step)
    requires PendingOk(read)
    ensures PendingOk(Saved(row, read, step)) <==> Fits(row, read, step)
  {
    StepKeepsPending(read, step);
    StepKeepsApart(read, step);
    if !Changes(read, step) { LeftPending(read, step); }
  }

  ghost function Consistent(): Sys -> bool {
    (s: Sys) => PendingOk(s.row) && forall h :: h in s.handlers ==> PendingOk(s.handlers[h].read)
  }

  ghost function Fitting(): (Sys, Event) -> bool {
    (s: Sys, e: Event) => e.Commit? && e.h in s.handlers ==> Fits(s.row, s.handlers[e.h].read, s.handlers[e.h].step)
  }

  lemma SavesExact()
    ensures Exact(May(), Move(), Consistent(), Fitting())
  {
    var may, move, inv, good := May(), Move(), Consistent(), Fitting();
    forall s, e | inv(s) && may(s, e) ensures inv(move(s, e)) <==> good(s, e) {
      if e.Commit? { SaveExactly(s.row, s.handlers[e.h].read, s.handlers[e.h].step); }
    }
  }

  /** However handlers overlap, the pending lists are consistent with the channel in every state of
      a run exactly when every save fits. */
  lemma PendingExactly(s: Sys, events: seq<Event>)
    requires Runs(May(), Move(), s, events) && Consistent()(s)
    ensures Always(Move(), Consistent(), s, events) <==> EachStep(Move(), Fitting(), s, events)
  {
    SavesExact();
    AlwaysExactly(May(), Move(), Consistent(), Fitting(), s, events);
  }
}
