/**
 Runs of checks and applies over one channel (controller/channel_upstream_update.go, lines
 179-251, 504-551, 949-997), and the row those handlers update in place.
 */
module UpstreamRuns {
  import opened Counting
  import opened Text
  import opened ModelNames
  import opened UpstreamUpdate
  import opened StoredNames

  datatype Step =
    | Check(env: Env, upstream: seq<string>, auto: bool, at: int)
    | CheckFailed(at: int)
    | Select(add: seq<string>, ignore: seq<string>, remove: seq<string>, at: int)

  function Do(ch: Channel, step: Step): Channel {
    match step
    case Check(env, upstream, auto, at) => Detect(env, ch, upstream, auto, at)
    case CheckFailed(at) => ch.(lastCheck := at)
    case Select(add, ignore, remove, at) => Apply(ch, add, ignore, remove, at)
  }

  function Run(ch: Channel, steps: seq<Step>): Channel {
    if steps == [] then ch else Do(Run(ch, steps[..|steps| - 1]), steps[|steps| - 1])
  }

  /** The names a step sets out to put into the models. */
  function Adds(ch: Channel, step: Step): set<string> {
    match step
    case Check(env, upstream, auto, _) =>
      if auto && ch.autoSync then Wanted(env, Models(ch), Names(upstream), Names(ch.ignored)) else {}
    case CheckFailed(_) => {}
    case Select(add, _, _, _) => Adding(ch, add)
  }

  /** The pieces of added names with a comma: models nobody asked for. */
  function Splinters(ch: Channel, step: Step): set<string> {
    Stored(WithComma(Adds(ch, step)))
  }

  /** The pending additions a selection neither adds nor ignores. */
  function Unselected(ch: Channel, step: Step): set<string> {
    if step.Select? then Names(ch.detected) - Adding(ch, step.add) - Adding(ch, step.ignore) else {}
  }

  /** No name left pending is a piece of an added one. */
  ghost predicate Harmless(ch: Channel, step: Step) {
    Unselected(ch, step) !! Splinters(ch, step)
  }

  /** Names ignored literally, as opposed to by a rule. */
  function IgnoredNames(ch: Channel): set<string> {
    set x | x in Names(ch.ignored) && !IsRule(x)
  }

  /** Pending additions are not ignored, and pending removals are models of the channel. */
  ghost predicate Apart(ch: Channel) {
    Names(ch.detected) !! IgnoredNames(ch) && Names(ch.removed) <= Models(ch)
  }

  /** And pending additions are new. */
  ghost predicate PendingOk(ch: Channel) {
    Apart(ch) && Names(ch.detected) !! Models(ch)
  }

  // ---------- one step ----------

  lemma {:induction false} WithoutNone(names: seq<string>, drop: set<string>)
    requires forall x :: x in names ==> x !in drop
    ensures Without(names, drop) == names
  {
    if names != [] {
      WithoutNone(names[..|names| - 1], drop);
      assert names == names[..|names| - 1] + [names[|names| - 1]];
    }
  }

  lemma AutoMerge(env: Env, models: string, upstream: seq<string>, ignored: seq<string>)
    ensures var local := Unpack(models, ',');
            var add := PendingAdd(env, local, upstream, ignored);
            Merge(Normalize(local), add) == Locals(models) + add
  {
    var local := Unpack(models, ',');
    var add := PendingAdd(env, local, upstream, ignored);
    PendingFacts(env, local, upstream, ignored);
    NormalizeAgain(local);
    NormalizeClean(add);
    assert forall x :: x in add ==> x in Elements(add);
    WithoutNone(add, Names(Normalize(local)));
  }

  /** A check sets the pending lists from scratch; automatic application stores the pending
      additions at once. */
  lemma CheckFacts(env: Env, ch: Channel, upstream: seq<string>, auto: bool, at: int)
    ensures var ch' := Detect(env, ch, upstream, auto, at);
            var wanted := Wanted(env, Models(ch), Names(upstream), Names(ch.ignored));
            var applied := auto && ch.autoSync && wanted != {};
            && Models(ch') == (if applied then Models(ch) + Stored(wanted) else Models(ch))
            && Names(ch'.detected) == (if applied then {} else wanted)
            && Names(ch'.removed) == Stale(env, Models(ch), Names(upstream))
            && ch'.ignored == ch.ignored
  {
    var local := Unpack(ch.models, ',');
    LocalsFacts(ch.models);
    PendingFacts(env, local, upstream, ch.ignored);
    var add := PendingAdd(env, local, upstream, ch.ignored);
    EmptyElements(add);
    AutoMerge(env, ch.models, upstream, ch.ignored);
    if auto && ch.autoSync && |add| > 0 {
      AutoStores(ch, add);
      BlankNames();
    }
  }

  lemma AutoStores(ch: Channel, add: seq<string>)
    ensures Elements(Locals(Join(Locals(ch.models) + add, ','))) == Models(ch) + Stored(Elements(add))
  {
    var all := Locals(ch.models) + add;
    assert Elements(all) == Models(ch) + Elements(add);
    StoredLocals(all);
    StoredUnion(Models(ch), Elements(add));
    LocalsFacts(ch.models);
    NamesTrimmed(Unpack(ch.models, ','));
    StoredSame(Models(ch));
  }

  lemma AddsTrimmed(ch: Channel, step: Step)
    ensures AllTrimmed(Adds(ch, step))
  {
    match step
    case Check(_, upstream, _, _) => NamesTrimmed(upstream);
    case CheckFailed(_) =>
    case Select(add, _, _, _) => NamesTrimmed(add);
  }

  /** The models after a step: the old ones without the removed, the comma-free names added, and
      the splinters. */
  lemma ModelsAfter(ch: Channel, step: Step)
    ensures var gone := if step.Select? then Removing(ch, step.add, step.remove) else {};
            Models(Do(ch, step)) ==
            Models(ch) - gone + (Adds(ch, step) - WithComma(Adds(ch, step))) + Splinters(ch, step)
  {
    AddsTrimmed(ch, step);
    StoredByComma(Adds(ch, step));
    match step
    case Check(env, upstream, auto, at) =>
      CheckFacts(env, ch, upstream, auto, at);
      assert Stored({}) == {};
    case CheckFailed(_) =>
    case Select(add, ignore, remove, at) => ApplyStores(ch, add, ignore, remove, at);
  }

  lemma CheckKeepsApart(env: Env, ch: Channel, upstream: seq<string>, auto: bool, at: int)
    ensures Apart(Detect(env, ch, upstream, auto, at))
  {
    CheckFacts(env, ch, upstream, auto, at);
    var wanted := Wanted(env, Models(ch), Names(upstream), Names(ch.ignored));
    forall x | x in wanted ensures x !in IgnoredNames(ch) {
      assert x in Names(ch.ignored) && !IsRule(x) ==> Suppresses(env, x, x);
    }
  }

  /** On any names at all, every step keeps pending additions apart from the ignored names and
      pending removals inside the models. */
  lemma StepKeepsApart(ch: Channel, step: Step)
    requires Apart(ch)
    ensures Apart(Do(ch, step))
  {
    match step
    case Check(env, upstream, auto, at) => CheckKeepsApart(env, ch, upstream, auto, at);
    case CheckFailed(_) =>
    case Select(add, ignore, remove, at) =>
      ApplyStores(ch, add, ignore, remove, at);
      ApplyIgnored(ch, add, ignore, remove, at);
      ApplyPending(ch, add, ignore, remove, at);
  }

  /** A step keeps pending additions out of the models exactly when it is harmless. */
  lemma StepKeepsPending(ch: Channel, step: Step)
    requires PendingOk(ch)
    ensures PendingOk(Do(ch, step)) <==> Harmless(ch, step)
  {
    StepKeepsApart(ch, step);
    ModelsAfter(ch, step);
    match step
    case Check(env, upstream, auto, at) => CheckFacts(env, ch, upstream, auto, at);
    case CheckFailed(_) =>
    case Select(add, ignore, remove, at) => ApplyPending(ch, add, ignore, remove, at);
  }

  /** A literally ignored name stays ignored, and enters the models exactly as a splinter. */
  lemma StepKeepsIgnored(ch: Channel, step: Step, x: string)
    requires Apart(ch) && x in IgnoredNames(ch)
    ensures x in IgnoredNames(Do(ch, step))
    ensures x !in Models(ch) ==> (x in Models(Do(ch, step)) <==> x in Splinters(ch, step))
  {
    ModelsAfter(ch, step);
    match step
    case Check(env, upstream, auto, at) => assert Suppresses(env, x, x);
    case CheckFailed(_) =>
    case Select(add, ignore, remove, at) => ApplyIgnored(ch, add, ignore, remove, at);
  }

  // ---------- every run ----------

  ghost predicate AllHarmless(ch: Channel, steps: seq<Step>) {
    steps == [] ||
    (AllHarmless(ch, steps[..|steps| - 1]) && Harmless(Run(ch, steps[..|steps| - 1]), steps[|steps| - 1]))
  }

  /** The pending lists are consistent with the channel now and after each step so far. */
  ghost predicate AlwaysPendingOk(ch: Channel, steps: seq<Step>) {
    PendingOk(Run(ch, steps)) && (steps == [] || AlwaysPendingOk(ch, steps[..|steps| - 1]))
  }

  /** Through a run of checks, failed checks, automatic applications and selections the pending
      lists stay consistent with the channel exactly when every step is harmless. */
  lemma {:induction false} PendingStaysConsistent(ch: Channel, steps: seq<Step>)
    requires PendingOk(ch)
    ensures AlwaysPendingOk(ch, steps) <==> AllHarmless(ch, steps)
  {
    if steps != [] {
      var front := steps[..|steps| - 1];
      PendingStaysConsistent(ch, front);
      if AllHarmless(ch, front) {
        assert PendingOk(Run(ch, front));
        StepKeepsPending(Run(ch, front), steps[|steps| - 1]);
      }
    }
  }

  lemma {:induction false} AlwaysApart(ch: Channel, steps: seq<Step>)
    requires Apart(ch)
    ensures Apart(Run(ch, steps))
  {
    if steps != [] {
      AlwaysApart(ch, steps[..|steps| - 1]);
      StepKeepsApart(Run(ch, steps[..|steps| - 1]), steps[|steps| - 1]);
    }
  }

  /** No step adds a name of which `x` is a piece. */
  ghost predicate NeverSplinter(ch: Channel, steps: seq<Step>, x: string) {
    steps == [] ||
    (NeverSplinter(ch, steps[..|steps| - 1], x) && x !in Splinters(Run(ch, steps[..|steps| - 1]), steps[|steps| - 1]))
  }

  /** Through every run a literally ignored name stays ignored and is never pending; it stays out
      of the models too, unless it is a piece of an added name. */
  lemma {:induction false} IgnoredStaysOut(ch: Channel, steps: seq<Step>, x: string)
    requires Apart(ch) && x in IgnoredNames(ch)
    ensures x in IgnoredNames(Run(ch, steps)) && x !in Names(Run(ch, steps).detected)
    ensures x !in Models(ch) && NeverSplinter(ch, steps, x) ==> x !in Models(Run(ch, steps))
  {
    AlwaysApart(ch, steps);
    if steps != [] {
      var front := steps[..|steps| - 1];
      IgnoredStaysOut(ch, front, x);
      AlwaysApart(ch, front);
      StepKeepsIgnored(Run(ch, front), steps[|steps| - 1], x);
    }
  }

  /** A pending name that a selection ignores and does not add is never added by any later
      check, automatic application or selection. */
  lemma IgnoredForGood(ch: Channel, add: seq<string>, ignore: seq<string>, remove: seq<string>, at: int,
                       steps: seq<Step>, x: string)
    requires PendingOk(ch) && !IsRule(x) && x in Adding(ch, ignore) && x !in Adding(ch, add)
    requires var first := Select(add, ignore, remove, at);
             x !in Splinters(ch, first) && NeverSplinter(Do(ch, first), steps, x)
    ensures x !in Models(Run(Apply(ch, add, ignore, remove, at), steps))
  {
    var first := Select(add, ignore, remove, at);
    ModelsAfter(ch, first);
    ApplyIgnored(ch, add, ignore, remove, at);
    StepKeepsApart(ch, first);
    IgnoredStaysOut(Do(ch, first), steps, x);
  }

  lemma NoSplinters(ch: Channel, step: Step)
    requires NoComma(Adds(ch, step))
    ensures Splinters(ch, step) == {}
  {
    assert WithComma(Adds(ch, step)) == {};
  }

  /** Upstream lists without commas are enough for every run: no step has splinters. */
  lemma {:induction false} CommaFreeRuns(ch: Channel, steps: seq<Step>, x: string)
    requires NoComma(Names(ch.detected))
    requires forall i :: 0 <= i < |steps| && steps[i].Check? ==> NoComma(Names(steps[i].upstream))
    ensures AllHarmless(ch, steps) && NeverSplinter(ch, steps, x) && NoComma(Names(Run(ch, steps).detected))
  {
    if steps != [] {
      var front, step := steps[..|steps| - 1], steps[|steps| - 1];
      CommaFreeRuns(ch, front, x);
      NoSplinters(Run(ch, front), step);
      if step.Check? {
        CheckFacts(step.env, Run(ch, front), step.upstream, step.auto, step.at);
      } else if step.Select? {
        ApplyPending(Run(ch, front), step.add, step.ignore, step.remove, step.at);
      }
    }
  }

  /** With a comma the lists can part: selecting the pending name "x,y" makes x a model, and if x
      is pending and not selected it stays so. */
  lemma CommaBreaksPending(ch: Channel, x: string, y: string, at: int)
    requires PendingOk(ch) && x != [] && TrimSpace(x) == x && ',' !in x
    requires x in Names(ch.detected) && x + [','] + y in Names(ch.detected)
    ensures !PendingOk(Do(ch, Select([x + [','] + y], [], [], at)))
  {
    var z := x + [','] + y;
    var step := Select([z], [], [], at);
    NamesTrimmed(ch.detected);
    OneName(z);
    BlankNames();
    assert Adds(ch, step) == {z};
    SplitAtFirst(x, y, ',');
    NamesConcat([x], Split(y, ','));
    OneName(x);
    assert x in Names(Split(z, ','));
    assert ',' in z && z in WithComma(Adds(ch, step));
    StepKeepsPending(ch, step);
    assert x in Unselected(ch, step) && x in Splinters(ch, step);
  }

  // ---------- redirects ----------

  /** The check, if it is one, has `x` as a redirect source or finds it upstream. */
  predicate Backs(step: Step, x: string) {
    step.Check? ==> x in step.env.mapping || x in Names(step.upstream)
  }

  /** Through every run of checks and selections, a model that every check finds upstream or as
      the source of a redirect is never pending for removal and never removed. */
  lemma {:induction false} BackedModelsStay(ch: Channel, steps: seq<Step>, x: string)
    requires x in Models(ch) && x !in Names(ch.removed)
    requires forall i :: 0 <= i < |steps| ==> Backs(steps[i], x)
    ensures x in Models(Run(ch, steps)) && x !in Names(Run(ch, steps).removed)
  {
    if steps != [] {
      var front, step := steps[..|steps| - 1], steps[|steps| - 1];
      BackedModelsStay(ch, front, x);
      var c := Run(ch, front);
      ModelsAfter(c, step);
      match step
      case Check(env, upstream, auto, at) =>
        assert Backs(step, x);
        RemovedExactly(env, c, upstream, auto, at, x);
      case CheckFailed(_) =>
      case Select(add, ignore, remove, at) => ApplyPending(c, add, ignore, remove, at);
    }
  }

  /** The check, if it is one, has `x` as a redirect target or does not find it upstream. */
  predicate Bars(step: Step, x: string) {
    step.Check? ==> (exists k | k in step.env.mapping :: step.env.mapping[k] == x) || x !in Names(step.upstream)
  }

  /** Through every run, a name that every check has as the target of a redirect or misses
      upstream is never pending and never becomes a model, save as a piece of another. */
  lemma {:induction false} BarredNamesStayOut(ch: Channel, steps: seq<Step>, x: string)
    requires x !in Models(ch) && x !in Names(ch.detected) && NeverSplinter(ch, steps, x)
    requires forall i :: 0 <= i < |steps| ==> Bars(steps[i], x)
    ensures x !in Models(Run(ch, steps)) && x !in Names(Run(ch, steps).detected)
  {
    if steps != [] {
      var front, step := steps[..|steps| - 1], steps[|steps| - 1];
      BarredNamesStayOut(ch, front, x);
      var c := Run(ch, front);
      ModelsAfter(c, step);
      match step
      case Check(env, upstream, auto, at) =>
        assert Bars(step, x);
        CheckFacts(env, c, upstream, auto, at);
      case CheckFailed(_) =>
      case Select(add, ignore, remove, at) => ApplyPending(c, add, ignore, remove, at);
    }
  }

  // ---------- the interval ----------

  /** An unforced check at `now` comes too early (lines 506-511). */
  predicate TooEarly(ch: Channel, minInterval: int, now: int) {
    0 < ch.lastCheck && now - ch.lastCheck < minInterval
  }

  /** After every run an unforced check is too early exactly within the interval after the last
      step, a failed check or a selection as much as a check; no step switches the automatic
      application on or off. */
  lemma {:induction false} RunsWait(ch: Channel, steps: seq<Step>, minInterval: int, now: int)
    ensures Run(ch, steps).autoSync == ch.autoSync
    ensures steps != [] && steps[|steps| - 1].at > 0 ==>
              (TooEarly(Run(ch, steps), minInterval, now) <==> now < steps[|steps| - 1].at + minInterval)
  {
    if steps != [] { RunsWait(ch, steps[..|steps| - 1], minInterval, now); }
  }

  // ---------- the collector and the row ----------

  lemma PrefixNames(names: seq<string>, n: nat)
    requires n < |names|
    ensures Elements(names[..n + 1]) == Elements(names[..n]) + {names[n]}
    ensures names[..n + 1][..n] == names[..n]
  {
    assert names[..n + 1] == names[..n] + [names[n]];
  }

  method SetOf(names: seq<string>) returns (s: set<string>)
    ensures s == Elements(names)
  {
    s := {};
    for n := 0 to |names|
      invariant s == Elements(names[..n])
    {
      PrefixNames(names, n);
      s := s + {names[n]};
    }
    assert names[..|names|] == names;
  }

  /** Lines 213-227: the upstream names to add. */
  method CollectAdds(env: Env, upstreamN: seq<string>, covered: set<string>, entries: seq<string>)
    returns (add: seq<string>)
    ensures add == Within(upstreamN, set u | u in upstreamN && u !in covered && !Suppressed(env, Elements(entries), u))
  {
    ghost var keep := set u | u in upstreamN && u !in covered && !Suppressed(env, Elements(entries), u);
    add := [];
    for n := 0 to |upstreamN|
      invariant add == Within(upstreamN[..n], keep)
    {
      PrefixNames(upstreamN, n);
      var hit := IgnoreHit(env, entries, upstreamN[n]);
      if upstreamN[n] !in covered && !hit { add := add + [upstreamN[n]]; }
    }
    assert upstreamN[..|upstreamN|] == upstreamN;
  }

  /** Lines 228-236: the local names to remove. */
  method CollectRemoves(localN: seq<string>, sources: set<string>, upstreamSet: set<string>)
    returns (remove: seq<string>)
    ensures remove == Within(localN, set x | x in localN && x !in sources && x !in upstreamSet)
  {
    ghost var keep := set x | x in localN && x !in sources && x !in upstreamSet;
    remove := [];
    for n := 0 to |localN|
      invariant remove == Within(localN[..n], keep)
    {
      PrefixNames(localN, n);
      if localN[n] !in sources && localN[n] !in upstreamSet { remove := remove + [localN[n]]; }
    }
    assert localN[..|localN|] == localN;
  }

  /** Lines 179-238. */
  method CollectPending(env: Env, local: seq<string>, upstream: seq<string>, ignored: seq<string>)
    returns (add: seq<string>, remove: seq<string>)
    ensures add == PendingAdd(env, local, upstream, ignored)
    ensures remove == PendingRemove(env, local, upstream)
  {
    var localN := NormalizeNames(local);
    var upstreamN := NormalizeNames(upstream);
    var entries := NormalizeNames(ignored);
    var localSet := SetOf(localN);
    var upstreamSet := SetOf(upstreamN);
    add := CollectAdds(env, upstreamN, localSet + env.mapping.Values, entries);
    remove := CollectRemoves(localN, env.mapping.Keys, upstreamSet);
    assert Wanted(env, Names(local), Names(upstream), Names(ignored)) ==
           set u | u in upstreamN && u !in localSet + env.mapping.Values && !Suppressed(env, Elements(entries), u);
    assert Stale(env, Names(local), Names(upstream)) ==
           set x | x in localN && x !in env.mapping.Keys && x !in upstreamSet;
  }

  method IgnoreHit(env: Env, entries: seq<string>, name: string) returns (hit: bool)
    ensures hit <==> Suppressed(env, Elements(entries), name)
  {
    for n := 0 to |entries|
      invariant !Suppressed(env, Elements(entries[..n]), name)
    {
      PrefixNames(entries, n);
      if Suppresses(env, entries[n], name) {
        assert entries[n] in Elements(entries);
        return true;
      }
    }
    assert entries[..|entries|] == entries;
    return false;
  }

  /** Lines 519-540: what a successful check writes, and how many models it adds by itself. */
  method PlanCheck(env: Env, ch: Channel, upstream: seq<string>, allowAuto: bool, now: int)
    returns (ch': Channel, changed: bool, autoAdded: nat)
    ensures ch' == Detect(env, ch, upstream, allowAuto, now)
    ensures autoAdded == if changed then |PendingAdd(env, Unpack(ch.models, ','), upstream, ch.ignored)| else 0
    ensures changed <==> allowAuto && ch.autoSync && PendingAdd(env, Unpack(ch.models, ','), upstream, ch.ignored) != []
    ensures !changed ==> ch'.models == ch.models
  {
    var local := Unpack(ch.models, ',');
    var add, remove := CollectPending(env, local, upstream, ch.ignored);
    changed, autoAdded := false, 0;
    ch' := ch.(lastCheck := now, removed := remove);
    if allowAuto && ch.autoSync && |add| > 0 {
      var origin := NormalizeNames(local);
      var merged := MergeNames(origin, add);
      AutoMerge(env, ch.models, upstream, ch.ignored);
      if |merged| > |origin| {
        ch' := ch'.(models := Join(merged, ','));
        autoAdded := |merged| - |origin|;
        changed := true;
      }
      ch' := ch'.(detected := []);
    } else {
      ch' := ch'.(detected := add);
    }
  }

  /** Lines 962-985: what applying a selection writes, and the names it adds and removes. */
  method PlanApply(ch: Channel, addIn: seq<string>, ignoreIn: seq<string>, removeIn: seq<string>, now: int)
    returns (ch': Channel, added: seq<string>, dropped: seq<string>, changed: bool)
    ensures ch' == Apply(ch, addIn, ignoreIn, removeIn, now)
    ensures Elements(added) == Adding(ch, addIn) && Elements(dropped) == Removing(ch, addIn, removeIn)
    ensures !changed ==> ch'.models == ch.models
  {
    var pendingAdd := NormalizeNames(ch.detected);
    var pendingRemove := NormalizeNames(ch.removed);
    added := Intersect(addIn, pendingAdd);
    var ignore := Intersect(ignoreIn, pendingAdd);
    dropped := Subtract(Intersect(removeIn, pendingRemove), added);
    Selections(ch, addIn, removeIn);
    SubtractFacts(Intersect(removeIn, pendingRemove), added);
    var origin := NormalizeNames(Unpack(ch.models, ','));
    var next := ApplySelected(origin, added, dropped);
    changed := origin != next;
    var entries := MergeNames(ch.ignored, ignore);
    if |added| > 0 { entries := Subtract(entries, added); }
    ch' := Channel(if changed then Join(next, ',') else ch.models, entries,
                   Subtract(pendingAdd, added + ignore), Subtract(pendingRemove, dropped), now, ch.autoSync);
  }

  datatype Checked = TooSoon | NotSaved | FetchFailed | Done(modelsChanged: bool, autoAdded: nat)

  datatype Fetched = Unreachable | Listed(models: seq<string>)

  /** A channel row. `saved` says whether the database accepts the write. */
  class ChannelRow {
    var models: string
    var ignored: seq<string>
    var detected: seq<string>
    var removed: seq<string>
    var lastCheck: int
    var autoSync: bool

    function Value(): Channel
      reads this
    {
      Channel(models, ignored, detected, removed, lastCheck, autoSync)
    }

    method Store(ch: Channel)
      modifies this
      ensures Value() == ch
    {
      models, ignored, detected, removed := ch.models, ch.ignored, ch.detected, ch.removed;
      lastCheck, autoSync := ch.lastCheck, ch.autoSync;
    }

    /** Lines 504-551. */
    method CheckAndPersist(env: Env, fetched: Fetched, force: bool, minInterval: int, allowAuto: bool,
                           now: int, saved: bool) returns (r: Checked)
      modifies this
      ensures r.TooSoon? <==> !force && TooEarly(old(Value()), minInterval, now)
      ensures !r.TooSoon? ==> (r.NotSaved? <==> !saved) && (saved ==> (r.FetchFailed? <==> fetched.Unreachable?))
      ensures r.TooSoon? || r.NotSaved? ==> Value() == old(Value())
      ensures r.FetchFailed? ==> fetched.Unreachable? && Value() == Do(old(Value()), CheckFailed(now))
      ensures r.Done? ==> fetched.Listed? && Value() == Do(old(Value()), Check(env, fetched.models, allowAuto, now))
      ensures r.Done? ==> (r.modelsChanged <==> r.autoAdded > 0)
      ensures !r.Done? || !r.modelsChanged ==> models == old(models)
    {
      if !force && lastCheck > 0 && now - lastCheck < minInterval {
        return TooSoon;
      }
      if !saved { return NotSaved; }
      if fetched.Unreachable? {
        lastCheck := now;
        return FetchFailed;
      }
      var ch, changed, autoAdded := PlanCheck(env, Value(), fetched.models, allowAuto, now);
      Store(ch);
      return Done(changed, autoAdded);
    }

    /** Lines 949-997. The result is the names added and removed. */
    method ApplyUpdates(addIn: seq<string>, ignoreIn: seq<string>, removeIn: seq<string>, now: int, saved: bool)
      returns (ok: bool, added: seq<string>, dropped: seq<string>)
      modifies this
      ensures ok == saved && (!ok ==> Value() == old(Value()))
      ensures ok ==> Value() == Do(old(Value()), Select(addIn, ignoreIn, removeIn, now))
      ensures ok ==> Elements(added) == Adding(old(Value()), addIn)
      ensures ok ==> Elements(dropped) == Removing(old(Value()), addIn, removeIn)
    {
      if !saved { return false, [], []; }
      var ch, add, remove, changed := PlanApply(Value(), addIn, ignoreIn, removeIn, now);
      Store(ch);
      return true, add, remove;
    }
  }
}
