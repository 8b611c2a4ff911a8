/**
 Detecting and applying upstream model changes of one channel
 (controller/channel_upstream_update.go). The channel's models are one comma-joined text,
 as the database column holds them. Regular-expression matching is a parameter.
 */
module UpstreamUpdate {
  import opened Counting
  import opened Text
  import opened ModelNames

  /** The redirect mapping of a channel and the regular-expression matcher. */
  datatype Env = Env(mapping: map<string, string>, regex: (string, string) -> bool)

  datatype Channel = Channel(
    models: string, ignored: seq<string>, detected: seq<string>, removed: seq<string>,
    lastCheck: int, autoSync: bool)

  function Locals(models: string): seq<string> {
    Normalize(Unpack(models, ','))
  }

  predicate IsRule(entry: string) {
    "regex:" <= entry
  }

  /** One ignore entry against one model name (lines 217-223). */
  predicate Suppresses(env: Env, entry: string, name: string) {
    if IsRule(entry) then env.regex(TrimSpace(entry[6..]), name) else entry == name
  }

  predicate Suppressed(env: Env, ignored: set<string>, name: string) {
    exists entry | entry in ignored :: Suppresses(env, entry, name)
  }

  // ---------- detection ----------

  /** Upstream names that are neither local, nor a redirect target, nor ignored. */
  function Wanted(env: Env, local: set<string>, upstream: set<string>, ignored: set<string>): set<string> {
    set u | u in upstream && u !in local && u !in env.mapping.Values && !Suppressed(env, ignored, u)
  }

  /** Local names that are neither a redirect source nor upstream. */
  function Stale(env: Env, local: set<string>, upstream: set<string>): set<string> {
    set x | x in local && x !in env.mapping.Keys && x !in upstream
  }

  function PendingAdd(env: Env, local: seq<string>, upstream: seq<string>, ignored: seq<string>): seq<string> {
    Within(Normalize(upstream), Wanted(env, Names(local), Names(upstream), Names(ignored)))
  }

  function PendingRemove(env: Env, local: seq<string>, upstream: seq<string>): seq<string> {
    Within(Normalize(local), Stale(env, Names(local), Names(upstream)))
  }

  lemma PendingFacts(env: Env, local: seq<string>, upstream: seq<string>, ignored: seq<string>)
    ensures var add := PendingAdd(env, local, upstream, ignored);
            Clean(add) && Elements(add) == Names(add) == Wanted(env, Names(local), Names(upstream), Names(ignored))
    ensures var remove := PendingRemove(env, local, upstream);
            Clean(remove) && Elements(remove) == Names(remove) == Stale(env, Names(local), Names(upstream))
  {
    NormalizeFacts(upstream);
    NormalizeFacts(local);
    var w, s := Wanted(env, Names(local), Names(upstream), Names(ignored)), Stale(env, Names(local), Names(upstream));
    WithinFacts(Normalize(upstream), w);
    WithinFacts(Normalize(local), s);
    NormalizeClean(PendingAdd(env, local, upstream, ignored));
    NormalizeClean(PendingRemove(env, local, upstream));
  }

  /** A successful check (lines 519-551); `auto` when automatic application is allowed. */
  function Detect(env: Env, ch: Channel, upstream: seq<string>, auto: bool, now: int): Channel {
    var local := Unpack(ch.models, ',');
    var add := PendingAdd(env, local, upstream, ch.ignored);
    var remove := PendingRemove(env, local, upstream);
    var checked := ch.(lastCheck := now, removed := remove);
    if auto && ch.autoSync && |add| > 0 then
      var merged := Merge(Normalize(local), add);
      checked.(models := if |merged| > |Normalize(local)| then Join(merged, ',') else ch.models, detected := [])
    else checked.(detected := add)
  }

  /** Applying a user's selection from the pending lists (lines 962-985). */
  function Apply(ch: Channel, addIn: seq<string>, ignoreIn: seq<string>, removeIn: seq<string>, now: int): Channel {
    var pendingAdd, pendingRemove := Normalize(ch.detected), Normalize(ch.removed);
    var add := Intersect(addIn, pendingAdd);
    var ignore := Intersect(ignoreIn, pendingAdd);
    var remove := Subtract(Intersect(removeIn, pendingRemove), add);
    var origin := Locals(ch.models);
    var next := ApplySelected(origin, add, remove);
    var ignored := Merge(ch.ignored, ignore);
    Channel(
      if origin != next then Join(next, ',') else ch.models,
      if |add| > 0 then Subtract(ignored, add) else ignored,
      Subtract(pendingAdd, add + ignore),
      Subtract(pendingRemove, remove),
      now, ch.autoSync)
  }

  // ---------- what a stored list means ----------

  ghost predicate NoComma(names: set<string>) {
    forall x :: x in names ==> ',' !in x
  }

  function Models(ch: Channel): set<string> {
    Elements(Locals(ch.models))
  }

  /** Stored names never contain a comma, and reading them again changes nothing. */
  lemma LocalsFacts(models: string)
    ensures Clean(Locals(models)) && NoComma(Elements(Locals(models)))
    ensures Names(Unpack(models, ',')) == Elements(Locals(models)) == Names(Locals(models))
  {
    var parts := Unpack(models, ',');
    NormalizeFacts(parts);
    NormalizeClean(Locals(models));
    SplitFree(Trim(models, c => c == ','), ',');
    forall x | x in Locals(models) ensures ',' !in x {
      var i :| 0 <= i < |parts| && TrimSpace(parts[i]) == x;
      TrimFacts(parts[i], IsSpace);
    }
  }

  /** A clean comma-free list is stored faithfully. */
  lemma StoreLocals(names: seq<string>)
    requires Clean(names) && NoComma(Elements(names))
    ensures Locals(Join(names, ',')) == names
  {
    assert forall i :: 0 <= i < |names| ==> names[i] in Elements(names);
    UnpackJoin(names, ',');
    NormalizeClean(names);
  }

  /** The selections an apply acts on: only pending names count, and adding wins. */
  function Adding(ch: Channel, addIn: seq<string>): set<string> {
    Names(addIn) * Names(ch.detected)
  }

  function Removing(ch: Channel, addIn: seq<string>, removeIn: seq<string>): set<string> {
    Names(removeIn) * Names(ch.removed) - Adding(ch, addIn)
  }

  lemma Selections(ch: Channel, addIn: seq<string>, removeIn: seq<string>)
    ensures var add := Intersect(addIn, Normalize(ch.detected));
            Clean(add) && Names(add) == Elements(add) == Adding(ch, addIn)
    ensures var add := Intersect(addIn, Normalize(ch.detected));
            var remove := Subtract(Intersect(removeIn, Normalize(ch.removed)), add);
            Clean(remove) && Names(remove) == Removing(ch, addIn, removeIn)
  {
    NormalizeAgain(ch.detected);
    NormalizeAgain(ch.removed);
    IntersectFacts(addIn, Normalize(ch.detected));
    IntersectFacts(removeIn, Normalize(ch.removed));
    SubtractFacts(Intersect(removeIn, Normalize(ch.removed)), Intersect(addIn, Normalize(ch.detected)));
  }

  lemma ApplyIgnored(ch: Channel, addIn: seq<string>, ignoreIn: seq<string>, removeIn: seq<string>, now: int)
    ensures Names(Apply(ch, addIn, ignoreIn, removeIn, now).ignored) ==
            Names(ch.ignored) + Adding(ch, ignoreIn) - Adding(ch, addIn)
  {
    Selections(ch, addIn, []);
    Selections(ch, ignoreIn, []);
    var add, ignore := Intersect(addIn, Normalize(ch.detected)), Intersect(ignoreIn, Normalize(ch.detected));
    MergeFacts(ch.ignored, ignore);
    SubtractFacts(Merge(ch.ignored, ignore), add);
    EmptyElements(add);
  }

  lemma ApplyPending(ch: Channel, addIn: seq<string>, ignoreIn: seq<string>, removeIn: seq<string>, now: int)
    ensures var ch' := Apply(ch, addIn, ignoreIn, removeIn, now);
            && Names(ch'.detected) == Elements(ch'.detected) == Names(ch.detected) - Adding(ch, addIn) - Adding(ch, ignoreIn)
            && Names(ch'.removed) == Elements(ch'.removed) == Names(ch.removed) - Removing(ch, addIn, removeIn)
  {
    Selections(ch, addIn, removeIn);
    Selections(ch, ignoreIn, []);
    NormalizeAgain(ch.detected);
    NormalizeAgain(ch.removed);
    var add, ignore := Intersect(addIn, Normalize(ch.detected)), Intersect(ignoreIn, Normalize(ch.detected));
    NamesConcat(add, ignore);
    SubtractFacts(Normalize(ch.detected), add + ignore);
    SubtractFacts(Normalize(ch.removed), Subtract(Intersect(removeIn, Normalize(ch.removed)), add));
  }

  /** What an apply does, as sets, when the names it adds have no comma. */
  lemma ApplyModels(ch: Channel, addIn: seq<string>, ignoreIn: seq<string>, removeIn: seq<string>, now: int)
    ensures NoComma(Adding(ch, addIn)) ==>
              Models(Apply(ch, addIn, ignoreIn, removeIn, now)) ==
              Models(ch) + Adding(ch, addIn) - Removing(ch, addIn, removeIn)
  {
    Selections(ch, addIn, removeIn);
    var add := Intersect(addIn, Normalize(ch.detected));
    var remove := Subtract(Intersect(removeIn, Normalize(ch.removed)), add);
    LocalsFacts(ch.models);
    ApplySelectedFacts(Locals(ch.models), add, remove);
    if NoComma(Names(add)) { StoreLocals(ApplySelected(Locals(ch.models), add, remove)); }
  }

  lemma NormalizeAgain(names: seq<string>)
    ensures Normalize(Normalize(names)) == Normalize(names)
  {
    NormalizeFacts(names);
    NormalizeClean(Normalize(names));
  }

  lemma NamesConcat(a: seq<string>, b: seq<string>)
    ensures Names(a + b) == Names(a) + Names(b)
  {
    NormalizeFacts(a);
    NormalizeFacts(b);
    NormalizeFacts(a + b);
    forall x ensures TrimsTo(a + b, x) <==> TrimsTo(a, x) || TrimsTo(b, x) {
      if TrimsTo(a, x) {
        var i :| 0 <= i < |a| && TrimSpace(a[i]) == x;
        assert TrimSpace((a + b)[i]) == x;
      }
      if TrimsTo(b, x) {
        var i :| 0 <= i < |b| && TrimSpace(b[i]) == x;
        assert TrimSpace((a + b)[|a| + i]) == x;
      }
      if TrimsTo(a + b, x) {
        var i :| 0 <= i < |a + b| && TrimSpace((a + b)[i]) == x;
        if i < |a| { assert TrimSpace(a[i]) == x; } else { assert TrimSpace(b[i - |a|]) == x; }
      }
    }
  }

  // ---------- convergence ----------

  /** Some entry that is not itself a pending name suppresses every suppressed, uncovered
      upstream name: no ignore rule is lost when the pending names are added. */
  ghost predicate RulesSurvive(env: Env, local: set<string>, upstream: set<string>, ignored: set<string>) {
    forall u :: u in upstream && u !in local && u !in env.mapping.Values && Suppressed(env, ignored, u) ==>
                Suppressed(env, ignored - Wanted(env, local, upstream, ignored), u)
  }

  /** What a check that only stages changes leaves pending. */
  lemma DetectFacts(env: Env, ch: Channel, upstream: seq<string>, now: int)
    ensures var c := Detect(env, ch, upstream, false, now);
            && Names(c.detected) == Elements(c.detected) == Wanted(env, Models(ch), Names(upstream), Names(ch.ignored))
            && Names(c.removed) == Elements(c.removed) == Stale(env, Models(ch), Names(upstream))
  {
    LocalsFacts(ch.models);
    PendingFacts(env, Unpack(ch.models, ','), upstream, ch.ignored);
  }

  /** After any check, which models are to be removed: those that are neither the source of a
      redirect nor offered upstream. */
  lemma RemovedExactly(env: Env, ch: Channel, upstream: seq<string>, auto: bool, now: int, x: string)
    ensures x in Names(Detect(env, ch, upstream, auto, now).removed) <==>
            x in Models(ch) && x !in env.mapping && x !in Names(upstream)
  {
    DetectFacts(env, ch, upstream, now);
  }

  /** After a check that only stages, which names are to be added: those offered upstream that are
      neither models, nor the target of a redirect, nor the text of an ignore entry, nor matched
      by the expression behind the `regex:` of one. */
  lemma DetectedExactly(env: Env, ch: Channel, upstream: seq<string>, auto: bool, now: int, x: string)
    ensures var c := Detect(env, ch, upstream, auto, now);
            && (auto && ch.autoSync ==> c.detected == [])
            && (!(auto && ch.autoSync) ==>
                  (x in Names(c.detected) <==>
                   && x in Names(upstream) && x !in Models(ch)
                   && (forall k :: k in env.mapping ==> env.mapping[k] != x)
                   && (forall entry :: entry in Names(ch.ignored) && !("regex:" <= entry) ==> entry != x)
                   && (forall rest :: "regex:" + rest in Names(ch.ignored) ==> !env.regex(TrimSpace(rest), x))))
  {
    DetectFacts(env, ch, upstream, now);
    SuppressedExactly(env, Names(ch.ignored), x);
    assert x in env.mapping.Values <==> exists k :: k in env.mapping && env.mapping[k] == x;
  }

  lemma SuppressedExactly(env: Env, ignored: set<string>, x: string)
    ensures !Suppressed(env, ignored, x) <==>
            && (forall entry :: entry in ignored && !("regex:" <= entry) ==> entry != x)
            && (forall rest :: "regex:" + rest in ignored ==> !env.regex(TrimSpace(rest), x))
  {
    if Suppressed(env, ignored, x) {
      var entry :| entry in ignored && Suppresses(env, entry, x);
      if IsRule(entry) { assert entry == "regex:" + entry[6..]; }
    } else {
      forall rest | "regex:" + rest in ignored ensures !env.regex(TrimSpace(rest), x) {
        var entry := "regex:" + rest;
        assert entry[6..] == rest && IsRule(entry);
        assert !Suppresses(env, entry, x);
      }
      forall entry | entry in ignored && !("regex:" <= entry) ensures entry != x {
        assert !Suppresses(env, entry, x);
      }
    }
  }

  lemma ApplyEverything(env: Env, ch: Channel, upstream: seq<string>, t1: int, t2: int)
    ensures var l, u, g := Models(ch), Names(upstream), Names(ch.ignored);
            var c1 := Detect(env, ch, upstream, false, t1);
            var c2 := Apply(c1, c1.detected, [], c1.removed, t2);
            var a := Wanted(env, l, u, g);
            && Names(c2.ignored) == g - a && NoComma(Models(c2))
            && (NoComma(a) ==> Models(c2) == l + a - Stale(env, l, u))
  {
    DetectFacts(env, ch, upstream, t1);
    var c1 := Detect(env, ch, upstream, false, t1);
    assert Names([]) == {};
    ApplyIgnored(c1, c1.detected, [], c1.removed, t2);
    ApplyModels(c1, c1.detected, [], c1.removed, t2);
    LocalsFacts(Apply(c1, c1.detected, [], c1.removed, t2).models);
    assert Adding(c1, c1.detected) == Names(c1.detected);
  }

  /** Detect, apply everything pending, detect again against the same list: the second
      detection is empty exactly when no pending name contains a comma and no needed rule is
      spelled like a pending name. For any channel, upstream list, rules and mapping. */
  lemma Convergence(env: Env, ch: Channel, upstream: seq<string>, t1: int, t2: int, t3: int)
    ensures var c1 := Detect(env, ch, upstream, false, t1);
            var c2 := Apply(c1, c1.detected, [], c1.removed, t2);
            var c3 := Detect(env, c2, upstream, false, t3);
            (c3.detected == [] && c3.removed == []) <==>
              && NoComma(Names(c1.detected))
              && RulesSurvive(env, Models(ch), Names(upstream), Names(ch.ignored))
  {
    var c1 := Detect(env, ch, upstream, false, t1);
    var c2 := Apply(c1, c1.detected, [], c1.removed, t2);
    var c3 := Detect(env, c2, upstream, false, t3);
    ApplyEverything(env, ch, upstream, t1, t2);
    DetectFacts(env, ch, upstream, t1);
    DetectFacts(env, c2, upstream, t3);
    EmptyElements(c3.detected);
    EmptyElements(c3.removed);
    var l, u, g := Models(ch), Names(upstream), Names(ch.ignored);
    if NoComma(Wanted(env, l, u, g)) {
      SecondDetection(env, l, u, g);
    } else {
      CommaReturns(env, l, u, g, Models(c2));
    }
  }

  lemma EmptyElements(names: seq<string>)
    ensures names == [] <==> Elements(names) == {}
  {
    if names != [] { assert names[0] in Elements(names); }
  }

  /** The second detection over sets: nothing is stale, and the names wanted are those whose
      only suppressing rules were dropped. */
  lemma SecondDetection(env: Env, l: set<string>, u: set<string>, g: set<string>)
    ensures var a, r := Wanted(env, l, u, g), Stale(env, l, u);
            && Stale(env, l + a - r, u) == {}
            && (Wanted(env, l + a - r, u, g - a) == {} <==> RulesSurvive(env, l, u, g))
  {
    var a, r := Wanted(env, l, u, g), Stale(env, l, u);
    var w := Wanted(env, l + a - r, u, g - a);
    forall x ensures x in w <==> x in u && x !in l && x !in env.mapping.Values
                                 && Suppressed(env, g, x) && !Suppressed(env, g - a, x) {
      if x in a { assert !Suppressed(env, g, x); }
    }
    if RulesSurvive(env, l, u, g) {
      assert w == {};
    } else {
      var x :| x in u && x !in l && x !in env.mapping.Values && Suppressed(env, g, x) && !Suppressed(env, g - a, x);
      assert x in w;
    }
  }

  /** A pending name with a comma can never be stored, so it stays wanted. */
  lemma CommaReturns(env: Env, l: set<string>, u: set<string>, g: set<string>, l2: set<string>)
    requires !NoComma(Wanted(env, l, u, g)) && NoComma(l2)
    ensures Wanted(env, l2, u, g - Wanted(env, l, u, g)) != {}
  {
    var a := Wanted(env, l, u, g);
    var x :| x in a && ',' in x;
    assert !Suppressed(env, g - a, x);
    assert x in Wanted(env, l2, u, g - a);
  }

  /** Only a rule can be lost, and only to a name that looks like one. */
  lemma NoRuleLost(env: Env, l: set<string>, u: set<string>, g: set<string>)
    requires forall x :: x in u ==> !IsRule(x)
    ensures RulesSurvive(env, l, u, g)
  {
    var a := Wanted(env, l, u, g);
    forall x | x in u && x !in l && x !in env.mapping.Values && Suppressed(env, g, x)
      ensures Suppressed(env, g - a, x)
    {
      var entry :| entry in g && Suppresses(env, entry, x);
      assert entry in a ==> Suppresses(env, entry, entry) && !Suppressed(env, g, entry);
      assert entry in g - a;
    }
  }

  /** An upstream list without commas, and without names that look like rules, always converges,
      for any channel, rules and mapping. */
  lemma ConvergesWithoutOddNames(env: Env, ch: Channel, upstream: seq<string>, t1: int, t2: int, t3: int)
    requires NoComma(Names(upstream)) && forall x :: x in Names(upstream) ==> !IsRule(x)
    ensures var c1 := Detect(env, ch, upstream, false, t1);
            var c2 := Apply(c1, c1.detected, [], c1.removed, t2);
            var c3 := Detect(env, c2, upstream, false, t3);
            c3.detected == [] && c3.removed == []
  {
    NoRuleLost(env, Models(ch), Names(upstream), Names(ch.ignored));
    DetectFacts(env, ch, upstream, t1);
    Convergence(env, ch, upstream, t1, t2, t3);
  }

  lemma PairNames(x: string, y: string)
    requires x != [] && TrimSpace(x) == x && y != [] && TrimSpace(y) == y && x != y
    ensures Names([x, y]) == {x, y} && Names([x]) == {x}
  {
    NormalizeClean([x]);
    NormalizeClean([x, y]);
  }

  /** A channel without models that ignores by one rule, and an upstream list of the only name
      the rule matches and a name spelled like the rule, which it does not match: adding the
      latter deletes the rule, so that after detecting and applying all the next detection is not
      empty. */
  lemma LostRule(env: Env, ch: Channel, pattern: string, name: string, t1: int, t2: int, t3: int)
    requires env.mapping == map[] && name != [] && TrimSpace(name) == name && TrimSpace("regex:" + pattern) == "regex:" + pattern
    requires name != "regex:" + pattern && forall x :: env.regex(TrimSpace(pattern), x) <==> x == name
    requires ch.models == [] && ch.ignored == ["regex:" + pattern]
    ensures var upstream := [name, "regex:" + pattern];
            var c1 := Detect(env, ch, upstream, false, t1);
            var c2 := Apply(c1, c1.detected, [], c1.removed, t2);
            var c3 := Detect(env, c2, upstream, false, t3);
            c3.detected != [] || c3.removed != []
  {
    var rule := "regex:" + pattern;
    var upstream := [name, rule];
    PairNames(name, rule);
    PairNames(rule, name);
    assert rule[6..] == pattern;
    assert Suppresses(env, rule, name) && !Suppresses(env, rule, rule);
    assert Models(ch) == {};
    assert Wanted(env, {}, {name, rule}, {rule}) == {rule};
    assert !RulesSurvive(env, {}, {name, rule}, {rule}) by {
      assert {rule} - {rule} == {};
      assert Suppressed(env, {rule}, name) && !Suppressed(env, {}, name);
    }
    Convergence(env, ch, upstream, t1, t2, t3);
  }

  /** Such a rule: an anchored expression, which matches "m" and nothing else. */
  lemma AnchoredRule(env: Env, ch: Channel, t1: int, t2: int, t3: int)
    requires env.mapping == map[] && forall x :: env.regex("^m$", x) <==> x == "m"
    requires ch.models == [] && ch.ignored == ["regex:^m$"]
    ensures var c1 := Detect(env, ch, ["m", "regex:^m$"], false, t1);
            var c2 := Apply(c1, c1.detected, [], c1.removed, t2);
            var c3 := Detect(env, c2, ["m", "regex:^m$"], false, t3);
            c3.detected != [] || c3.removed != []
  {
    assert "regex:" + "^m$" == "regex:^m$";
    TrimFacts("m", IsSpace);
    TrimFacts("^m$", IsSpace);
    TrimFacts("regex:^m$", IsSpace);
    LostRule(env, ch, "^m$", "m", t1, t2, t3);
  }
}
