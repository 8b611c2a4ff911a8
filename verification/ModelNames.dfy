/**
 Ordered sets of model names (controller/channel_upstream_update.go, lines 100-150): lists
 without blanks or duplicates, merged, subtracted and intersected.
 */
module ModelNames {
  import opened Counting
  import opened Text

  /** Trimmed, non-empty and without duplicates. */
  ghost predicate Clean(names: seq<string>) {
    Distinct(names) && forall i :: 0 <= i < |names| ==> names[i] != [] && TrimSpace(names[i]) == names[i]
  }

  /** Trim every name, drop the blank ones and keep the first of equal ones. */
  function Normalize(names: seq<string>): seq<string> {
    if names == [] then []
    else
      var rest := Normalize(names[..|names| - 1]);
      var name := TrimSpace(names[|names| - 1]);
      if name == [] || name in rest then rest else rest + [name]
  }

  /** The names of `names` outside `drop`, in order. */
  function Without(names: seq<string>, drop: set<string>): seq<string> {
    if names == [] then []
    else
      var rest := Without(names[..|names| - 1], drop);
      if names[|names| - 1] in drop then rest else rest + [names[|names| - 1]]
  }

  /** The names of `names` inside `keep`, in order. */
  function Within(names: seq<string>, keep: set<string>): seq<string> {
    if names == [] then []
    else
      var rest := Within(names[..|names| - 1], keep);
      if names[|names| - 1] in keep then rest + [names[|names| - 1]] else rest
  }

  function Names(names: seq<string>): set<string> {
    Elements(Normalize(names))
  }

  function Merge(base: seq<string>, appended: seq<string>): seq<string> {
    Normalize(base) + Without(Normalize(appended), Names(base))
  }

  function Subtract(base: seq<string>, removed: seq<string>): seq<string> {
    Without(Normalize(base), Names(removed))
  }

  function Intersect(base: seq<string>, allowed: seq<string>): seq<string> {
    Within(Normalize(base), Names(allowed))
  }

  /** Adding wins over removing (lines 145-150). */
  function ApplySelected(origin: seq<string>, add: seq<string>, remove: seq<string>): seq<string> {
    var addN := Normalize(add);
    Subtract(Merge(origin, addN), Subtract(Normalize(remove), addN))
  }

  // ---------- meaning ----------

  lemma Trimmed(s: string)
    ensures TrimSpace(TrimSpace(s)) == TrimSpace(s)
  {
    TrimFacts(s, IsSpace);
    TrimFacts(TrimSpace(s), IsSpace);
  }

  /** Some entry of the list trims to `x`. */
  ghost predicate TrimsTo(names: seq<string>, x: string) {
    exists i :: 0 <= i < |names| && TrimSpace(names[i]) == x
  }

  lemma TrimsToLast(names: seq<string>, x: string)
    requires names != []
    ensures TrimsTo(names, x) <==> TrimsTo(names[..|names| - 1], x) || TrimSpace(names[|names| - 1]) == x
  {
    var n := |names| - 1;
    if TrimsTo(names[..n], x) {
      var i :| 0 <= i < n && TrimSpace(names[..n][i]) == x;
      assert TrimSpace(names[i]) == x;
    }
    if TrimsTo(names, x) {
      var i :| 0 <= i < |names| && TrimSpace(names[i]) == x;
      if i < n { assert TrimSpace(names[..n][i]) == x; }
    }
  }

  lemma {:induction false} NormalizeFacts(names: seq<string>)
    ensures Clean(Normalize(names))
    ensures forall x :: x in Normalize(names) <==> x != [] && TrimsTo(names, x)
  {
    if names != [] {
      NormalizeFacts(names[..|names| - 1]);
      Trimmed(names[|names| - 1]);
      forall x ensures x in Normalize(names) <==> x != [] && TrimsTo(names, x) {
        TrimsToLast(names, x);
      }
    }
  }

  /** Normalising is idempotent: a clean list is its own normal form. */
  lemma {:induction false} NormalizeClean(names: seq<string>)
    requires Clean(names)
    ensures Normalize(names) == names
  {
    if names != [] {
      var n := |names| - 1;
      NormalizeClean(names[..n]);
      assert names[n] !in names[..n];
      assert names == names[..n] + [names[n]];
    }
  }

  lemma CleanPush(names: seq<string>)
    requires Clean(names) && names != []
    ensures Clean(names[..|names| - 1]) && names[|names| - 1] !in names[..|names| - 1]
    ensures TrimSpace(names[|names| - 1]) == names[|names| - 1] && names[|names| - 1] != []
  {
  }

  lemma {:induction false} WithoutMembers(names: seq<string>, drop: set<string>)
    ensures forall x :: x in Without(names, drop) <==> x in names && x !in drop
    ensures |Without(names, drop)| <= |names|
  {
    if names != [] {
      WithoutMembers(names[..|names| - 1], drop);
      assert names == names[..|names| - 1] + [names[|names| - 1]];
    }
  }

  lemma {:induction false} WithoutClean(names: seq<string>, drop: set<string>)
    requires Clean(names)
    ensures Clean(Without(names, drop))
  {
    if names != [] {
      var n := |names| - 1;
      WithoutClean(names[..n], drop);
      WithoutMembers(names[..n], drop);
      CleanPush(names);
    }
  }

  lemma WithoutFacts(names: seq<string>, drop: set<string>)
    ensures forall x :: x in Without(names, drop) <==> x in names && x !in drop
    ensures Clean(names) ==> Clean(Without(names, drop))
    ensures |Without(names, drop)| <= |names|
  {
    WithoutMembers(names, drop);
    if Clean(names) { WithoutClean(names, drop); }
  }

  lemma {:induction false} WithinMembers(names: seq<string>, keep: set<string>)
    ensures forall x :: x in Within(names, keep) <==> x in names && x in keep
    ensures |Within(names, keep)| <= |names|
  {
    if names != [] {
      WithinMembers(names[..|names| - 1], keep);
      assert names == names[..|names| - 1] + [names[|names| - 1]];
    }
  }

  lemma {:induction false} WithinClean(names: seq<string>, keep: set<string>)
    requires Clean(names)
    ensures Clean(Within(names, keep))
  {
    if names != [] {
      var n := |names| - 1;
      WithinClean(names[..n], keep);
      WithinMembers(names[..n], keep);
      CleanPush(names);
    }
  }

  lemma WithinFacts(names: seq<string>, keep: set<string>)
    ensures forall x :: x in Within(names, keep) <==> x in names && x in keep
    ensures Clean(names) ==> Clean(Within(names, keep))
    ensures |Within(names, keep)| <= |names|
  {
    WithinMembers(names, keep);
    if Clean(names) { WithinClean(names, keep); }
  }

  lemma ConcatClean(a: seq<string>, b: seq<string>)
    requires Clean(a) && Clean(b) && forall x :: x in b ==> x !in a
    ensures Clean(a + b)
  {
    forall k, l | 0 <= k < l < |a + b| ensures (a + b)[k] != (a + b)[l] {
      if k < |a| <= l { assert (a + b)[k] in a && (a + b)[l] in b; }
    }
  }

  /** Merging is union and keeps every base name in its place. */
  lemma MergeFacts(base: seq<string>, appended: seq<string>)
    ensures Clean(Merge(base, appended)) && Normalize(base) <= Merge(base, appended)
    ensures Elements(Merge(base, appended)) == Names(base) + Names(appended)
    ensures Names(Merge(base, appended)) == Names(base) + Names(appended)
  {
    NormalizeFacts(base);
    NormalizeFacts(appended);
    WithoutFacts(Normalize(appended), Names(base));
    ConcatClean(Normalize(base), Without(Normalize(appended), Names(base)));
    NormalizeClean(Merge(base, appended));
  }

  /** Subtracting is difference. */
  lemma SubtractFacts(base: seq<string>, removed: seq<string>)
    ensures Clean(Subtract(base, removed)) && Names(Subtract(base, removed)) == Names(base) - Names(removed)
    ensures Elements(Subtract(base, removed)) == Names(base) - Names(removed)
  {
    NormalizeFacts(base);
    WithoutFacts(Normalize(base), Names(removed));
    NormalizeClean(Subtract(base, removed));
  }

  /** Intersecting is intersection. */
  lemma IntersectFacts(base: seq<string>, allowed: seq<string>)
    ensures Clean(Intersect(base, allowed)) && Names(Intersect(base, allowed)) == Names(base) * Names(allowed)
    ensures Elements(Intersect(base, allowed)) == Names(base) * Names(allowed)
  {
    NormalizeFacts(base);
    WithinFacts(Normalize(base), Names(allowed));
    NormalizeClean(Intersect(base, allowed));
  }

  // ---------- order ----------

  /** What a longer list normalises to begins with what its beginning does: the first of equal
      names keeps its place. */
  lemma {:induction false} NormalizeGrows(a: seq<string>, b: seq<string>)
    ensures Normalize(a) <= Normalize(a + b)
  {
    if b == [] {
      assert a + b == a;
    } else {
      NormalizeGrows(a, b[..|b| - 1]);
      assert (a + b)[..|a + b| - 1] == a + b[..|b| - 1];
    }
  }

  /** Filtering goes name by name, in order. */
  lemma {:induction false} FilterInOrder(a: seq<string>, b: seq<string>, names: set<string>)
    ensures Without(a + b, names) == Without(a, names) + Without(b, names)
    ensures Within(a + b, names) == Within(a, names) + Within(b, names)
  {
    if b == [] {
      assert a + b == a;
    } else {
      FilterInOrder(a, b[..|b| - 1], names);
      assert (a + b)[..|a + b| - 1] == a + b[..|b| - 1];
    }
  }

  /** A selected change is (origin + add) - (remove - add), as sets. */
  lemma ApplySelectedFacts(origin: seq<string>, add: seq<string>, remove: seq<string>)
    ensures Clean(ApplySelected(origin, add, remove))
    ensures Elements(ApplySelected(origin, add, remove)) == Names(origin) + Names(add) - (Names(remove) - Names(add))
  {
    NormalizeFacts(add);
    NormalizeFacts(remove);
    NormalizeClean(Normalize(add));
    NormalizeClean(Normalize(remove));
    MergeFacts(origin, Normalize(add));
    SubtractFacts(Normalize(remove), Normalize(add));
    SubtractFacts(Merge(origin, Normalize(add)), Subtract(Normalize(remove), Normalize(add)));
  }

  // ---------- loops ----------

  /** Lines 100-105. */
  method NormalizeNames(models: seq<string>) returns (out: seq<string>)
    ensures out == Normalize(models)
  {
    out := [];
    for n := 0 to |models|
      invariant out == Normalize(models[..n])
    {
      assert models[..n + 1][..n] == models[..n];
      var name := TrimSpace(models[n]);
      if name != [] && name !in out { out := out + [name]; }
    }
    assert models[..|models|] == models;
  }

  /** Among distinct names, one was already appended or in the base only if it is in the base. */
  lemma SeenIsBase(base: seq<string>, extra: seq<string>, n: nat)
    requires Distinct(extra) && n < |extra|
    ensures extra[..n + 1][..n] == extra[..n]
    ensures extra[n] in Normalize(base) + Without(extra[..n], Names(base)) <==> extra[n] in Names(base)
  {
    WithoutFacts(extra[..n], Names(base));
    assert extra[n] !in extra[..n];
  }

  /** Lines 107-121: append what has not been seen. */
  method MergeNames(base: seq<string>, appended: seq<string>) returns (merged: seq<string>)
    ensures merged == Merge(base, appended)
  {
    merged := NormalizeNames(base);
    var extra := NormalizeNames(appended);
    NormalizeFacts(appended);
    var seen := set x | x in merged;
    for n := 0 to |extra|
      invariant merged == Normalize(base) + Without(extra[..n], Names(base))
      invariant seen == set x | x in merged
    {
      SeenIsBase(base, extra, n);
      if extra[n] !in seen {
        seen := seen + {extra[n]};
        merged := merged + [extra[n]];
      }
    }
    assert extra[..|extra|] == extra;
  }
}
