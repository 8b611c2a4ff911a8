/**
 The multi-key handlers as they run (controller/channel.go, lines 1106-1181 and 1838-2127):
 loops that rebuild the key list and the index maps, and the row they write back.
 */
module MultiKeyHandlers {
  import opened Wrappers
  import opened Counting
  import opened Text
  import opened ModelNames
  import opened MultiKey

  /** The lists a deletion builds: keys, statuses, times and reasons under new indices. */
  datatype Rebuilt = Rebuilt(keys: seq<string>, status: map<nat, int>, times: map<nat, int>, reasons: map<nat, string>)

  function With<T>(entries: map<nat, T>, source: map<nat, T>, i: nat, at: nat, wanted: bool): map<nat, T> {
    if wanted && i in source then entries[at := source[i]] else entries
  }

  lemma MovedStep<T>(kept: seq<nat>, i: nat, entries: map<nat, T>)
    ensures Moved(kept + [i], entries) == With(Moved(kept, entries), entries, i, |kept|, true)
  {
    var kept' := kept + [i];
    assert forall k: nat :: k < |kept| ==> kept'[k] == kept[k];
    assert kept'[|kept|] == i;
  }

  lemma MovedStatusStep(kept: seq<nat>, i: nat, status: map<nat, int>)
    ensures MovedStatus(kept + [i], status) ==
            With(MovedStatus(kept, status), status, i, |kept|, StatusAt(status, i) != ENABLED)
  {
    var kept' := kept + [i];
    assert forall k: nat :: k < |kept| ==> kept'[k] == kept[k];
    assert kept'[|kept|] == i;
  }

  /** One more key, with its entries, at the end of the rebuilt lists. */
  function Pushed(r: Rebuilt, key: string, i: nat, status: map<nat, int>, times: map<nat, int>,
                  reasons: map<nat, string>): Rebuilt {
    Rebuilt(r.keys + [key], With(r.status, status, i, |r.keys|, StatusAt(status, i) != ENABLED),
            With(r.times, times, i, |r.keys|, true), With(r.reasons, reasons, i, |r.keys|, true))
  }

  ghost predicate Below(kept: seq<nat>, n: nat) {
    forall k :: 0 <= k < |kept| ==> kept[k] < n
  }

  /** The keys at the indices `kept` and the maps moved to new indices. */
  function Kept(keys: seq<string>, kept: seq<nat>, status: map<nat, int>, times: map<nat, int>,
                reasons: map<nat, string>): Rebuilt
    requires Below(kept, |keys|)
  {
    Rebuilt(Pick(keys, kept), MovedStatus(kept, status), Moved(kept, times), Moved(kept, reasons))
  }

  lemma PickStep(keys: seq<string>, kept: seq<nat>, i: nat)
    requires Below(kept, |keys|) && i < |keys|
    ensures Below(kept + [i], |keys|) && Pick(keys, kept + [i]) == Pick(keys, kept) + [keys[i]]
  {
    assert (kept + [i])[..|kept + [i]| - 1] == kept;
  }

  /** Keeping one more index pushes one more key. */
  lemma KeptStep(keys: seq<string>, kept: seq<nat>, i: nat, status: map<nat, int>, times: map<nat, int>,
                 reasons: map<nat, string>)
    requires Below(kept, |keys|) && i < |keys|
    ensures Below(kept + [i], |keys|)
    ensures Kept(keys, kept + [i], status, times, reasons) ==
            Pushed(Kept(keys, kept, status, times, reasons), keys[i], i, status, times, reasons)
  {
    PickStep(keys, kept, i);
    MovedStatusStep(kept, i, status);
    MovedStep(kept, i, times);
    MovedStep(kept, i, reasons);
  }

  /** Lines 2020-2040: a surviving key and whatever the maps hold for it. */
  method Push(r: Rebuilt, key: string, i: nat, status: map<nat, int>, times: map<nat, int>, reasons: map<nat, string>)
    returns (r': Rebuilt)
    ensures r' == Pushed(r, key, i, status, times, reasons)
  {
    var at := |r.keys|;
    var newStatus, newTimes, newReasons := r.status, r.times, r.reasons;
    if i in status && status[i] != ENABLED { newStatus := newStatus[at := status[i]]; }
    if i in times { newTimes := newTimes[at := times[i]]; }
    if i in reasons { newReasons := newReasons[at := reasons[i]]; }
    r' := Rebuilt(r.keys + [key], newStatus, newTimes, newReasons);
  }

  /** Lines 2092-2109: a survivor that is enabled leaves no entries behind. */
  method PushDisabled(r: Rebuilt, key: string, i: nat, status: map<nat, int>, times: map<nat, int>, reasons: map<nat, string>)
    returns (r': Rebuilt)
    ensures r' == Pushed(r, key, i, status, OnlyDisabled(times, status), OnlyDisabled(reasons, status))
  {
    var at, current := |r.keys|, StatusAt(status, i);
    var newStatus, newTimes, newReasons := r.status, r.times, r.reasons;
    if current != ENABLED {
      newStatus := newStatus[at := current];
      if i in times { newTimes := newTimes[at := times[i]]; }
      if i in reasons { newReasons := newReasons[at := reasons[i]]; }
    }
    r' := Rebuilt(r.keys + [key], newStatus, newTimes, newReasons);
  }

  lemma AutoDisabledPrefix(n: nat, i: nat, status: map<nat, int>)
    requires i < n
    ensures AutoDisabled(i + 1, status) == AutoDisabled(i, status) + if StatusAt(status, i) == AUTO_DISABLED then {i} else {}
    ensures i in AutoDisabled(n, status) <==> StatusAt(status, i) == AUTO_DISABLED
  {
  }

  /** The lists after the first `n` keys. */
  ghost predicate Rebuilding(keys: seq<string>, n: nat, gone: set<nat>, status: map<nat, int>, times: map<nat, int>,
                             reasons: map<nat, string>, r: Rebuilt) {
    Below(Rest(n, gone), |keys|) && r == Kept(keys, Rest(n, gone), status, times, reasons)
  }

  lemma RebuildStart(keys: seq<string>, gone: set<nat>, status: map<nat, int>, times: map<nat, int>,
                     reasons: map<nat, string>)
    ensures Rebuilding(keys, 0, gone, status, times, reasons, Rebuilt([], map[], map[], map[]))
  {
  }

  /** One key more: dropped, or pushed with its entries. */
  lemma RebuildStep(keys: seq<string>, n: nat, gone: set<nat>, status: map<nat, int>, times: map<nat, int>,
                    reasons: map<nat, string>, r: Rebuilt)
    requires n < |keys| && Rebuilding(keys, n, gone, status, times, reasons, r)
    ensures var next := if n in gone then r else Pushed(r, keys[n], n, status, times, reasons);
            Rebuilding(keys, n + 1, gone, status, times, reasons, next)
  {
    if n !in gone { KeptStep(keys, Rest(n, gone), n, status, times, reasons); }
  }

  /** Lines 2012-2041: everything but one key. */
  method RebuildWithout(keys: seq<string>, index: nat, status: map<nat, int>, times: map<nat, int>,
                        reasons: map<nat, string>) returns (r: Rebuilt)
    ensures Rebuilding(keys, |keys|, {index}, status, times, reasons, r)
  {
    r := Rebuilt([], map[], map[], map[]);
    RebuildStart(keys, {index}, status, times, reasons);
    for i := 0 to |keys|
      invariant Rebuilding(keys, i, {index}, status, times, reasons, r)
    {
      r := OneStep(keys, i, index, status, times, reasons, r);
    }
  }

  /** One pass of that loop. */
  method OneStep(keys: seq<string>, i: nat, index: nat, status: map<nat, int>, times: map<nat, int>,
                 reasons: map<nat, string>, r: Rebuilt) returns (r': Rebuilt)
    requires i < |keys| && Rebuilding(keys, i, {index}, status, times, reasons, r)
    ensures Rebuilding(keys, i + 1, {index}, status, times, reasons, r')
  {
    RebuildStep(keys, i, {index}, status, times, reasons, r);
    if i != index {
      r' := Push(r, keys[i], i, status, times, reasons);
    } else {
      r' := r;
    }
  }

  lemma AutoDisabledCount(n: nat, status: map<nat, int>)
    ensures |AutoDisabled(n + 1, status)| == |AutoDisabled(n, status)| + if StatusAt(status, n) == AUTO_DISABLED then 1 else 0
  {
    AutoDisabledPrefix(n + 1, n, status);
  }

  /** Lines 2084-2111: everything but the automatically disabled keys. */
  method RebuildWithoutAuto(keys: seq<string>, status: map<nat, int>, times: map<nat, int>, reasons: map<nat, string>)
    returns (r: Rebuilt, deleted: nat)
    ensures Rebuilding(keys, |keys|, AutoDisabled(|keys|, status), status, OnlyDisabled(times, status),
                       OnlyDisabled(reasons, status), r)
    ensures deleted == |AutoDisabled(|keys|, status)|
  {
    ghost var gone := AutoDisabled(|keys|, status);
    ghost var t, w := OnlyDisabled(times, status), OnlyDisabled(reasons, status);
    r, deleted := Rebuilt([], map[], map[], map[]), 0;
    RebuildStart(keys, gone, status, t, w);
    for i := 0 to |keys|
      invariant Rebuilding(keys, i, gone, status, t, w, r)
      invariant deleted == |AutoDisabled(i, status)|
    {
      r, deleted := AutoStep(keys, i, gone, status, times, reasons, r, deleted);
    }
  }

  /** One pass of that loop. */
  method AutoStep(keys: seq<string>, i: nat, ghost gone: set<nat>, status: map<nat, int>, times: map<nat, int>,
                  reasons: map<nat, string>, r: Rebuilt, deleted: nat) returns (r': Rebuilt, deleted': nat)
    requires i < |keys| && gone == AutoDisabled(|keys|, status) && deleted == |AutoDisabled(i, status)|
    requires Rebuilding(keys, i, gone, status, OnlyDisabled(times, status), OnlyDisabled(reasons, status), r)
    ensures Rebuilding(keys, i + 1, gone, status, OnlyDisabled(times, status), OnlyDisabled(reasons, status), r')
    ensures deleted' == |AutoDisabled(i + 1, status)|
  {
    RebuildStep(keys, i, gone, status, OnlyDisabled(times, status), OnlyDisabled(reasons, status), r);
    AutoDisabledCount(i, status);
    if StatusAt(status, i) == AUTO_DISABLED {
      r', deleted' := r, deleted + 1;
    } else {
      r' := PushDisabled(r, keys[i], i, status, times, reasons);
      deleted' := deleted;
    }
  }

  /** Lines 1950-1961. */
  method DisableEnabled(status: map<nat, int>, size: nat) returns (out: map<nat, int>, count: nat)
    ensures out == AllDisabled(status, size)
    ensures count == 0 <==> out == status
    ensures count > 0 <==> exists i: nat :: i < size && StatusAt(status, i) == ENABLED
  {
    out, count := status, 0;
    for i := 0 to size
      invariant out == AllDisabled(status, i)
      invariant count == 0 <==> out == status
      invariant count > 0 <==> exists j: nat :: j < i && StatusAt(status, j) == ENABLED
      invariant forall j: nat :: j >= i ==> StatusAt(out, j) == StatusAt(status, j)
    {
      if StatusAt(out, i) == ENABLED {
        out := out[i := DISABLED];
        assert StatusAt(out, i) != StatusAt(status, i);
        count := count + 1;
      }
    }
  }

  lemma WithoutPush(names: seq<string>, name: string, drop: set<string>)
    ensures Without(names + [name], drop) == Without(names, drop) + if name in drop then [] else [name]
  {
    assert (names + [name])[..|names + [name]| - 1] == names;
  }

  /** One more key against a list merged so far. */
  lemma MergeStep(base: seq<string>, more: seq<string>, n: nat)
    requires n < |more|
    ensures var so, next := Merge(base, more[..n]), Merge(base, more[..n + 1]);
            var key := TrimSpace(more[n]);
            next == if key == [] || key in so then so else so + [key]
  {
    assert more[..n + 1][..n] == more[..n];
    var names, key := Normalize(more[..n]), TrimSpace(more[n]);
    WithoutFacts(names, Names(base));
    WithoutPush(names, key, Names(base));
    var so := Merge(base, more[..n]);
    assert key in so <==> key in Normalize(base) || (key in names && key !in Names(base));
    assert key in Normalize(base) <==> key in Names(base);
    if key !in Names(base) && key !in names && key != [] {
      assert so + [key] == Normalize(base) + (Without(names, Names(base)) + [key]);
    }
  }

  lemma MergeNothing(base: seq<string>, more: seq<string>)
    ensures Merge(base, more[..0]) == Normalize(base) && Merge(base, more[..|more|]) == Merge(base, more)
  {
    assert more[..0] == [] && more[..|more|] == more;
    assert Normalize(base) + [] == Normalize(base);
  }

  /** Lines 1160-1181: one pass over the existing keys, one over the new, with one seen set. */
  method AppendKeys(existing: seq<string>, more: seq<string>) returns (clean: seq<string>)
    ensures clean == Merge(existing, more)
  {
    clean := NormalizeNames(existing);
    var seen := set x | x in clean;
    MergeNothing(existing, more);
    for n := 0 to |more|
      invariant clean == Merge(existing, more[..n])
      invariant forall x :: x in seen <==> x in clean
    {
      MergeStep(existing, more, n);
      var key := TrimSpace(more[n]);
      if key != [] && key !in seen {
        seen := seen + {key};
        clean := clean + [key];
      }
    }
  }

  /** Where the key is (model/channel.go, lines 701-707). */
  method FindKey(keys: seq<string>, key: string) returns (index: int)
    ensures index == IndexOf(keys, key)
  {
    for i := 0 to |keys|
      invariant forall k :: 0 <= k < i ==> keys[k] != key
    {
      if keys[i] == key { return i; }
    }
    return -1;
  }

  lemma SavedAuto(json: Json, ch: Channel, keys: seq<string>, gone: set<nat>, r: Rebuilt)
    requires keys == KeysOf(json, ch.key) && gone == AutoDisabled(|keys|, ch.status) && gone != {}
    requires Rebuilding(keys, |keys|, gone, ch.status, OnlyDisabled(ch.times, ch.status), OnlyDisabled(ch.reasons, ch.status), r)
    ensures Do(json, ch, DoDeleteAuto) == Save(json, ch, Join(r.keys, '\n'), r.status, r.times, r.reasons)
  {
  }

  /** A multi-key channel row; `saved` says whether the database accepts the write. */
  class MultiKeyRow {
    const json: Json
    var key: string
    var size: nat
    var status: map<nat, int>
    var times: map<nat, int>
    var reasons: map<nat, string>

    function Value(): Channel
      reads this
    {
      Channel(key, size, status, times, reasons)
    }

    /** channel.Update (model/channel.go, lines 559-626). */
    method Update(newKey: string, newStatus: map<nat, int>, newTimes: map<nat, int>, newReasons: map<nat, string>)
      modifies this
      ensures Value() == Save(json, old(Value()), newKey, newStatus, newTimes, newReasons)
    {
      if newKey != [] { key := newKey; }
      size := CountKeys(json, key);
      status := map i | i in newStatus && i < size :: newStatus[i];
      times, reasons := newTimes, newReasons;
    }

    method Delete(i: int, saved: bool) returns (ok: bool)
      modifies this
      ensures Value() == if ok then Do(json, old(Value()), DoDelete(i)) else old(Value())
      ensures ok <==> saved && Writes(json, old(Value()), DoDelete(i))
    {
      if i < 0 || i >= size { return false; }
      var keys := KeysOf(json, key);
      var r := RebuildWithout(keys, i, status, times, reasons);
      if |r.keys| == 0 || !saved { return false; }
      Update(Join(r.keys, '\n'), r.status, r.times, r.reasons);
      return true;
    }

    method DeleteAutoDisabled(saved: bool) returns (ok: bool, deleted: nat)
      modifies this
      ensures Value() == if ok then Do(json, old(Value()), DoDeleteAuto) else old(Value())
      ensures ok <==> saved && Writes(json, old(Value()), DoDeleteAuto)
      ensures deleted == |AutoDisabled(|KeysOf(json, old(key))|, old(status))|
    {
      var keys := KeysOf(json, key);
      var r;
      r, deleted := RebuildWithoutAuto(keys, status, times, reasons);
      ghost var gone := AutoDisabled(|keys|, status);
      assert deleted == 0 <==> gone == {};
      if deleted == 0 || !saved { return false, deleted; }
      SavedAuto(json, Value(), keys, gone, r);
      Update(Join(r.keys, '\n'), r.status, r.times, r.reasons);
      return true, deleted;
    }

    method DisableAllKeys(saved: bool) returns (ok: bool)
      modifies this
      ensures Value() == if ok then Do(json, old(Value()), DoDisableAll) else old(Value())
      ensures ok <==> saved && exists i: nat :: i < old(size) && StatusAt(old(status), i) == ENABLED
    {
      var next, count := DisableEnabled(status, size);
      if count == 0 || !saved { return false; }
      Update(key, next, times, reasons);
      return true;
    }

    method DisableKey(i: int, saved: bool) returns (ok: bool)
      modifies this
      ensures Value() == if ok then Do(json, old(Value()), DoDisable(i)) else old(Value())
      ensures ok <==> saved && Writes(json, old(Value()), DoDisable(i))
    {
      if i < 0 || i >= size || !saved { return false; }
      Update(key, status[i as nat := DISABLED], times, reasons);
      return true;
    }

    method EnableKey(i: int, saved: bool) returns (ok: bool)
      modifies this
      ensures Value() == if ok then Do(json, old(Value()), DoEnable(i)) else old(Value())
      ensures ok <==> saved && Writes(json, old(Value()), DoEnable(i))
    {
      if i < 0 || i >= size || !saved { return false; }
      Update(key, status - {i}, times - {i}, reasons - {i});
      return true;
    }

    method EnableAllKeys(saved: bool) returns (ok: bool)
      modifies this
      ensures ok == saved && Value() == if ok then Do(json, old(Value()), DoEnableAll) else old(Value())
    {
      if saved { Update(key, map[], map[], map[]); }
      return saved;
    }

    /** Lines 696-730 of model/channel.go, and a save that leaves out the key. */
    method MarkKey(usingKey: string, newStatus: int, reason: string, now: int, saved: bool) returns (found: bool)
      modifies this
      ensures Value() == if saved then Do(json, old(Value()), DoMark(usingKey, newStatus, reason, now)) else old(Value())
      ensures found <==> IndexOf(KeysOf(json, old(key)), usingKey) >= 0
    {
      var i := FindKey(KeysOf(json, key), usingKey);
      if i < 0 { return false; }
      if saved {
        if newStatus == ENABLED {
          status := status - {i};
        } else {
          status, reasons, times := status[i as nat := newStatus], reasons[i as nat := reason], times[i as nat := now];
        }
      }
      return true;
    }

    method AppendNew(more: seq<string>, saved: bool) returns (ok: bool)
      modifies this
      ensures Value() == if ok then Do(json, old(Value()), DoAppend(more)) else old(Value())
      ensures ok <==> saved && Writes(json, old(Value()), DoAppend(more))
    {
      if key == [] || !saved || (LooksLikeArray(key) && json(TrimSpace(key)).None?) { return false; }
      var clean := AppendKeys(KeysOf(json, key), more);
      Update(Join(clean, '\n'), status, times, reasons);
      return true;
    }
  }
}
