/**
 Multi-key channels: one text column of keys and three maps from key index to status, disabled
 time and reason (controller/channel.go, lines 1106-1181 and 1838-2127; model/channel.go, lines
 187-209 and 559-626). Reading a JSON array of keys is a parameter.
 */
module MultiKey {
  import opened Wrappers
  import opened Counting
  import opened Text
  import opened ModelNames

  const ENABLED := 1
  const DISABLED := 2
  const AUTO_DISABLED := 3

  /** The JSON reader: the elements of an array, or nothing if the text is not one. */
  type Json = string -> Option<seq<string>>

  datatype Channel = Channel(
    key: string, size: nat, status: map<nat, int>, times: map<nat, int>, reasons: map<nat, string>)

  predicate LooksLikeArray(key: string) {
    "[" <= TrimSpace(key)
  }

  predicate ReadsAsArray(json: Json, key: string) {
    LooksLikeArray(key) && json(TrimSpace(key)).Some?
  }

  /** How a handler reads the keys (model/channel.go, lines 187-209). */
  function KeysOf(json: Json, key: string): seq<string> {
    if key == [] then []
    else if ReadsAsArray(json, key) then json(TrimSpace(key)).value
    else Unpack(key, '\n')
  }

  /** How saving counts them (lines 571-588): an empty array counts as one line of text. */
  function CountKeys(json: Json, key: string): nat {
    if key == [] then 0
    else if ReadsAsArray(json, key) && json(TrimSpace(key)).value != [] then |json(TrimSpace(key)).value|
    else |Unpack(key, '\n')|
  }

  /** Saving a channel: an empty key is not written and the stored one is counted instead;
      statuses beyond the count are dropped. */
  function Save(json: Json, ch: Channel, key: string, status: map<nat, int>, times: map<nat, int>,
                reasons: map<nat, string>): Channel {
    var stored := if key != [] then key else ch.key;
    var size := CountKeys(json, stored);
    Channel(stored, size, map i | i in status && i < size :: status[i], times, reasons)
  }

  function StatusAt(status: map<nat, int>, i: nat): int {
    if i in status then status[i] else ENABLED
  }

  // ---------- deleting keys ----------

  /** The indices below `n` outside `gone`, in order. */
  function Rest(n: nat, gone: set<nat>): seq<nat> {
    if n == 0 then [] else if n - 1 in gone then Rest(n - 1, gone) else Rest(n - 1, gone) + [n - 1]
  }

  lemma {:induction false} RestFacts(n: nat, gone: set<nat>)
    ensures Ascending(Rest(n, gone)) && |Rest(n, gone)| <= n
    ensures forall k :: 0 <= k < |Rest(n, gone)| ==> Rest(n, gone)[k] < n
    ensures forall i: nat :: i in Rest(n, gone) <==> i < n && i !in gone
  {
    if n > 0 { RestFacts(n - 1, gone); }
  }

  function Pick(keys: seq<string>, kept: seq<nat>): (out: seq<string>)
    requires forall k :: 0 <= k < |kept| ==> kept[k] < |keys|
    ensures |out| == |kept| && forall k :: 0 <= k < |kept| ==> out[k] == keys[kept[k]]
  {
    if kept == [] then [] else Pick(keys, kept[..|kept| - 1]) + [keys[kept[|kept| - 1]]]
  }

  function MovedStatus(kept: seq<nat>, status: map<nat, int>): map<nat, int> {
    map k: nat | k < |kept| && kept[k] in status && status[kept[k]] != ENABLED :: status[kept[k]]
  }

  function Moved<T>(kept: seq<nat>, entries: map<nat, T>): map<nat, T> {
    map k: nat | k < |kept| && kept[k] in entries :: entries[kept[k]]
  }

  function AutoDisabled(n: nat, status: map<nat, int>): set<nat> {
    set i: nat | i < n && StatusAt(status, i) == AUTO_DISABLED
  }

  function OnlyDisabled<T>(entries: map<nat, T>, status: map<nat, int>): map<nat, T> {
    map i | i in entries && StatusAt(status, i) != ENABLED :: entries[i]
  }

  /** Lines 1994-2059. */
  function DeleteKey(json: Json, ch: Channel, i: int): Channel {
    var keys := KeysOf(json, ch.key);
    if i < 0 || i >= ch.size then ch else
    var kept := Rest(|keys|, {i as nat});
    RestFacts(|keys|, {i as nat});
    if kept == [] then ch
    else Save(json, ch, Join(Pick(keys, kept), '\n'), MovedStatus(kept, ch.status), Moved(kept, ch.times), Moved(kept, ch.reasons))
  }

  /** Lines 2074-2127. */
  function DeleteAuto(json: Json, ch: Channel): Channel {
    var keys := KeysOf(json, ch.key);
    var gone := AutoDisabled(|keys|, ch.status);
    if gone == {} then ch else
    var kept := Rest(|keys|, gone);
    RestFacts(|keys|, gone);
    Save(json, ch, Join(Pick(keys, kept), '\n'), MovedStatus(kept, ch.status),
         Moved(kept, OnlyDisabled(ch.times, ch.status)), Moved(kept, OnlyDisabled(ch.reasons, ch.status)))
  }

  // ---------- the other actions ----------

  function Disable(json: Json, ch: Channel, i: int): Channel {
    if i < 0 || i >= ch.size then ch
    else Save(json, ch, ch.key, ch.status[i as nat := DISABLED], ch.times, ch.reasons)
  }

  function Enable(json: Json, ch: Channel, i: int): Channel {
    if i < 0 || i >= ch.size then ch
    else Save(json, ch, ch.key, ch.status - {i}, ch.times - {i}, ch.reasons - {i})
  }

  function EnableAll(json: Json, ch: Channel): Channel {
    Save(json, ch, ch.key, map[], map[], map[])
  }

  function AllDisabled(status: map<nat, int>, n: nat): map<nat, int> {
    if n == 0 then status
    else
      var rest := AllDisabled(status, n - 1);
      if StatusAt(rest, n - 1) == ENABLED then rest[n - 1 := DISABLED] else rest
  }

  function DisableAll(json: Json, ch: Channel): Channel {
    var status := AllDisabled(ch.status, ch.size);
    if status == ch.status then ch else Save(json, ch, ch.key, status, ch.times, ch.reasons)
  }

  /** Lines 1123-1181: trimmed, without blanks or duplicates, existing keys first. A key text that
      looks like an array and is not one is an error. */
  function Append(json: Json, ch: Channel, more: seq<string>): Channel {
    if ch.key == [] || (LooksLikeArray(ch.key) && json(TrimSpace(ch.key)).None?) then ch
    else Save(json, ch, Join(Merge(KeysOf(json, ch.key), more), '\n'), ch.status, ch.times, ch.reasons)
  }

  /** The first index of a key, or -1. */
  function IndexOf(keys: seq<string>, key: string): (i: int)
    ensures -1 <= i < |keys| && (i >= 0 ==> keys[i] == key)
    ensures forall k :: 0 <= k < (if i >= 0 then i else |keys|) ==> keys[k] != key
  {
    if keys == [] then -1
    else
      var i := IndexOf(keys[..|keys| - 1], key);
      if i >= 0 then i else if keys[|keys| - 1] == key then |keys| - 1 else -1
  }

  /** A key's status changes by itself while it is in use (model/channel.go, lines 696-746): the
      channel is saved without its key, so that nothing is counted again. */
  function Mark(json: Json, ch: Channel, key: string, status: int, reason: string, now: int): Channel {
    var i := IndexOf(KeysOf(json, ch.key), key);
    if i < 0 then ch
    else if status == ENABLED then ch.(status := ch.status - {i})
    else ch.(status := ch.status[i as nat := status], reasons := ch.reasons[i as nat := reason], times := ch.times[i as nat := now])
  }

  datatype Action =
    | DoDisable(i: int) | DoEnable(i: int) | DoEnableAll | DoDisableAll
    | DoDelete(i: int) | DoDeleteAuto | DoAppend(more: seq<string>)
    | DoMark(key: string, status: int, reason: string, now: int)

  function Do(json: Json, ch: Channel, a: Action): Channel {
    match a
    case DoDisable(i) => Disable(json, ch, i)
    case DoEnable(i) => Enable(json, ch, i)
    case DoEnableAll => EnableAll(json, ch)
    case DoDisableAll => DisableAll(json, ch)
    case DoDelete(i) => DeleteKey(json, ch, i)
    case DoDeleteAuto => DeleteAuto(json, ch)
    case DoAppend(more) => Append(json, ch, more)
    case DoMark(key, status, reason, now) => Mark(json, ch, key, status, reason, now)
  }

  // ---------- the size is the number of keys ----------

  /** An empty array is listed as no keys and counted as lines of text. */
  predicate EmptyArray(json: Json, key: string) {
    key != [] && ReadsAsArray(json, key) && json(TrimSpace(key)).value == []
  }

  ghost predicate InRange<T>(entries: map<nat, T>, n: nat) {
    forall i :: i in entries ==> i < n
  }

  /** The size is the number of keys, and every status index refers to one. */
  ghost predicate Sized(json: Json, ch: Channel) {
    ch.size == |KeysOf(json, ch.key)| && InRange(ch.status, ch.size)
  }

  lemma CountExact(json: Json, key: string)
    ensures CountKeys(json, key) == |KeysOf(json, key)| <==> !EmptyArray(json, key)
  {
  }

  /** The handler gets as far as saving the channel with its keys counted. */
  predicate Writes(json: Json, ch: Channel, a: Action) {
    match a
    case DoDisable(i) => 0 <= i < ch.size
    case DoEnable(i) => 0 <= i < ch.size
    case DoEnableAll => true
    case DoDisableAll => AllDisabled(ch.status, ch.size) != ch.status
    case DoDelete(i) => 0 <= i < ch.size && Rest(|KeysOf(json, ch.key)|, {i as nat}) != []
    case DoDeleteAuto => AutoDisabled(|KeysOf(json, ch.key)|, ch.status) != {}
    case DoAppend(_) => ch.key != [] && (LooksLikeArray(ch.key) ==> json(TrimSpace(ch.key)).Some?)
    case DoMark(_, _, _, _) => false
  }

  /** The keys outside `gone`. */
  function Survivors(keys: seq<string>, gone: set<nat>): (out: seq<string>)
    ensures |out| == |Rest(|keys|, gone)|
  {
    RestFacts(|keys|, gone);
    Pick(keys, Rest(|keys|, gone))
  }

  /** The key text an action sets out to store; an empty one is not written. */
  function TextOf(json: Json, ch: Channel, a: Action): string {
    var keys := KeysOf(json, ch.key);
    if !Writes(json, ch, a) then [] else
    match a
    case DoDelete(i) => if i >= 0 then Join(Survivors(keys, {i}), '\n') else []
    case DoDeleteAuto => Join(Survivors(keys, AutoDisabled(|keys|, ch.status)), '\n')
    case DoAppend(more) => Join(Merge(keys, more), '\n')
    case _ => []
  }

  /** After the action the stored text reads as an empty array. */
  predicate StoresEmptyArray(json: Json, ch: Channel, a: Action) {
    EmptyArray(json, if TextOf(json, ch, a) != [] then TextOf(json, ch, a) else ch.key)
  }

  lemma KeyAfter(json: Json, ch: Channel, a: Action)
    ensures Do(json, ch, a).key == if TextOf(json, ch, a) != [] then TextOf(json, ch, a) else ch.key
  {
  }

  lemma MarkSized(json: Json, ch: Channel, key: string, status: int, reason: string, now: int)
    ensures Sized(json, Mark(json, ch, key, status, reason, now)) <==> Sized(json, ch)
  {
    var i := IndexOf(KeysOf(json, ch.key), key);
    var after := Mark(json, ch, key, status, reason, now);
    if i >= 0 {
      assert forall j: nat :: j != i ==> (j in after.status <==> j in ch.status);
      forall j: nat | j in ch.status && InRange(after.status, ch.size) && ch.size == |KeysOf(json, ch.key)| ensures j < ch.size {
        assert j == i || j in after.status;
      }
    }
  }

  /** An action that saves and counts makes size and statuses fit the keys exactly unless the text
      it stores reads as an empty array; any other keeps what held before. */
  lemma ActionSized(json: Json, ch: Channel, a: Action)
    ensures Sized(json, Do(json, ch, a)) <==>
            if Writes(json, ch, a) then !StoresEmptyArray(json, ch, a) else Sized(json, ch)
    ensures !Writes(json, ch, a) ==> Do(json, ch, a).key == ch.key && Do(json, ch, a).size == ch.size
  {
    KeyAfter(json, ch, a);
    CountExact(json, Do(json, ch, a).key);
    if a.DoMark? { MarkSized(json, ch, a.key, a.status, a.reason, a.now); }
  }

  function Run(json: Json, ch: Channel, actions: seq<Action>): Channel {
    if actions == [] then ch else Do(json, Run(json, ch, actions[..|actions| - 1]), actions[|actions| - 1])
  }

  ghost predicate NeverWrites(json: Json, ch: Channel, actions: seq<Action>) {
    actions == [] ||
    (NeverWrites(json, ch, actions[..|actions| - 1])
     && !Writes(json, Run(json, ch, actions[..|actions| - 1]), actions[|actions| - 1]))
  }

  /** After every run of actions, on any keys and any recorded size: as soon as one action has
      saved and counted, the size is the number of keys and all status indices are in range,
      exactly unless the stored text reads as an empty array; until then exactly if they were at
      the start. */
  lemma {:induction false} AlwaysSized(json: Json, ch: Channel, actions: seq<Action>)
    ensures Sized(json, Run(json, ch, actions)) <==>
            if NeverWrites(json, ch, actions) then Sized(json, ch) else !EmptyArray(json, Run(json, ch, actions).key)
  {
    if actions != [] {
      var front, a := Run(json, ch, actions[..|actions| - 1]), actions[|actions| - 1];
      AlwaysSized(json, ch, actions[..|actions| - 1]);
      ActionSized(json, front, a);
      KeyAfter(json, front, a);
    }
  }

  /** The size fits after every action so far. */
  ghost predicate SizedThroughout(json: Json, ch: Channel, actions: seq<Action>) {
    Sized(json, Run(json, ch, actions)) && (actions == [] || SizedThroughout(json, ch, actions[..|actions| - 1]))
  }

  ghost predicate NoEmptyText(json: Json, ch: Channel, actions: seq<Action>) {
    actions == [] ||
    (NoEmptyText(json, ch, actions[..|actions| - 1])
     && !StoresEmptyArray(json, Run(json, ch, actions[..|actions| - 1]), actions[|actions| - 1]))
  }

  /** From a channel that fits, it fits after every action exactly when none stores an empty
      array. */
  lemma {:induction false} SizedExactly(json: Json, ch: Channel, actions: seq<Action>)
    requires Sized(json, ch) && !EmptyArray(json, ch.key)
    ensures SizedThroughout(json, ch, actions) <==> NoEmptyText(json, ch, actions)
    ensures NoEmptyText(json, ch, actions) ==> !EmptyArray(json, Run(json, ch, actions).key)
  {
    if actions != [] {
      var front, a := Run(json, ch, actions[..|actions| - 1]), actions[|actions| - 1];
      SizedExactly(json, ch, actions[..|actions| - 1]);
      ActionSized(json, front, a);
      KeyAfter(json, front, a);
    }
  }

  // ---------- what the actions do to each key ----------

  /** What a channel records of one key. */
  datatype Note = Note(status: int, time: Option<int>, reason: Option<string>)

  function Entry<T>(entries: map<nat, T>, i: nat): Option<T> {
    if i in entries then Some(entries[i]) else None
  }

  function NoteAt(ch: Channel, i: nat): Note {
    Note(StatusAt(ch.status, i), Entry(ch.times, i), Entry(ch.reasons, i))
  }

  lemma SavedNote(json: Json, ch: Channel, status: map<nat, int>, times: map<nat, int>, reasons: map<nat, string>, j: nat)
    requires j < |KeysOf(json, ch.key)|
    ensures var after := Save(json, ch, ch.key, status, times, reasons);
            after.key == ch.key && NoteAt(after, j) == Note(StatusAt(status, j), Entry(times, j), Entry(reasons, j))
  {
    CountExact(json, ch.key);
  }

  /** Disabling an index below the size disables that key, and changes nothing else of any. */
  lemma DisableExactly(json: Json, ch: Channel, i: int, j: nat)
    requires j < |KeysOf(json, ch.key)|
    ensures var after := Do(json, ch, DoDisable(i));
            && after.key == ch.key
            && NoteAt(after, j) == if j == i < ch.size then NoteAt(ch, j).(status := DISABLED) else NoteAt(ch, j)
  {
    if 0 <= i < ch.size { SavedNote(json, ch, ch.status[i as nat := DISABLED], ch.times, ch.reasons, j); }
  }

  /** Enabling one enables that key, forgets its time and reason, and leaves the others. */
  lemma EnableExactly(json: Json, ch: Channel, i: int, j: nat)
    requires j < |KeysOf(json, ch.key)|
    ensures var after := Do(json, ch, DoEnable(i));
            && after.key == ch.key
            && NoteAt(after, j) == if j == i < ch.size then Note(ENABLED, None, None) else NoteAt(ch, j)
  {
    if 0 <= i < ch.size { SavedNote(json, ch, ch.status - {i}, ch.times - {i}, ch.reasons - {i}, j); }
  }

  lemma {:induction false} AllDisabledAt(status: map<nat, int>, n: nat, j: nat)
    ensures StatusAt(AllDisabled(status, n), j) ==
            if j < n && StatusAt(status, j) == ENABLED then DISABLED else StatusAt(status, j)
  {
    if n > 0 {
      AllDisabledAt(status, n - 1, j);
      AllDisabledAt(status, n - 1, n - 1);
    }
  }

  /** Disabling all disables every enabled key below the size; one already disabled, by a user or
      automatically, keeps its status. Enabling all leaves no trace of any. */
  lemma AllExactly(json: Json, ch: Channel, j: nat)
    requires j < |KeysOf(json, ch.key)|
    ensures var off := Do(json, ch, DoDisableAll);
            && off.key == ch.key
            && NoteAt(off, j) == if j < ch.size && StatusAt(ch.status, j) == ENABLED
                                 then NoteAt(ch, j).(status := DISABLED) else NoteAt(ch, j)
    ensures var on := Do(json, ch, DoEnableAll); on.key == ch.key && NoteAt(on, j) == Note(ENABLED, None, None)
  {
    var status := AllDisabled(ch.status, ch.size);
    AllDisabledAt(ch.status, ch.size, j);
    SavedNote(json, ch, status, ch.times, ch.reasons, j);
    SavedNote(json, ch, map[], map[], map[], j);
  }

  /** Marking a key changes exactly its first occurrence: status, time and reason, or the status
      alone if it is enabled again. */
  lemma MarkExactly(json: Json, ch: Channel, key: string, status: int, reason: string, now: int, j: nat)
    requires j < |KeysOf(json, ch.key)|
    ensures var keys, after := KeysOf(json, ch.key), Do(json, ch, DoMark(key, status, reason, now));
            && after.key == ch.key && after.size == ch.size
            && NoteAt(after, j) == if keys[j] != key || key in keys[..j] then NoteAt(ch, j)
                                   else if status == ENABLED then NoteAt(ch, j).(status := ENABLED)
                                   else Note(status, Some(now), Some(reason))
  {
    var keys := KeysOf(json, ch.key);
    var i := IndexOf(keys, key);
    assert 0 <= i < j ==> keys[..j][i] == key;
  }

  /** The action rewrites no keys and does not enable key `j`. */
  predicate Spares(json: Json, ch: Channel, a: Action, j: nat) {
    match a
    case DoDisable(_) => true
    case DoDisableAll => true
    case DoEnable(i) => i != j
    case DoMark(key, status, _, _) => status != ENABLED || IndexOf(KeysOf(json, ch.key), key) != j
    case _ => false
  }

  ghost predicate AllSpare(json: Json, ch: Channel, actions: seq<Action>, j: nat) {
    forall k :: 0 <= k < |actions| ==> Spares(json, ch, actions[k], j)
  }

  /** Through every run of actions that spare it, a disabled key stays disabled. */
  lemma {:induction false} StaysDisabled(json: Json, ch: Channel, actions: seq<Action>, j: nat)
    requires j < |KeysOf(json, ch.key)| && StatusAt(ch.status, j) != ENABLED && AllSpare(json, ch, actions, j)
    ensures Run(json, ch, actions).key == ch.key && StatusAt(Run(json, ch, actions).status, j) != ENABLED
  {
    if actions != [] {
      var front, a := Run(json, ch, actions[..|actions| - 1]), actions[|actions| - 1];
      StaysDisabled(json, ch, actions[..|actions| - 1], j);
      assert Spares(json, ch, a, j);
      match a
      case DoDisable(i) => DisableExactly(json, front, i, j);
      case DoDisableAll => AllExactly(json, front, j);
      case DoEnable(i) => EnableExactly(json, front, i, j);
      case DoMark(key, status, reason, now) => MarkExactly(json, front, key, status, reason, now, j);
    }
  }

  // ---------- keys survive being stored ----------

  /** The text of an array holds its elements, the commas between them and two brackets. */
  ghost predicate Bracketed(json: Json) {
    forall text :: json(text).Some? ==> |Join(json(text).value, ',')| + 2 <= |text|
  }

  /** What the joined text must be to be read as the same keys: no key spans lines, the first and
      the last are not empty, and the text is not an array. */
  ghost predicate ReadsBack(json: Json, keys: seq<string>) {
    && keys != [] && Free(keys, '\n') && keys[0] != [] && keys[|keys| - 1] != []
    && !ReadsAsArray(json, Join(keys, '\n'))
  }

  lemma StoredExact(json: Json, keys: seq<string>)
    requires Bracketed(json) && Join(keys, '\n') != []
    ensures KeysOf(json, Join(keys, '\n')) == keys <==> ReadsBack(json, keys)
  {
    var text := Join(keys, '\n');
    UnpackExact(keys, '\n');
    JoinLength(keys, '\n', ',');
    TrimShortens(text, IsSpace);
  }

  lemma ReadBackWritten(json: Json, keys: seq<string>)
    requires ReadsBack(json, keys)
    ensures Join(keys, '\n') != [] && KeysOf(json, Join(keys, '\n')) == keys && CountKeys(json, Join(keys, '\n')) == |keys|
  {
    JoinEnds(keys, '\n');
    UnpackExact(keys, '\n');
  }

  /** A trimmed key on one line that does not open like an array. */
  predicate Tidy(key: string) {
    key != [] && TrimSpace(key) == key && '\n' !in key && key[0] != '['
  }

  /** Tidy keys, in any number and order, are read back. */
  lemma TidyReadsBack(json: Json, keys: seq<string>)
    requires keys != [] && AllTidy(keys)
    ensures ReadsBack(json, keys)
  {
    JoinEnds(keys, '\n');
    TrimFacts(keys[0], IsSpace);
    TrimFacts(keys[|keys| - 1], IsSpace);
    TrimFacts(Join(keys, '\n'), IsSpace);
  }

  ghost predicate AllTidy(keys: seq<string>) {
    forall i :: 0 <= i < |keys| ==> Tidy(keys[i])
  }

  /** Appended keys are tidy once trimmed. */
  ghost predicate TidyAction(a: Action) {
    a.DoAppend? ==> AllTidy(Normalize(a.more))
  }

  ghost predicate TidyChannel(json: Json, ch: Channel) {
    KeysOf(json, ch.key) != [] && AllTidy(KeysOf(json, ch.key)) && Sized(json, ch)
  }

  lemma SaveTidy(json: Json, ch: Channel, keys: seq<string>, status: map<nat, int>, times: map<nat, int>,
                 reasons: map<nat, string>)
    requires TidyChannel(json, ch) && AllTidy(keys)
    ensures TidyChannel(json, Save(json, ch, Join(keys, '\n'), status, times, reasons))
  {
    if keys != [] {
      TidyReadsBack(json, keys);
      ReadBackWritten(json, keys);
    }
  }

  lemma MergedTidy(keys: seq<string>, more: seq<string>)
    requires AllTidy(keys) && AllTidy(Normalize(more))
    ensures AllTidy(Merge(keys, more))
  {
    MergeFacts(keys, more);
    NormalizeFacts(keys);
    var merged := Merge(keys, more);
    forall i | 0 <= i < |merged| ensures Tidy(merged[i]) {
      assert merged[i] in Names(keys) + Names(more);
      if merged[i] in Names(keys) {
        assert TrimsTo(keys, merged[i]);
      }
    }
  }

  lemma PickTidy(keys: seq<string>, kept: seq<nat>)
    requires AllTidy(keys) && forall k :: 0 <= k < |kept| ==> kept[k] < |keys|
    ensures AllTidy(Pick(keys, kept))
  {
  }

  lemma DeleteTidy(json: Json, ch: Channel, i: int)
    requires TidyChannel(json, ch)
    ensures TidyChannel(json, DeleteKey(json, ch, i)) && TidyChannel(json, DeleteAuto(json, ch))
  {
    var keys := KeysOf(json, ch.key);
    if 0 <= i < ch.size {
      var kept := Rest(|keys|, {i as nat});
      RestFacts(|keys|, {i as nat});
      PickTidy(keys, kept);
      SaveTidy(json, ch, Pick(keys, kept), MovedStatus(kept, ch.status), Moved(kept, ch.times), Moved(kept, ch.reasons));
    }
    var gone := AutoDisabled(|keys|, ch.status);
    var kept := Rest(|keys|, gone);
    RestFacts(|keys|, gone);
    PickTidy(keys, kept);
    SaveTidy(json, ch, Pick(keys, kept), MovedStatus(kept, ch.status),
             Moved(kept, OnlyDisabled(ch.times, ch.status)), Moved(kept, OnlyDisabled(ch.reasons, ch.status)));
  }

  lemma AppendTidy(json: Json, ch: Channel, more: seq<string>)
    requires TidyChannel(json, ch) && AllTidy(Normalize(more))
    ensures TidyChannel(json, Append(json, ch, more))
  {
    MergedTidy(KeysOf(json, ch.key), more);
    SaveTidy(json, ch, Merge(KeysOf(json, ch.key), more), ch.status, ch.times, ch.reasons);
  }

  lemma ActionTidy(json: Json, ch: Channel, a: Action)
    requires TidyChannel(json, ch) && TidyAction(a)
    ensures TidyChannel(json, Do(json, ch, a))
  {
    match a
    case DoDelete(i) => DeleteTidy(json, ch, i);
    case DoDeleteAuto => DeleteTidy(json, ch, 0);
    case DoAppend(more) => AppendTidy(json, ch, more);
    case DoMark(_, _, _, _) => ActionSized(json, ch, a);
    case _ =>
      ActionSized(json, ch, a);
      CountExact(json, ch.key);
  }

  /** From tidy keys, appending only tidy ones, no run ever stores an empty array: there are
      always keys, they stay tidy, and their number is the size. */
  lemma {:induction false} TidyForever(json: Json, ch: Channel, actions: seq<Action>)
    requires TidyChannel(json, ch) && forall k :: 0 <= k < |actions| ==> TidyAction(actions[k])
    ensures TidyChannel(json, Run(json, ch, actions)) && !EmptyArray(json, Run(json, ch, actions).key)
  {
    if actions != [] {
      TidyForever(json, ch, actions[..|actions| - 1]);
      ActionTidy(json, Run(json, ch, actions[..|actions| - 1]), actions[|actions| - 1]);
    }
  }

  // ---------- what deletions keep ----------

  /** Channel `after` holds the keys of `before` at the indices `kept`, in order, each with the
      status it had; disabled ones also keep time and reason. */
  ghost predicate Keeps(json: Json, before: Channel, after: Channel, kept: seq<nat>) {
    var was, now := KeysOf(json, before.key), KeysOf(json, after.key);
    && |now| == |kept| && Ascending(kept)
    && forall k: nat :: k < |kept| ==>
         && kept[k] < |was| && now[k] == was[kept[k]]
         && StatusAt(after.status, k) == StatusAt(before.status, kept[k])
         && (StatusAt(before.status, kept[k]) != ENABLED ==>
               && SameEntry(before.times, kept[k], after.times, k)
               && SameEntry(before.reasons, kept[k], after.reasons, k))
  }

  ghost predicate SameEntry<T>(a: map<nat, T>, i: nat, b: map<nat, T>, k: nat) {
    (i in a <==> k in b) && (i in a ==> a[i] == b[k])
  }

  /** Entries of disabled keys that are moved along. */
  ghost predicate Carried<T>(kept: seq<nat>, status: map<nat, int>, entries: map<nat, T>, moved: map<nat, T>) {
    forall k: nat :: k < |kept| && StatusAt(status, kept[k]) != ENABLED ==> SameEntry(entries, kept[k], moved, k)
  }

  lemma MovedCarried<T>(kept: seq<nat>, status: map<nat, int>, entries: map<nat, T>)
    ensures Carried(kept, status, entries, Moved(kept, entries))
    ensures Carried(kept, status, entries, Moved(kept, OnlyDisabled(entries, status)))
  {
  }

  lemma RestShorter(n: nat, gone: set<nat>, i: nat)
    requires i < n && i in gone
    ensures |Rest(n, gone)| < n
  {
    RestFacts(n, gone);
    DistinctMissing(Rest(n, gone), n, i);
  }

  lemma KeepsSurvivors(json: Json, ch: Channel, after: Channel, gone: set<nat>)
    requires Keeps(json, ch, after, Rest(|KeysOf(json, ch.key)|, gone))
    ensures KeysOf(json, after.key) == Survivors(KeysOf(json, ch.key), gone)
  {
  }

  lemma SurvivorsKept(json: Json, ch: Channel, after: Channel, gone: set<nat>)
    requires KeysOf(json, after.key) == Survivors(KeysOf(json, ch.key), gone)
    requires var kept := Rest(|KeysOf(json, ch.key)|, gone);
             && after.status == MovedStatus(kept, ch.status)
             && Carried(kept, ch.status, ch.times, after.times) && Carried(kept, ch.status, ch.reasons, after.reasons)
    ensures Keeps(json, ch, after, Rest(|KeysOf(json, ch.key)|, gone))
  {
    RestFacts(|KeysOf(json, ch.key)|, gone);
  }

  /** Writing back what is left of the keys keeps it exactly when it is read back. */
  lemma RewriteExact(json: Json, ch: Channel, gone: set<nat>, i: nat, times: map<nat, int>, reasons: map<nat, string>)
    requires Bracketed(json) && i < |KeysOf(json, ch.key)| && i in gone
    requires var kept := Rest(|KeysOf(json, ch.key)|, gone);
             Carried(kept, ch.status, ch.times, times) && Carried(kept, ch.status, ch.reasons, reasons)
    ensures var keys := KeysOf(json, ch.key);
            var kept, left := Rest(|keys|, gone), Survivors(keys, gone);
            Keeps(json, ch, Save(json, ch, Join(left, '\n'), MovedStatus(kept, ch.status), times, reasons), kept)
            <==> ReadsBack(json, left)
  {
    var keys := KeysOf(json, ch.key);
    var kept, left := Rest(|keys|, gone), Survivors(keys, gone);
    var after := Save(json, ch, Join(left, '\n'), MovedStatus(kept, ch.status), times, reasons);
    RestShorter(|keys|, gone, i);
    if ReadsBack(json, left) {
      ReadBackWritten(json, left);
      SurvivorsKept(json, ch, after, gone);
    } else if Keeps(json, ch, after, kept) {
      KeepsSurvivors(json, ch, after, gone);
      assert Join(left, '\n') == [] ==> after.key == ch.key;
      StoredExact(json, left);
    }
  }

  lemma RestAfterOne(n: nat, i: nat)
    requires i < n
    ensures Rest(n, {i}) != [] <==> n > 1
  {
    RestFacts(n, {i});
    var kept := Rest(n, {i});
    assert kept != [] ==> kept[0] in kept;
    if n > 1 {
      var other: nat := if i == 0 then 1 else 0;
      assert other in kept;
    }
  }

  /** Exactly key `i` is gone; each other key keeps its status. */
  ghost predicate Removed(json: Json, before: Channel, after: Channel, i: nat) {
    var n := |KeysOf(json, before.key)|;
    i < n && Keeps(json, before, after, Rest(n, {i}))
  }

  /** Deleting a key, whatever size is recorded: an index the handler accepts is removed, and
      nothing else, exactly when there is such a key, it is not the only one, and the others are
      read back. */
  lemma DeleteKeyExact(json: Json, ch: Channel, i: nat)
    requires Bracketed(json) && i < ch.size
    ensures var keys := KeysOf(json, ch.key);
            Removed(json, ch, DeleteKey(json, ch, i), i) <==>
              i < |keys| && |keys| > 1 && ReadsBack(json, Survivors(keys, {i}))
  {
    var n := |KeysOf(json, ch.key)|;
    if i < n {
      var kept := Rest(n, {i});
      RestAfterOne(n, i);
      if n > 1 {
        MovedCarried(kept, ch.status, ch.times);
        MovedCarried(kept, ch.status, ch.reasons);
        RewriteExact(json, ch, {i}, i, Moved(kept, ch.times), Moved(kept, ch.reasons));
      }
    }
  }

  lemma {:induction false} RestOfAll(n: nat, gone: set<nat>)
    requires forall i: nat :: i < n ==> i !in gone
    ensures |Rest(n, gone)| == n && forall k: nat :: k < n ==> Rest(n, gone)[k] == k
  {
    if n > 0 { RestOfAll(n - 1, gone); }
  }

  /** An index that the recorded size admits and no key has: the handler saves all the keys and
      reports success, and nothing is deleted, exactly when the keys are read back at all or
      there is no text to write. */
  lemma NothingDeleted(json: Json, ch: Channel, i: nat)
    requires Bracketed(json) && |KeysOf(json, ch.key)| <= i < ch.size && KeysOf(json, ch.key) != []
    ensures Writes(json, ch, DoDelete(i))
    ensures var keys := KeysOf(json, ch.key);
            KeysOf(json, DeleteKey(json, ch, i).key) == keys <==> ReadsBack(json, keys) || Join(keys, '\n') == []
  {
    var keys := KeysOf(json, ch.key);
    RestOfAll(|keys|, {i});
    assert Survivors(keys, {i}) == keys;
    if Join(keys, '\n') != [] { StoredExact(json, keys); }
  }

  /** Deleting the automatically disabled keys, whatever size is recorded, leaves exactly the
      others, exactly when these are read back; in particular there must be others. */
  lemma DeleteAutoExact(json: Json, ch: Channel)
    requires Bracketed(json) && AutoDisabled(|KeysOf(json, ch.key)|, ch.status) != {}
    ensures var n := |KeysOf(json, ch.key)|;
            var gone := AutoDisabled(n, ch.status);
            Keeps(json, ch, DeleteAuto(json, ch), Rest(n, gone)) <==> ReadsBack(json, Survivors(KeysOf(json, ch.key), gone))
  {
    var n := |KeysOf(json, ch.key)|;
    var gone := AutoDisabled(n, ch.status);
    var kept := Rest(n, gone);
    var i :| i in gone;
    MovedCarried(kept, ch.status, ch.times);
    MovedCarried(kept, ch.status, ch.reasons);
    RewriteExact(json, ch, gone, i, Moved(kept, OnlyDisabled(ch.times, ch.status)), Moved(kept, OnlyDisabled(ch.reasons, ch.status)));
  }

  lemma SurvivorTidy(keys: seq<string>, gone: set<nat>, j: nat)
    requires AllTidy(keys) && j < |keys| && j !in gone
    ensures Survivors(keys, gone) != [] && AllTidy(Survivors(keys, gone))
  {
    RestFacts(|keys|, gone);
    assert j in Rest(|keys|, gone);
    PickTidy(keys, Rest(|keys|, gone));
  }

  lemma KeptNote(json: Json, before: Channel, after: Channel, kept: seq<nat>, k: nat)
    requires Keeps(json, before, after, kept) && k < |kept|
    ensures StatusAt(before.status, kept[k]) != ENABLED ==> NoteAt(after, k) == NoteAt(before, kept[k])
  {
  }

  /** Key `j` of the channel before is key `k` of the channel after, with its status, and if it is
      disabled with its time and reason. */
  predicate Same(json: Json, before: Channel, j: nat, after: Channel, k: nat) {
    var was, now := KeysOf(json, before.key), KeysOf(json, after.key);
    && j < |was| && k < |now| && was[j] == now[k] && StatusAt(before.status, j) == StatusAt(after.status, k)
    && (StatusAt(before.status, j) != ENABLED ==> NoteAt(before, j) == NoteAt(after, k))
  }

  /** No key is automatically disabled, and key `j` is still there. */
  ghost predicate CleanedUp(json: Json, before: Channel, after: Channel, j: nat) {
    && (forall k: nat :: k < |KeysOf(json, after.key)| ==> StatusAt(after.status, k) != AUTO_DISABLED)
    && (exists k: nat :: Same(json, before, j, after, k))
  }

  /** If the keys are tidy and one is left, then after the deletion no key is automatically
      disabled, and each key that was not is still there. */
  lemma NoneAutoDisabledLeft(json: Json, ch: Channel, i: nat, j: nat)
    requires Bracketed(json) && AllTidy(KeysOf(json, ch.key))
    requires i < |KeysOf(json, ch.key)| && StatusAt(ch.status, i) == AUTO_DISABLED
    requires j < |KeysOf(json, ch.key)| && StatusAt(ch.status, j) != AUTO_DISABLED
    ensures CleanedUp(json, ch, DeleteAuto(json, ch), j)
  {
    DeleteAutoKeeps(json, ch, i, j);
    NoneLeft(json, ch, DeleteAuto(json, ch), j);
  }

  lemma DeleteAutoKeeps(json: Json, ch: Channel, i: nat, j: nat)
    requires Bracketed(json) && AllTidy(KeysOf(json, ch.key))
    requires i < |KeysOf(json, ch.key)| && StatusAt(ch.status, i) == AUTO_DISABLED
    requires j < |KeysOf(json, ch.key)| && StatusAt(ch.status, j) != AUTO_DISABLED
    ensures var n := |KeysOf(json, ch.key)|; Keeps(json, ch, DeleteAuto(json, ch), Rest(n, AutoDisabled(n, ch.status)))
  {
    var keys := KeysOf(json, ch.key);
    var gone := AutoDisabled(|keys|, ch.status);
    assert i in gone;
    SurvivorTidy(keys, gone, j);
    TidyReadsBack(json, Survivors(keys, gone));
    DeleteAutoExact(json, ch);
  }

  lemma NoneLeft(json: Json, ch: Channel, after: Channel, j: nat)
    requires var n := |KeysOf(json, ch.key)|; Keeps(json, ch, after, Rest(n, AutoDisabled(n, ch.status)))
    requires j < |KeysOf(json, ch.key)| && StatusAt(ch.status, j) != AUTO_DISABLED
    ensures CleanedUp(json, ch, after, j)
  {
    var n := |KeysOf(json, ch.key)|;
    var kept := Rest(n, AutoDisabled(n, ch.status));
    RestFacts(n, AutoDisabled(n, ch.status));
    assert j in kept;
    var k: nat :| k < |kept| && kept[k] == j;
    KeptNote(json, ch, after, kept, k);
    assert Same(json, ch, j, after, k);
    forall k: nat | k < |kept| ensures StatusAt(after.status, k) != AUTO_DISABLED {
      assert kept[k] in kept;
    }
  }

  /** The keys merged with the new ones, and nothing recorded lost. */
  ghost predicate Appended(json: Json, before: Channel, after: Channel, more: seq<string>) {
    && KeysOf(json, after.key) == Merge(KeysOf(json, before.key), more) && after.size == |KeysOf(json, after.key)|
    && after.times == before.times && after.reasons == before.reasons
    && (forall k: nat :: k < after.size ==> StatusAt(after.status, k) == StatusAt(before.status, k))
  }

  /** The old keys in their places, key `j` with its note, and behind them the new names, each
      once and enabled. */
  ghost predicate Grown(json: Json, before: Channel, after: Channel, more: seq<string>, j: nat) {
    var was, now := KeysOf(json, before.key), KeysOf(json, after.key);
    && was <= now && Clean(now) && Elements(now) == Elements(was) + Names(more)
    && after.size == |now| && NoteAt(after, j) == NoteAt(before, j)
    && (forall k: nat :: |was| <= k < |now| ==> StatusAt(after.status, k) == ENABLED)
  }

  lemma AppendedKeys(json: Json, ch: Channel, more: seq<string>)
    requires KeysOf(json, ch.key) != [] && AllTidy(KeysOf(json, ch.key)) && AllTidy(Normalize(more))
    requires LooksLikeArray(ch.key) ==> ReadsAsArray(json, ch.key)
    ensures Appended(json, ch, Append(json, ch, more), more)
  {
    var keys := KeysOf(json, ch.key);
    MergedTidy(keys, more);
    MergedSome(keys, more);
    TidyReadsBack(json, Merge(keys, more));
    ReadBackWritten(json, Merge(keys, more));
  }

  lemma MergedSome(keys: seq<string>, more: seq<string>)
    requires keys != [] && AllTidy(keys)
    ensures Merge(keys, more) != []
  {
    NormalizeFacts(keys);
    assert TrimsTo(keys, keys[0]);
    assert keys[0] in Normalize(keys);
  }

  /** Appended keys come after the ones there are, which keep their places and what is recorded
      of them if they are clean; the others are new, trimmed, different and enabled. */
  lemma AppendExactly(json: Json, ch: Channel, more: seq<string>, j: nat)
    requires TidyChannel(json, ch) && Clean(KeysOf(json, ch.key)) && j < ch.size
    requires AllTidy(Normalize(more)) && (LooksLikeArray(ch.key) ==> ReadsAsArray(json, ch.key))
    ensures Grown(json, ch, Append(json, ch, more), more, j)
  {
    AppendedKeys(json, ch, more);
    GrownKeys(json, ch, Append(json, ch, more), more, j);
  }

  lemma GrownKeys(json: Json, ch: Channel, after: Channel, more: seq<string>, j: nat)
    requires Sized(json, ch) && Clean(KeysOf(json, ch.key)) && j < ch.size
    requires Appended(json, ch, after, more)
    ensures Grown(json, ch, after, more, j)
  {
    MergeFacts(KeysOf(json, ch.key), more);
    NormalizeClean(KeysOf(json, ch.key));
  }

  /** The case the handler does not foresee: the joined text is empty, so the stored keys stay,
      while their statuses are cleared. */
  lemma AllAutoDisabledComeBack(json: Json, ch: Channel)
    requires var n := |KeysOf(json, ch.key)|; n > 0 && Rest(n, AutoDisabled(n, ch.status)) == []
    ensures var after := DeleteAuto(json, ch);
            after.key == ch.key && after.size == |KeysOf(json, ch.key)| && after.status == map[]
  {
    var keys := KeysOf(json, ch.key);
    CountExact(json, ch.key);
    RestFacts(|keys|, AutoDisabled(|keys|, ch.status));
    assert 0 in AutoDisabled(|keys|, ch.status);
    assert Pick(keys, []) == [];
  }

  lemma OneLineCounted(json: Json, empty: string)
    requires EmptyArray(json, empty) && '\n' !in empty
    ensures CountKeys(json, empty) == 1 && KeysOf(json, empty) == []
  {
    assert empty[0] in empty && empty[|empty| - 1] in empty;
    TrimFacts(empty, c => c == '\n');
    SplitPlain(empty, '\n');
  }

  lemma SecondSurvives(keys: seq<string>)
    requires |keys| == 2
    ensures Rest(2, {0}) == [1] && Survivors(keys, {0}) == [keys[1]]
  {
    assert Rest(1, {0}) == [];
    assert Rest(2, {0}) == [1];
  }

  /** A list of a key and an empty array: deleting the key leaves a text that is counted as one
      key and listed as none. */
  lemma EmptyArrayLeft(json: Json, ch: Channel, empty: string)
    requires |KeysOf(json, ch.key)| == 2 && KeysOf(json, ch.key)[1] == empty && ch.size > 0
    requires EmptyArray(json, empty) && '\n' !in empty
    ensures var after := DeleteKey(json, ch, 0); after.key == empty && after.size == 1 && KeysOf(json, after.key) == []
  {
    SecondSurvives(KeysOf(json, ch.key));
    OneLineCounted(json, empty);
    assert Join([empty], '\n') == empty;
  }

  /** Such a channel has the key text "a", "[]". */
  lemma EmptyArrayText(json: Json)
    ensures KeysOf(json, "a\n[]") == ["a", "[]"]
  {
    var keys, text := ["a", "[]"], "a\n[]";
    assert keys[1..] == ["[]"];
    assert Join(keys, '\n') == text;
    TrimFacts(text, IsSpace);
    UnpackExact(keys, '\n');
  }

  /** Of tidy keys any selection is read back, so that every deletion is exact as long as a key
      is left. */
  lemma TidySurvivors(json: Json, keys: seq<string>, gone: set<nat>)
    requires Rest(|keys|, gone) != [] && AllTidy(keys)
    ensures ReadsBack(json, Survivors(keys, gone))
  {
    RestFacts(|keys|, gone);
    TidyReadsBack(json, Survivors(keys, gone));
  }

  lemma {:induction false} RestAfterFirst(n: nat)
    requires n > 1
    ensures var kept := Rest(n, {0}); kept != [] && kept[0] == 1
  {
    if n > 2 {
      RestAfterFirst(n - 1);
    } else {
      assert Rest(1, {0}) == [];
    }
  }

  /** An empty line inside the text is a key; deleting the key above it moves it to the front,
      where reading drops it, and the later keys lose their statuses to their neighbours. */
  lemma BlankKeyShifts(json: Json, ch: Channel)
    requires Bracketed(json) && ch.size > 0 && |KeysOf(json, ch.key)| > 1 && KeysOf(json, ch.key)[1] == []
    ensures !Removed(json, ch, DeleteKey(json, ch, 0), 0)
  {
    RestAfterFirst(|KeysOf(json, ch.key)|);
    DeleteKeyExact(json, ch, 0);
    assert Survivors(KeysOf(json, ch.key), {0})[0] == [];
  }

  /** A text with such a key. */
  lemma BlankKeyText(json: Json)
    ensures KeysOf(json, "a\n\nb") == ["a", "", "b"]
  {
    var keys, text := ["a", "", "b"], "a\n\nb";
    assert keys[1..] == ["", "b"] && keys[1..][1..] == ["b"];
    assert Join(keys[1..], '\n') == "\nb";
    assert Join(keys, '\n') == text;
    TrimFacts(text, IsSpace);
    UnpackExact(keys, '\n');
  }

  // ---------- appending ----------

  /** The merged list has no duplicates and is the old keys plus the new ones; the old keys keep
      their places, so that the untouched index maps still describe them, if and only if they were
      trimmed, non-empty and distinct. */
  lemma AppendExact(keys: seq<string>, more: seq<string>)
    ensures Distinct(Merge(keys, more)) && Elements(Merge(keys, more)) == Names(keys) + Names(more)
    ensures keys <= Merge(keys, more) <==> Clean(keys)
  {
    MergeFacts(keys, more);
    if Clean(keys) { NormalizeClean(keys); }
    if keys <= Merge(keys, more) {
      var merged := Merge(keys, more);
      assert forall i :: 0 <= i < |keys| ==> keys[i] == merged[i];
    }
  }

  /** Appending stores the merged list exactly when that list is read back, or there was and is
      no key at all. */
  lemma AppendStored(json: Json, ch: Channel, more: seq<string>)
    requires Bracketed(json) && Writes(json, ch, DoAppend(more))
    ensures var after, merged := Append(json, ch, more), Merge(KeysOf(json, ch.key), more);
            KeysOf(json, after.key) == merged <==>
              ReadsBack(json, merged) || (merged == [] && EmptyArray(json, ch.key))
  {
    var merged := Merge(KeysOf(json, ch.key), more);
    if Join(merged, '\n') != [] {
      StoredExact(json, merged);
    } else {
      NothingMerged(KeysOf(json, ch.key), more);
    }
  }

  /** Then no status is lost exactly when all status indices refer to merged keys. */
  lemma AppendKeepsStatus(json: Json, ch: Channel, more: seq<string>)
    requires Writes(json, ch, DoAppend(more)) && ReadsBack(json, Merge(KeysOf(json, ch.key), more))
    ensures Append(json, ch, more).status == ch.status <==> InRange(ch.status, |Merge(KeysOf(json, ch.key), more)|)
  {
    ReadBackWritten(json, Merge(KeysOf(json, ch.key), more));
  }

  /** A merged list has no empty names, so that its text is empty only if it is. */
  lemma NothingMerged(keys: seq<string>, more: seq<string>)
    requires Join(Merge(keys, more), '\n') == []
    ensures Merge(keys, more) == []
  {
    MergeFacts(keys, more);
    var merged := Merge(keys, more);
    if merged != [] { JoinEnds(merged, '\n'); }
  }
}
