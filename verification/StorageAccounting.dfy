/**
 The storage counters under concurrency (common/disk_cache_config.go, lines 108-134 and
 169-177; common/body_storage.go, lines 37-45, 65-72, 122-129, 160-166, 187-196). Every atomic
 operation is a step of its own: the availability check, each half of an increment, the
 compare-and-swap of a close, and each half of a decrement. Any number of storages interleave.
 */
module StorageAccounting {
  import opened EventRuns

  /** Admitted: past the availability check, still writing. Counted: the file count is up.
      Open: so are the bytes. Closing: the closed flag is set. Uncounted: the file count is
      down. Gone: so are the bytes, or the storage never came to be. */
  datatype Phase = Admitted | Counted | Open | Closing | Uncounted | Gone

  datatype Slot = Slot(disk: bool, declared: nat, size: nat, phase: Phase)

  /** `clamps` counts how often a disk counter had to be reset to zero. */
  datatype Sys = Sys(
    slots: seq<Slot>, diskFiles: int, diskBytes: int, memoryBuffers: int, memoryBytes: int, clamps: nat, limit: int)

  datatype Event =
    | Admit(declared: nat, size: nat)
    | Buffer(size: nat)
    | Fail(slot: nat)
    | Advance(slot: nat)

  predicate Enabled(s: Sys, e: Event) {
    match e
    case Admit(declared, _) => s.diskBytes + declared <= s.limit
    case Buffer(_) => true
    case Fail(i) => i < |s.slots| && s.slots[i].disk && s.slots[i].phase == Admitted
    case Advance(i) => i < |s.slots| && s.slots[i].phase != Gone
  }

  function Following(p: Phase): Phase {
    match p
    case Admitted => Counted
    case Counted => Open
    case Open => Closing
    case Closing => Uncounted
    case Uncounted => Gone
    case Gone => Gone
  }

  function Clamped(n: int): int {
    if n < 0 then 0 else n
  }

  /** What the step out of a phase does to the counters. Only the disk pair clamps. */
  function Counters(s: Sys, slot: Slot): Sys {
    if slot.disk then
      match slot.phase
      case Admitted => s.(diskFiles := s.diskFiles + 1)
      case Counted => s.(diskBytes := s.diskBytes + slot.size)
      case Closing =>
        s.(diskFiles := Clamped(s.diskFiles - 1), clamps := s.clamps + if s.diskFiles - 1 < 0 then 1 else 0)
      case Uncounted =>
        s.(diskBytes := Clamped(s.diskBytes - slot.size), clamps := s.clamps + if s.diskBytes - slot.size < 0 then 1 else 0)
      case _ => s
    else
      match slot.phase
      case Admitted => s.(memoryBuffers := s.memoryBuffers + 1)
      case Counted => s.(memoryBytes := s.memoryBytes + slot.size)
      case Closing => s.(memoryBuffers := s.memoryBuffers - 1)
      case Uncounted => s.(memoryBytes := s.memoryBytes - slot.size)
      case _ => s
  }

  function Next(s: Sys, e: Event): Sys
    requires Enabled(s, e)
  {
    match e
    case Admit(declared, size) => s.(slots := s.slots + [Slot(true, declared, size, Admitted)])
    case Buffer(size) => s.(slots := s.slots + [Slot(false, size, size, Admitted)])
    case Fail(i) => s.(slots := s.slots[i := s.slots[i].(phase := Gone)])
    case Advance(i) =>
      Counters(s, s.slots[i]).(slots := s.slots[i := s.slots[i].(phase := Following(s.slots[i].phase))])
  }

  // ---------- sums over slots ----------

  datatype Measure = Files(disk: bool) | Used(disk: bool) | InFlight | Flights

  function Weight(m: Measure, s: Slot): nat {
    match m
    case Files(disk) => if s.disk == disk && s.phase in {Counted, Open, Closing} then 1 else 0
    case Used(disk) => if s.disk == disk && s.phase in {Open, Closing, Uncounted} then s.size else 0
    case InFlight => if s.disk && s.phase in {Admitted, Counted} then s.declared else 0
    case Flights => if s.disk && s.phase in {Admitted, Counted} then 1 else 0
  }

  function Total(m: Measure, slots: seq<Slot>): nat {
    if slots == [] then 0 else Total(m, slots[..|slots| - 1]) + Weight(m, slots[|slots| - 1])
  }

  lemma {:induction false} TotalUpdate(m: Measure, slots: seq<Slot>, i: nat, x: Slot)
    requires i < |slots|
    ensures Total(m, slots[i := x]) == Total(m, slots) - Weight(m, slots[i]) + Weight(m, x)
    ensures Total(m, slots) >= Weight(m, slots[i])
  {
    var n := |slots| - 1;
    if i < n {
      TotalUpdate(m, slots[..n], i, x);
      assert slots[i := x][..n] == slots[..n][i := x];
    } else {
      assert slots[i := x][..n] == slots[..n];
    }
  }

  lemma TotalAppend(m: Measure, slots: seq<Slot>, x: Slot)
    ensures Total(m, slots + [x]) == Total(m, slots) + Weight(m, x)
  {
    assert (slots + [x])[..|slots + [x]| - 1] == slots;
  }

  // ---------- accounting ----------

  ghost predicate Accounted(s: Sys) {
    && s.diskFiles == Total(Files(true), s.slots) && s.diskBytes == Total(Used(true), s.slots)
    && s.memoryBuffers == Total(Files(false), s.slots) && s.memoryBytes == Total(Used(false), s.slots)
    && s.clamps == 0
  }

  lemma AdvanceTotals(s: Sys, i: nat, m: Measure)
    requires i < |s.slots|
    ensures var slot := s.slots[i];
            Total(m, s.slots[i := slot.(phase := Following(slot.phase))])
              == Total(m, s.slots) - Weight(m, slot) + Weight(m, slot.(phase := Following(slot.phase)))
    ensures Total(m, s.slots) >= Weight(m, s.slots[i])
  {
    TotalUpdate(m, s.slots, i, s.slots[i].(phase := Following(s.slots[i].phase)));
  }

  lemma AdvanceKeepsAccounts(s: Sys, i: nat)
    requires Accounted(s) && Enabled(s, Advance(i))
    ensures Accounted(Next(s, Advance(i)))
  {
    AdvanceTotals(s, i, Files(true));
    AdvanceTotals(s, i, Used(true));
    AdvanceTotals(s, i, Files(false));
    AdvanceTotals(s, i, Used(false));
  }

  lemma NewSlotKeepsAccounts(s: Sys, slot: Slot)
    requires Accounted(s) && slot.phase == Admitted
    ensures Accounted(s.(slots := s.slots + [slot]))
  {
    TotalAppend(Files(true), s.slots, slot);
    TotalAppend(Used(true), s.slots, slot);
    TotalAppend(Files(false), s.slots, slot);
    TotalAppend(Used(false), s.slots, slot);
  }

  lemma FailKeepsAccounts(s: Sys, i: nat)
    requires Accounted(s) && Enabled(s, Fail(i))
    ensures Accounted(Next(s, Fail(i)))
  {
    var gone := s.slots[i].(phase := Gone);
    TotalUpdate(Files(true), s.slots, i, gone);
    TotalUpdate(Used(true), s.slots, i, gone);
    TotalUpdate(Files(false), s.slots, i, gone);
    TotalUpdate(Used(false), s.slots, i, gone);
  }

  /** Every atomic step keeps the counters equal to what the storages contribute, and no
      decrement ever goes below zero. */
  lemma StepKeepsAccounts(s: Sys, e: Event)
    requires Accounted(s) && Enabled(s, e)
    ensures Accounted(Next(s, e))
  {
    match e
    case Advance(i) => AdvanceKeepsAccounts(s, i);
    case Fail(i) => FailKeepsAccounts(s, i);
    case Admit(declared, size) => NewSlotKeepsAccounts(s, Slot(true, declared, size, Admitted));
    case Buffer(size) => NewSlotKeepsAccounts(s, Slot(false, size, size, Admitted));
  }

  ghost function AnyTime(): (Sys, Event) -> bool {
    (s: Sys, e: Event) => Enabled(s, e)
  }

  function Move(): (Sys, Event) -> Sys {
    (s: Sys, e: Event) => if Enabled(s, e) then Next(s, e) else s
  }

  function Result(s: Sys, events: seq<Event>): Sys {
    After(Move(), s, events)
  }

  /** Every interleaving keeps the accounts, and the limit. */
  lemma {:induction false} AccountsHold(s: Sys, events: seq<Event>)
    requires Runs(AnyTime(), Move(), s, events) && Accounted(s)
    ensures Accounted(Result(s, events)) && Result(s, events).limit == s.limit
    decreases |events|
  {
    if events != [] {
      StepKeepsAccounts(s, events[0]);
      AccountsHold(Next(s, events[0]), events[1..]);
    }
  }

  /** The sizes of the open storages of one kind. */
  function OpenSizes(slots: seq<Slot>, disk: bool): seq<nat> {
    if slots == [] then []
    else
      var s := slots[|slots| - 1];
      OpenSizes(slots[..|slots| - 1], disk) + if s.disk == disk && s.phase == Open then [s.size] else []
  }

  function SumOf(sizes: seq<nat>): nat {
    if sizes == [] then 0 else SumOf(sizes[..|sizes| - 1]) + sizes[|sizes| - 1]
  }

  /** No storage is between two steps of an operation. */
  ghost predicate QuietPoint(slots: seq<Slot>) {
    forall i :: 0 <= i < |slots| ==> slots[i].phase == Open || slots[i].phase == Gone
  }

  lemma {:induction false} QuietTotals(slots: seq<Slot>, disk: bool)
    requires QuietPoint(slots)
    ensures Total(Files(disk), slots) == |OpenSizes(slots, disk)|
    ensures Total(Used(disk), slots) == SumOf(OpenSizes(slots, disk))
  {
    if slots != [] {
      var front := slots[..|slots| - 1];
      QuietTotals(front, disk);
      var sizes := OpenSizes(front, disk);
      var x := slots[|slots| - 1].size;
      assert (sizes + [x])[..|sizes + [x]| - 1] == sizes && sizes + [] == sizes;
    }
  }

  /** In every interleaving each counter pair is, at every quiet point, the number and total size
      of the open storages, and the clamp has never fired. */
  lemma QuietCounters(s: Sys, events: seq<Event>)
    requires Runs(AnyTime(), Move(), s, events) && Accounted(s) && QuietPoint(Result(s, events).slots)
    ensures var t := Result(s, events);
            && t.diskFiles == |OpenSizes(t.slots, true)| && t.diskBytes == SumOf(OpenSizes(t.slots, true))
            && t.memoryBuffers == |OpenSizes(t.slots, false)| && t.memoryBytes == SumOf(OpenSizes(t.slots, false))
            && t.clamps == 0
  {
    AccountsHold(s, events);
    QuietTotals(Result(s, events).slots, true);
    QuietTotals(Result(s, events).slots, false);
  }

  // ---------- admission ----------

  /** Disk storages write no more than they declared, and declare at most `bound`. */
  ghost predicate Honest(slots: seq<Slot>, bound: nat) {
    forall i :: 0 <= i < |slots| && slots[i].disk ==> slots[i].size <= slots[i].declared <= bound
  }

  predicate HonestEvent(e: Event, bound: nat) {
    e.Admit? ==> e.size <= e.declared <= bound
  }

  function InTheAir(s: Sys): nat {
    Total(Flights, s.slots)
  }

  ghost function May(k: nat, bound: nat): (Sys, Event) -> bool {
    (s: Sys, e: Event) => InTheAir(s) <= k && Enabled(s, e) && HonestEvent(e, bound)
  }

  /** A run in which all admissions are honest and at most `k` are in flight at any time. */
  ghost predicate Throttled(s: Sys, events: seq<Event>, k: nat, bound: nat) {
    Runs(May(k, bound), Move(), s, events) && InTheAir(Result(s, events)) <= k
  }

  lemma {:induction false} ThrottledRuns(s: Sys, events: seq<Event>, k: nat, bound: nat)
    requires Runs(May(k, bound), Move(), s, events)
    ensures Runs(AnyTime(), Move(), s, events)
    decreases |events|
  {
    if events != [] { ThrottledRuns(Next(s, events[0]), events[1..], k, bound); }
  }

  lemma ThrottledTail(s: Sys, events: seq<Event>, k: nat, bound: nat)
    requires Throttled(s, events, k, bound) && events != []
    ensures var t := Next(s, events[0]);
            && Throttled(t, events[1..], k, bound) && Result(t, events[1..]) == Result(s, events) && InTheAir(t) <= k
  {
    var t, rest := Next(s, events[0]), events[1..];
    assert Runs(May(k, bound), Move(), t, rest);
    if rest != [] { assert May(k, bound)(t, rest[0]); }
  }

  lemma {:induction false} FlightBytes(slots: seq<Slot>, bound: nat)
    requires Honest(slots, bound)
    ensures Total(InFlight, slots) <= Total(Flights, slots) * bound
  {
    if slots != [] {
      var front := slots[..|slots| - 1];
      FlightBytes(front, bound);
      assert (Total(Flights, front) + 1) * bound == Total(Flights, front) * bound + bound;
    }
  }

  /** Used and announced bytes together exceed the limit by at most one announcement less than
      the admissions in flight. */
  ghost predicate Bounded(s: Sys, k: nat, bound: nat) {
    s.diskBytes + Total(InFlight, s.slots) <= s.limit + (k - 1) * bound
  }

  lemma AdmitBounded(s: Sys, declared: nat, size: nat, k: nat, bound: nat)
    requires Honest(s.slots, bound) && declared <= bound && Enabled(s, Admit(declared, size))
    requires Total(Flights, s.slots) + 1 <= k
    ensures Bounded(Next(s, Admit(declared, size)), k, bound)
  {
    TotalAppend(InFlight, s.slots, Slot(true, declared, size, Admitted));
    FlightBytes(s.slots, bound);
    TimesMonotone(Total(Flights, s.slots), k - 1, bound);
  }

  lemma TimesMonotone(a: nat, b: int, c: nat)
    requires a <= b
    ensures a * c <= b * c
  {
  }

  lemma StepBounded(s: Sys, e: Event, k: nat, bound: nat)
    requires Accounted(s) && Enabled(s, e) && k >= 1
    requires Honest(s.slots, bound) && HonestEvent(e, bound) && Bounded(s, k, bound)
    requires Total(Flights, Next(s, e).slots) <= k
    ensures Bounded(Next(s, e), k, bound) && Honest(Next(s, e).slots, bound)
  {
    match e
    case Admit(declared, size) =>
      TotalAppend(Flights, s.slots, Slot(true, declared, size, Admitted));
      AdmitBounded(s, declared, size, k, bound);
    case Buffer(size) => TotalAppend(InFlight, s.slots, Slot(false, size, size, Admitted));
    case Fail(i) => TotalUpdate(InFlight, s.slots, i, s.slots[i].(phase := Gone));
    case Advance(i) =>
      AdvanceTotals(s, i, InFlight);
      AdvanceTotals(s, i, Used(true));
  }

  /** A system that has stored nothing yet. */
  function Fresh(limit: nat): Sys {
    Sys([], 0, 0, 0, 0, 0, limit)
  }

  lemma FreshBounded(limit: nat, k: nat, bound: nat)
    requires k >= 1
    ensures Accounted(Fresh(limit)) && Bounded(Fresh(limit), k, bound) && Honest(Fresh(limit).slots, bound)
  {
    TimesMonotone(0, k - 1, bound);
  }

  /** From a state within the bound, with at most `k` honest admissions in flight at a time, usage
      plus announced bytes never exceeds limit + (k - 1) * bound. */
  lemma {:induction false} AdmissionBound(s: Sys, events: seq<Event>, k: nat, bound: nat)
    requires Throttled(s, events, k, bound) && k >= 1
    requires Accounted(s) && Honest(s.slots, bound) && Bounded(s, k, bound)
    ensures Bounded(Result(s, events), k, bound)
    decreases |events|
  {
    if events != [] {
      ThrottledTail(s, events, k, bound);
      StepBounded(s, events[0], k, bound);
      StepKeepsAccounts(s, events[0]);
      AdmissionBound(Next(s, events[0]), events[1..], k, bound);
    }
  }

  /** No admission passes the check with more than the limit. */
  lemma {:induction false} WithinLimitAnyway(s: Sys, events: seq<Event>, k: nat, bound: nat)
    requires Throttled(s, events, k, bound) && Accounted(s) && s.limit >= 0
    ensures Throttled(s, events, k, Least(bound, s.limit))
    decreases |events|
  {
    if events != [] {
      ThrottledTail(s, events, k, bound);
      StepKeepsAccounts(s, events[0]);
      WithinLimitAnyway(Next(s, events[0]), events[1..], k, bound);
    }
  }

  function Least(a: nat, b: nat): nat {
    if a < b then a else b
  }

  // ---------- the bound is reached ----------

  /** A throttled run from `s` that ends in `t`. */
  ghost predicate Reaches(s: Sys, events: seq<Event>, t: Sys, k: nat, bound: nat) {
    Runs(May(k, bound), Move(), s, events) && Result(s, events) == t
  }

  lemma Before(s: Sys, e: Event, rest: seq<Event>, t: Sys, k: nat, bound: nat)
    requires Enabled(s, e) && InTheAir(s) <= k && HonestEvent(e, bound) && Reaches(Next(s, e), rest, t, k, bound)
    ensures Reaches(s, [e] + rest, t, k, bound)
  {
    First(May(k, bound), Move(), s, e, rest);
  }

  lemma Join(s: Sys, a: seq<Event>, t: Sys, b: seq<Event>, u: Sys, k: nat, bound: nat)
    requires Reaches(s, a, t, k, bound) && Reaches(t, b, u, k, bound)
    ensures Reaches(s, a + b, u, k, bound)
  {
    Concat(May(k, bound), Move(), s, a, b);
  }

  /** Slot `i` is an admission of `size` bytes in flight. */
  ghost predicate Waiting(s: Sys, i: nat, size: nat) {
    i < |s.slots| && s.slots[i] == Slot(true, size, size, Admitted)
  }

  /** Landing one admission adds its bytes and touches no other slot. */
  lemma Land(s: Sys, i: nat, size: nat, k: nat, bound: nat) returns (events: seq<Event>, t: Sys)
    requires Waiting(s, i, size) && InTheAir(s) <= k
    ensures Reaches(s, events, t, k, bound)
    ensures t.diskBytes == s.diskBytes + size && t.limit == s.limit && InTheAir(t) == InTheAir(s) - 1
    ensures t.slots == s.slots[i := s.slots[i].(phase := Open)]
  {
    var e := Advance(i);
    var s1 := Next(s, e);
    AdvanceTotals(s, i, Flights);
    t := Next(s1, e);
    AdvanceTotals(s1, i, Flights);
    assert t.slots == s.slots[i := s.slots[i].(phase := Open)];
    assert Reaches(t, [], t, k, bound);
    Before(s1, e, [], t, k, bound);
    Before(s, e, [e] + [], t, k, bound);
    events := [e] + ([e] + []);
  }

  lemma Check(s: Sys, size: nat)
    requires s.diskBytes + size <= s.limit
    ensures var t := Next(s, Admit(size, size));
            InTheAir(t) == InTheAir(s) + 1 && t == s.(slots := s.slots + [Slot(true, size, size, Admitted)])
  {
    var slot := Slot(true, size, size, Admitted);
    assert Weight(Flights, slot) == 1;
    TotalAppend(Flights, s.slots, slot);
  }

  /** One storage after the other brings usage up to any target within the limit. */
  lemma {:induction false} Fill(s: Sys, target: nat, k: nat, bound: nat) returns (events: seq<Event>, t: Sys)
    requires 0 <= s.diskBytes <= target <= s.limit && InTheAir(s) == 0 && k >= 1 && bound >= 1
    ensures Reaches(s, events, t, k, bound)
    ensures t.diskBytes == target && t.limit == s.limit && InTheAir(t) == 0
    decreases target - s.diskBytes
  {
    if s.diskBytes == target {
      events, t := [], s;
    } else {
      var size := Least(bound, target - s.diskBytes);
      var e := Admit(size, size);
      Check(s, size);
      var s1 := Next(s, e);
      var landing, s2 := Land(s1, |s.slots|, size, k, bound);
      var rest;
      rest, t := Fill(s2, target, k, bound);
      Join(s1, landing, s2, rest, t, k, bound);
      Before(s, e, landing + rest, t, k, bound);
      events := [e] + (landing + rest);
    }
  }

  lemma Grow(m: nat, size: nat)
    requires m >= 1
    ensures m * size == (m - 1) * size + size
  {
  }

  /** `m` checks before any increment, and then all the increments: the slots there were stay as
      they are. */
  lemma {:induction false} Overlap(s: Sys, m: nat, size: nat, k: nat, bound: nat) returns (events: seq<Event>, t: Sys)
    requires s.diskBytes + size <= s.limit && size <= bound && InTheAir(s) + m <= k
    ensures Reaches(s, events, t, k, bound)
    ensures t.diskBytes == s.diskBytes + m * size && InTheAir(t) == InTheAir(s) && s.slots <= t.slots
    decreases m
  {
    if m == 0 {
      events, t := [], s;
    } else {
      var e := Admit(size, size);
      Check(s, size);
      var s1 := Next(s, e);
      var inner, s2 := Overlap(s1, m - 1, size, k, bound);
      assert s2.slots[|s.slots|] == s1.slots[|s.slots|];
      var landing;
      landing, t := Land(s2, |s.slots|, size, k, bound);
      Join(s1, inner, s2, landing, t, k, bound);
      Before(s, e, inner + landing, t, k, bound);
      events := [e] + (inner + landing);
      Grow(m, size);
      KeepsPrefix(s.slots, s1.slots, s2.slots, s2.slots[|s.slots|].(phase := Open));
    }
  }

  lemma KeepsPrefix(a: seq<Slot>, b: seq<Slot>, c: seq<Slot>, x: Slot)
    requires a < b <= c
    ensures a <= c[|a| := x]
  {
  }

  /** With `k` admissions in flight usage reaches limit + (k - 1) * bound: fill up to one bound
      below the limit, then let `k` checks pass before any of them is counted. */
  lemma Overshoot(limit: nat, k: nat, bound: nat) returns (events: seq<Event>)
    requires k >= 1 && 1 <= bound <= limit
    ensures Throttled(Fresh(limit), events, k, bound)
    ensures Result(Fresh(limit), events).diskBytes == limit + (k - 1) * bound
  {
    var s := Fresh(limit);
    var filling, s1 := Fill(s, limit - bound, k, bound);
    var burst, t := Overlap(s1, k, bound, k, bound);
    Join(s, filling, s1, burst, t, k, bound);
    events := filling + burst;
    Grow(k, bound);
  }

  lemma {:induction false} LooserBound(s: Sys, events: seq<Event>, k: nat, l: nat, a: nat, b: nat)
    requires Throttled(s, events, k, a) && k <= l && a <= b
    ensures Throttled(s, events, l, b)
    decreases |events|
  {
    if events != [] {
      ThrottledTail(s, events, k, a);
      LooserBound(Next(s, events[0]), events[1..], k, l, a, b);
    }
  }

  /** Usage over every throttled run stays within `cap`. */
  ghost predicate NeverAbove(limit: nat, k: nat, bound: nat, cap: int) {
    forall events :: Throttled(Fresh(limit), events, k, bound) ==> Result(Fresh(limit), events).diskBytes <= cap
  }

  /** The peak of usage, for any limit and any bound on the size of an admission. */
  lemma PeakBound(limit: nat, k: nat, bound: nat)
    requires k >= 1
    ensures NeverAbove(limit, k, bound, limit + (k - 1) * Least(bound, limit))
  {
    var b := Least(bound, limit);
    forall events | Throttled(Fresh(limit), events, k, bound)
      ensures Result(Fresh(limit), events).diskBytes <= limit + (k - 1) * b
    {
      FreshBounded(limit, k, b);
      WithinLimitAnyway(Fresh(limit), events, k, bound);
      AdmissionBound(Fresh(limit), events, k, b);
      ThrottledRuns(Fresh(limit), events, k, bound);
      AccountsHold(Fresh(limit), events);
    }
  }

  lemma Exceeded(limit: nat, k: nat, bound: nat)
    requires k >= 2 && bound >= 1 && limit >= 1
    ensures !NeverAbove(limit, k, bound, limit)
  {
    var b := Least(bound, limit);
    var events := Overshoot(limit, k, b);
    LooserBound(Fresh(limit), events, k, k, b, bound);
    TimesMonotone(1, k - 1, b);
  }

  lemma Kept(limit: nat, k: nat, bound: nat)
    requires k <= 1 || bound == 0 || limit == 0
    ensures NeverAbove(limit, k, bound, limit)
  {
    var l := if k == 0 then 1 else k;
    PeakBound(limit, l, bound);
    assert (l - 1) * Least(bound, limit) == 0;
    forall events | Throttled(Fresh(limit), events, k, bound)
      ensures Result(Fresh(limit), events).diskBytes <= limit
    {
      LooserBound(Fresh(limit), events, k, l, bound, bound);
    }
  }

  /** Exactly when the limit is a limit: as soon as admissions may overlap, usage exceeds it on
      some run, unless nothing of any size can be admitted. */
  lemma LimitHoldsExactly(limit: nat, k: nat, bound: nat)
    ensures NeverAbove(limit, k, bound, limit) <==> k <= 1 || bound == 0 || limit == 0
  {
    if k <= 1 || bound == 0 || limit == 0 { Kept(limit, k, bound); } else { Exceeded(limit, k, bound); }
  }
}
