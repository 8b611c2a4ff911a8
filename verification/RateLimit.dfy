/**
 The in-memory sliding-window rate limiter (common/rate-limit.go): a queue of at most `max`
 accepted times per key, and a sweeper that drops idle keys. Times are Unix seconds read under
 the limiter's mutex, so each request and each sweep is one atomic step.
 */
module RateLimit {

  type Store = map<string, seq<int>>

  ghost predicate Queues(store: Store) {
    forall k :: k in store ==> |store[k]| > 0
  }

  predicate Accepts(store: Store, key: string, max: nat, window: int, now: int) {
    key !in store || |store[key]| < max || (|store[key]| > 0 && now - store[key][0] >= window)
  }

  function Requested(store: Store, key: string, max: nat, window: int, now: int): Store {
    if !Accepts(store, key, max, window, now) then store
    else if key !in store then store[key := [now]]
    else if |store[key]| < max then store[key := store[key] + [now]]
    else store[key := store[key][1..] + [now]]
  }

  predicate Idle(queue: seq<int>, now: int, expiry: int) {
    |queue| == 0 || now - queue[|queue| - 1] > expiry
  }

  function Swept(store: Store, now: int, expiry: int): Store {
    map k | k in store && !Idle(store[k], now, expiry) :: store[k]
  }

  class Limiter {
    var store: Store
    const expiry: int

    constructor (expiry: int)
      ensures this.expiry == expiry && store == map[]
    {
      this.expiry := expiry;
      store := map[];
    }

    /** Lines 45-70. */
    method Request(key: string, max: nat, window: int, now: int) returns (ok: bool)
      requires Queues(store)
      modifies this
      ensures Queues(store)
      ensures ok == Accepts(old(store), key, max, window, now)
      ensures store == Requested(old(store), key, max, window, now)
    {
      if key in store {
        var queue := store[key];
        if |queue| < max {
          store := store[key := queue + [now]];
          return true;
        } else if now - queue[0] >= window {
          queue := queue[1..];
          store := store[key := queue + [now]];
          return true;
        } else {
          return false;
        }
      } else {
        store := store[key := [now]];
      }
      return true;
    }

    /** Lines 33-39: one pass of the sweeper. */
    method Sweep(now: int)
      requires Queues(store)
      modifies this
      ensures Queues(store) && store == Swept(old(store), now, expiry)
    {
      var keys := store.Keys;
      while keys != {}
        invariant keys <= store.Keys <= old(store).Keys && Queues(store)
        invariant forall k :: k in store ==> store[k] == old(store)[k]
        invariant forall k :: k in old(store) && k !in keys ==> (k in store <==> !Idle(old(store)[k], now, expiry))
        invariant forall k :: k in keys ==> k in store
        decreases keys
      {
        var key :| key in keys;
        keys := keys - {key};
        if Idle(store[key], now, expiry) {
          store := map k | k in store && k != key :: store[k];
        }
      }
    }
  }

  // ---------- runs ----------

  datatype Event = Ask(key: string, max: nat, window: int, now: int) | Clean(now: int)

  function Step(store: Store, e: Event, expiry: int): Store {
    match e
    case Ask(key, max, window, now) => Requested(store, key, max, window, now)
    case Clean(now) => Swept(store, now, expiry)
  }

  function Run(events: seq<Event>, expiry: int): Store {
    if events == [] then map[]
    else Step(Run(events[..|events| - 1], expiry), events[|events| - 1], expiry)
  }

  /** The unbounded log: every accepted time of one key. */
  function Log(events: seq<Event>, key: string, expiry: int): seq<int> {
    if events == [] then []
    else
      var front, e := events[..|events| - 1], events[|events| - 1];
      if e.Ask? && e.key == key && Accepts(Run(front, expiry), key, e.max, e.window, e.now)
      then Log(front, key, expiry) + [e.now]
      else Log(front, key, expiry)
  }

  /** How many logged times are later than `since`. */
  function Later(log: seq<int>, since: int): nat {
    if log == [] then 0
    else Later(log[..|log| - 1], since) + if log[|log| - 1] > since then 1 else 0
  }

  /** The clock does not go back, ends by `now`, and `key` is always asked with one limit. Other
      keys are free. */
  ghost predicate Proper(events: seq<Event>, key: string, max: nat, window: int, now: int) {
    && (forall i, j :: 0 <= i < j < |events| ==> events[i].now <= events[j].now)
    && (forall i :: 0 <= i < |events| ==> events[i].now <= now)
    && (forall i :: 0 <= i < |events| && events[i].Ask? && events[i].key == key ==>
          events[i].max == max && events[i].window == window)
  }

  ghost predicate Sorted(log: seq<int>, now: int) {
    && (forall i, j :: 0 <= i < j < |log| ==> log[i] <= log[j])
    && (forall i :: 0 <= i < |log| ==> log[i] <= now)
  }

  function QueueOf(store: Store, key: string): seq<int> {
    if key in store then store[key] else []
  }

  /** The queue is the tail of the log, no longer than the limit; what it forgot is older than
      the window. */
  ghost predicate Tracks(queue: seq<int>, log: seq<int>, max: nat, window: int, now: int) {
    && Sorted(log, now)
    && |queue| <= |log| && queue == log[|log| - |queue|..]
    && |queue| <= max
    && (forall i :: 0 <= i < |log| - |queue| ==> now - log[i] >= window)
  }

  lemma {:induction false} LaterSplit(a: seq<int>, b: seq<int>, since: int)
    ensures Later(a + b, since) == Later(a, since) + Later(b, since)
  {
    if b == [] {
      assert a + b == a;
    } else {
      LaterSplit(a, b[..|b| - 1], since);
      assert (a + b)[..|a + b| - 1] == a + b[..|b| - 1];
    }
  }

  lemma {:induction false} LaterBounds(log: seq<int>, since: int)
    ensures Later(log, since) <= |log|
    ensures (forall i :: 0 <= i < |log| ==> log[i] <= since) ==> Later(log, since) == 0
    ensures (forall i :: 0 <= i < |log| ==> log[i] > since) ==> Later(log, since) == |log|
  {
    if log != [] { LaterBounds(log[..|log| - 1], since); }
  }

  /** In a sorted log everything from a late entry on is late. */
  lemma {:induction false} LateFrom(log: seq<int>, i: nat, since: int)
    requires i < |log| && forall j, k :: 0 <= j < k < |log| ==> log[j] <= log[k]
    ensures log[i] > since ==> Later(log, since) >= |log| - i
    ensures log[i] <= since ==> Later(log, since) < |log|
  {
    var n := |log| - 1;
    if i < n { LateFrom(log[..n], i, since); }
    LaterBounds(log[..n], since);
  }

  /** What the queue forgot does not count. */
  lemma TrackedCount(queue: seq<int>, log: seq<int>, max: nat, window: int, now: int)
    requires Tracks(queue, log, max, window, now)
    ensures Later(log, now - window) == Later(queue, now - window)
  {
    var past := log[..|log| - |queue|];
    assert log == past + queue;
    LaterSplit(past, queue, now - window);
    assert forall i :: 0 <= i < |past| ==> past[i] == log[i] && now - log[i] >= window;
    LaterBounds(past, now - window);
  }

  lemma TrackedSorted(queue: seq<int>, log: seq<int>, max: nat, window: int, now: int)
    requires Tracks(queue, log, max, window, now)
    ensures forall j, k :: 0 <= j < k < |queue| ==> queue[j] <= queue[k]
  {
  }

  /** With the queue tracking the log, the bounded decision is the unbounded one. */
  lemma TrackedDecision(queue: seq<int>, log: seq<int>, max: nat, window: int, now: int)
    requires Tracks(queue, log, max, window, now) && max >= 1
    ensures (|queue| < max || now - queue[0] >= window) <==> Later(log, now - window) < max
  {
    TrackedCount(queue, log, max, window, now);
    LaterBounds(queue, now - window);
    if |queue| > 0 {
      TrackedSorted(queue, log, max, window, now);
      LateFrom(queue, 0, now - window);
    }
  }

  lemma TrackLater(queue: seq<int>, log: seq<int>, max: nat, window: int, t: int, now: int)
    requires Tracks(queue, log, max, window, t) && t <= now
    ensures Tracks(queue, log, max, window, now)
  {
  }

  lemma TrackAccept(queue: seq<int>, log: seq<int>, max: nat, window: int, now: int)
    requires Tracks(queue, log, max, window, now) && max >= 1
    requires |queue| < max || now - queue[0] >= window
    ensures Tracks((if |queue| < max then queue else queue[1..]) + [now], log + [now], max, window, now)
  {
    var queue' := (if |queue| < max then queue else queue[1..]) + [now];
    var log' := log + [now];
    assert queue' == log'[|log'| - |queue'|..];
  }

  /** Forgetting a whole idle queue forgets nothing within the window. */
  lemma TrackSweep(queue: seq<int>, log: seq<int>, max: nat, window: int, now: int, expiry: int)
    requires Tracks(queue, log, max, window, now) && max >= 1 && window <= expiry + 1
    requires Idle(queue, now, expiry)
    ensures Tracks([], log, max, window, now)
  {
    if |queue| > 0 {
      assert queue[|queue| - 1] == log[|log| - 1];
    }
  }

  /** What one event does to the queue of one key. */
  lemma QueueAfter(store: Store, e: Event, key: string, expiry: int)
    requires Queues(store)
    ensures Queues(Step(store, e, expiry))
    ensures var queue, queue' := QueueOf(store, key), QueueOf(Step(store, e, expiry), key);
            match e
            case Clean(now) => queue' == if Idle(queue, now, expiry) then [] else queue
            case Ask(k, max, window, now) =>
              if k != key || !Accepts(store, key, max, window, now) then queue' == queue
              else queue' == (if |queue| == 0 || |queue| < max then queue else queue[1..]) + [now]
  {
  }

  lemma StepTracks(store: Store, log: seq<int>, e: Event, key: string, max: nat, window: int, expiry: int)
    requires Tracks(QueueOf(store, key), log, max, window, e.now) && max >= 1 && window <= expiry + 1
    requires e.Ask? && e.key == key ==> e.max == max && e.window == window
    requires Queues(store)
    ensures var log' := if e.Ask? && e.key == key && Accepts(store, key, max, window, e.now) then log + [e.now] else log;
            Tracks(QueueOf(Step(store, e, expiry), key), log', max, window, e.now)
  {
    var queue := QueueOf(store, key);
    QueueAfter(store, e, key, expiry);
    match e
    case Clean(now) => if Idle(queue, now, expiry) { TrackSweep(queue, log, max, window, now, expiry); }
    case Ask(k, _, _, now) =>
      if k == key && Accepts(store, key, max, window, now) {
        TrackAccept(queue, log, max, window, now);
      }
  }

  /** In every run the queue of a key tracks its log, across sweeps and other keys' requests. */
  lemma {:induction false} QueueTracksLog(events: seq<Event>, key: string, max: nat, window: int, now: int, expiry: int)
    requires Proper(events, key, max, window, now) && max >= 1 && window <= expiry + 1
    ensures Tracks(QueueOf(Run(events, expiry), key), Log(events, key, expiry), max, window, now)
    ensures Queues(Run(events, expiry))
  {
    if events != [] {
      var front, e := events[..|events| - 1], events[|events| - 1];
      QueueTracksLog(front, key, max, window, e.now, expiry);
      QueueAfter(Run(front, expiry), e, key, expiry);
      StepTracks(Run(front, expiry), Log(front, key, expiry), e, key, max, window, expiry);
      TrackLater(QueueOf(Run(events, expiry), key), Log(events, key, expiry), max, window, e.now, now);
    }
  }

  ghost predicate Agrees(events: seq<Event>, key: string, max: nat, window: int, now: int, expiry: int) {
    Accepts(Run(events, expiry), key, max, window, now) <==> Later(Log(events, key, expiry), now - window) < max
  }

  /** The limiter accepts exactly when the unbounded log has fewer than `max` accepts within the
      window. */
  lemma LimiterMatchesLog(events: seq<Event>, key: string, max: nat, window: int, now: int, expiry: int)
    requires Proper(events, key, max, window, now) && max >= 1 && window <= expiry + 1
    ensures Agrees(events, key, max, window, now, expiry)
  {
    QueueTracksLog(events, key, max, window, now, expiry);
    TrackedDecision(QueueOf(Run(events, expiry), key), Log(events, key, expiry), max, window, now);
  }

  /** An accepted time comes at least one window after the accept `max` places before it. */
  lemma AcceptSpaced(events: seq<Event>, key: string, max: nat, window: int, now: int, expiry: int, i: nat)
    requires Proper(events, key, max, window, now) && max >= 1 && window <= expiry + 1
    requires Accepts(Run(events, expiry), key, max, window, now) && i + max == |Log(events, key, expiry)|
    ensures now - Log(events, key, expiry)[i] >= window
  {
    LimiterMatchesLog(events, key, max, window, now, expiry);
    QueueTracksLog(events, key, max, window, now, expiry);
    LateFrom(Log(events, key, expiry), i, now - window);
  }

  /** So the (i + max)-th accept is at least one window after the i-th, per key. */
  lemma {:induction false} AcceptsAreSpaced(events: seq<Event>, key: string, max: nat, window: int, now: int, expiry: int, i: nat)
    requires Proper(events, key, max, window, now) && max >= 1 && window <= expiry + 1
    requires i + max < |Log(events, key, expiry)|
    ensures Log(events, key, expiry)[i + max] - Log(events, key, expiry)[i] >= window
  {
    var front, e := events[..|events| - 1], events[|events| - 1];
    assert Proper(front, key, max, window, e.now);
    if i + max < |Log(front, key, expiry)| {
      AcceptsAreSpaced(front, key, max, window, e.now, expiry, i);
    } else {
      AcceptSpaced(front, key, max, window, e.now, expiry, i);
    }
  }

  // ---------- the bounds are needed ----------

  function Zeros(n: nat): seq<int> {
    if n == 0 then [] else Zeros(n - 1) + [0]
  }

  function Burst(key: string, max: nat, window: int, n: nat): seq<Event> {
    if n == 0 then [] else Burst(key, max, window, n - 1) + [Ask(key, max, window, 0)]
  }

  lemma {:induction false} ZerosFacts(n: nat)
    ensures |Zeros(n)| == n && forall i :: 0 <= i < n ==> Zeros(n)[i] == 0
  {
    if n > 0 { ZerosFacts(n - 1); }
  }

  lemma {:induction false} BurstEvents(key: string, max: nat, window: int, n: nat)
    ensures var events := Burst(key, max, window, n);
            |events| == n && forall i :: 0 <= i < n ==> events[i] == Ask(key, max, window, 0)
  {
    if n > 0 { BurstEvents(key, max, window, n - 1); }
  }

  lemma OneMore(store: Store, key: string, max: nat, window: int, n: nat, expiry: int)
    requires Queues(store) && QueueOf(store, key) == Zeros(n) && n < max
    ensures var store' := Step(store, Ask(key, max, window, 0), expiry);
            Accepts(store, key, max, window, 0) && Queues(store') && QueueOf(store', key) == Zeros(n + 1)
  {
    ZerosFacts(n);
    QueueAfter(store, Ask(key, max, window, 0), key, expiry);
  }

  /** Up to the limit, simultaneous requests are all accepted and queued. */
  lemma {:induction false} BurstAccepted(key: string, max: nat, window: int, n: nat, expiry: int)
    requires n <= max
    ensures var events := Burst(key, max, window, n);
            && Log(events, key, expiry) == Zeros(n)
            && QueueOf(Run(events, expiry), key) == Zeros(n)
            && Queues(Run(events, expiry))
  {
    if n > 0 {
      BurstAccepted(key, max, window, n - 1, expiry);
      var events, front := Burst(key, max, window, n), Burst(key, max, window, n - 1);
      assert events[..|events| - 1] == front && events[|events| - 1] == Ask(key, max, window, 0);
      OneMore(Run(front, expiry), key, max, window, n - 1, expiry);
    }
  }

  /** A sweep right after the expiry forgets the burst, and the next request goes through. */
  lemma SweepForgets(key: string, max: nat, window: int, expiry: nat)
    requires max >= 1 && window > expiry + 1
    ensures !Agrees(Burst(key, max, window, max) + [Clean(expiry + 1)], key, max, window, expiry + 1, expiry)
  {
    var burst := Burst(key, max, window, max);
    var events := burst + [Clean(expiry + 1)];
    BurstAccepted(key, max, window, max, expiry);
    ZerosFacts(max);
    assert events[..|events| - 1] == burst;
    QueueAfter(Run(burst, expiry), Clean(expiry + 1), key, expiry);
    assert key !in Run(events, expiry);
    LaterBounds(Zeros(max), expiry + 1 - window);
  }

  /** Without the bounds some proper run is decided wrongly: a limit below one lets the first
      request through, and a window beyond the expiry is forgotten by a sweep. */
  lemma BoundsNeeded(key: string, max: nat, window: int, expiry: nat) returns (events: seq<Event>, now: int)
    requires max == 0 || window > expiry + 1
    ensures Proper(events, key, max, window, now) && !Agrees(events, key, max, window, now, expiry)
  {
    now := expiry + 1;
    if max == 0 {
      events := [];
    } else {
      SweepForgets(key, max, window, expiry);
      BurstEvents(key, max, window, max);
      events := Burst(key, max, window, max) + [Clean(now)];
    }
  }

  /** Exactly these limits make every proper run agree with the log. */
  lemma ExactBounds(key: string, max: nat, window: int, expiry: nat)
    ensures (forall events, now :: Proper(events, key, max, window, now) ==> Agrees(events, key, max, window, now, expiry))
            <==> max >= 1 && window <= expiry + 1
  {
    if max >= 1 && window <= expiry + 1 {
      forall events, now | Proper(events, key, max, window, now) ensures Agrees(events, key, max, window, now, expiry) {
        LimiterMatchesLog(events, key, max, window, now, expiry);
      }
    } else {
      var events, now := BoundsNeeded(key, max, window, expiry);
    }
  }
}
