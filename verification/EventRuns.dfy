/** Runs of any transition system: `may` says whether an event can happen, `move` what it does. */
module EventRuns {

  /** The events can happen one after the other. */
  ghost predicate Runs<S, E>(may: (S, E) -> bool, move: (S, E) -> S, s: S, events: seq<E>)
    decreases |events|
  {
    events == [] || (may(s, events[0]) && Runs(may, move, move(s, events[0]), events[1..]))
  }

  function After<S, E>(move: (S, E) -> S, s: S, events: seq<E>): S
    decreases |events|
  {
    if events == [] then s else After(move, move(s, events[0]), events[1..])
  }

  lemma First<S, E>(may: (S, E) -> bool, move: (S, E) -> S, s: S, e: E, rest: seq<E>)
    requires may(s, e) && Runs(may, move, move(s, e), rest)
    ensures Runs(may, move, s, [e] + rest) && After(move, s, [e] + rest) == After(move, move(s, e), rest)
  {
    assert ([e] + rest)[1..] == rest;
  }

  lemma {:induction false} Concat<S, E>(may: (S, E) -> bool, move: (S, E) -> S, s: S, a: seq<E>, b: seq<E>)
    requires Runs(may, move, s, a) && Runs(may, move, After(move, s, a), b)
    ensures Runs(may, move, s, a + b) && After(move, s, a + b) == After(move, After(move, s, a), b)
    decreases |a|
  {
    if a == [] {
      assert a + b == b;
    } else {
      Concat(may, move, move(s, a[0]), a[1..], b);
      First(may, move, s, a[0], a[1..] + b);
      assert a + b == [a[0]] + (a[1..] + b);
    }
  }

  // ---------- what holds throughout ----------

  /** `inv` holds in every state. */
  ghost predicate Always<S, E>(move: (S, E) -> S, inv: S -> bool, s: S, events: seq<E>)
    decreases |events|
  {
    inv(s) && (events != [] ==> Always(move, inv, move(s, events[0]), events[1..]))
  }

  /** `good` holds of every event, in the state in which it happens. */
  ghost predicate EachStep<S, E>(move: (S, E) -> S, good: (S, E) -> bool, s: S, events: seq<E>)
    decreases |events|
  {
    events == [] || (good(s, events[0]) && EachStep(move, good, move(s, events[0]), events[1..]))
  }

  /** A good event is one that keeps `inv`. */
  ghost predicate Exact<S(!new), E(!new)>(may: (S, E) -> bool, move: (S, E) -> S, inv: S -> bool, good: (S, E) -> bool) {
    forall s, e :: inv(s) && may(s, e) ==> (inv(move(s, e)) <==> good(s, e))
  }

  /** Then `inv` holds throughout a run exactly when every event of it is good. */
  lemma {:induction false} AlwaysExactly<S(!new), E(!new)>(may: (S, E) -> bool, move: (S, E) -> S, inv: S -> bool,
                                                           good: (S, E) -> bool, s: S, events: seq<E>)
    requires Exact(may, move, inv, good) && Runs(may, move, s, events) && inv(s)
    ensures Always(move, inv, s, events) <==> EachStep(move, good, s, events)
    decreases |events|
  {
    if events != [] && inv(move(s, events[0])) {
      AlwaysExactly(may, move, inv, good, move(s, events[0]), events[1..]);
    }
  }
}
