/** Counting facts about finite sets of numbers and duplicate-free sequences. */
module Counting {

  function Range(n: nat): set<nat> {
    if n == 0 then {} else Range(n - 1) + {n - 1}
  }

  lemma {:induction false} SizeOfRange(n: nat)
    ensures |Range(n)| == n
    ensures forall i: nat :: i in Range(n) <==> i < n
  {
    if n > 0 { SizeOfRange(n - 1); }
  }

  lemma {:induction false} SubsetAtMost<T>(a: set<T>, b: set<T>)
    requires a <= b
    ensures |a| <= |b|
  {
    if a != {} {
      var x :| x in a;
      SubsetAtMost(a - {x}, b - {x});
    }
  }

  predicate Distinct<T(==)>(xs: seq<T>) {
    forall k, l :: 0 <= k < l < |xs| ==> xs[k] != xs[l]
  }

  function Elements<T>(xs: seq<T>): set<T> {
    set x | x in xs
  }

  lemma {:induction false} DistinctSize<T>(xs: seq<T>)
    requires Distinct(xs)
    ensures |Elements(xs)| == |xs|
  {
    if xs != [] {
      var m := |xs| - 1;
      DistinctSize(xs[..m]);
      assert xs == xs[..m] + [xs[m]];
      assert Elements(xs) == Elements(xs[..m]) + {xs[m]};
      assert xs[m] !in Elements(xs[..m]);
    }
  }

  /** Distinct numbers below `n` that miss one of them are fewer than `n`. */
  lemma DistinctMissing(xs: seq<nat>, n: nat, i: nat)
    requires Distinct(xs) && forall k :: 0 <= k < |xs| ==> xs[k] < n
    requires i < n && i !in xs
    ensures |xs| < n
  {
    DistinctSize(xs);
    SizeOfRange(n);
    SubsetAtMost(Elements(xs), Range(n) - {i});
  }

  lemma {:induction false} Least(s: set<nat>) returns (m: nat)
    requires s != {}
    ensures m in s && forall x :: x in s ==> m <= x
  {
    var a :| a in s;
    m := a;
    if s - {a} != {} {
      var n := Least(s - {a});
      if n < m { m := n; }
    }
    assert forall x :: x in s ==> x == a || x in s - {a};
  }

  lemma LeastExists(s: set<nat>)
    requires s != {}
    ensures exists m :: m in s && forall x :: x in s ==> m <= x
  {
    var m := Least(s);
  }

  function MinOf(s: set<nat>): (m: nat)
    requires s != {}
    ensures m in s && forall x :: x in s ==> m <= x
  {
    LeastExists(s);
    var m :| m in s && forall x :: x in s ==> m <= x;
    m
  }

  predicate Ascending(xs: seq<nat>) {
    forall k, l :: 0 <= k < l < |xs| ==> xs[k] < xs[l]
  }
}
