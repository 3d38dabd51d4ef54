/** Optional values, sequences that grow at their end, ranges and sums. */
module Basics {

  datatype Option<+T> = None | Some(value: T)

  function Init<T>(a: seq<T>): seq<T>
    requires a != []
  {
    a[..|a| - 1]
  }

  function Last<T>(a: seq<T>): T
    requires a != []
  {
    a[|a| - 1]
  }

  function Max(a: int, b: int): int { if a < b then b else a }

  function Min(a: int, b: int): int { if a < b then a else b }

  predicate Within(lo: int, x: int, hi: int) { lo < x <= hi }

  /** The naturals x with lo < x <= hi. */
  function Span(lo: int, hi: int): set<nat> {
    set x: nat | lo < x <= hi && Within(lo, x, hi)
  }

  /** The members above a bound. */
  function Above(s: set<nat>, low: int): set<nat> {
    set x | x in s && x > low
  }

  lemma {:induction false} SpanSize(lo: int, hi: int)
    requires -1 <= lo
    ensures |Span(lo, hi)| == Max(0, hi - lo)
    decreases hi - lo
  {
    if lo < hi {
      SpanSize(lo, hi - 1);
      assert Span(lo, hi) == Span(lo, hi - 1) + {hi};
    } else {
      assert Span(lo, hi) == {};
    }
  }

  /** The numbers that occur in a history. */
  function Delivered(a: seq<nat>): set<nat> { set s | s in a }

  /** A number summed over the values of a map, in whatever order they are visited. */
  ghost function Sum<K(!new), V>(m: map<K, V>, f: V -> nat): nat {
    if m == map[] then 0
    else
      var k :| k in m;
      f(m[k]) + Sum(m - {k}, f)
  }

  lemma {:induction false} SumWithout<K(!new), V>(m: map<K, V>, f: V -> nat, k: K)
    requires k in m
    ensures Sum(m, f) == f(m[k]) + Sum(m - {k}, f)
    decreases |m|
  {
    var first :| first in m && Sum(m, f) == f(m[first]) + Sum(m - {first}, f);
    if first != k {
      SumWithout(m - {first}, f, k);
      SumWithout(m - {k}, f, first);
      assert m - {first} - {k} == m - {k} - {first};
    }
  }

  lemma {:induction false} SumPositive<K(!new), V>(m: map<K, V>, f: V -> nat)
    ensures Sum(m, f) > 0 <==> exists k :: k in m && f(m[k]) > 0
    decreases |m|
  {
    if m != map[] {
      var k :| k in m;
      SumWithout(m, f, k);
      SumPositive(m - {k}, f);
      assert forall j | j in m && j != k :: j in m - {k} && (m - {k})[j] == m[j];
      if j :| j in m - {k} && f((m - {k})[j]) > 0 {
        assert j in m && f(m[j]) > 0;
      }
    }
  }
}
