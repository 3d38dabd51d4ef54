/** One subscriber's fan-out accounting: a duplicate set that forgets sequences more than a window
    below the highest one, and the two counters its loss estimate comes from. */
module FanOut {
  import opened Basics

  const WINDOW: nat := 20000

  datatype Sub = Sub(last: nat, unique: nat, seen: set<nat>, low: nat)

  const NEW := Sub(0, 0, {}, 0)

  function Below(low: nat, high: nat): set<nat> { Span(low - 1, high - 1) }

  function Pruned(s: Sub): Sub {
    if s.last > WINDOW then s.(seen := s.seen - Below(s.low, s.last - WINDOW), low := s.last - WINDOW) else s
  }

  function RecordSub(s: Sub, x: nat): Sub {
    if x in s.seen then s
    else Pruned(s.(seen := s.seen + {x}, unique := s.unique + 1, last := Max(s.last, x)))
  }

  function Missing(s: Sub): nat { Max(0, s.last - s.unique) }

  class SubTracker {
    var lastSeq: nat
    var uniqueCount: nat
    var seen: set<nat>
    var pruneLow: nat

    ghost function Abs(): Sub
      reads this
    {
      Sub(lastSeq, uniqueCount, seen, pruneLow)
    }

    ghost predicate Valid()
      reads this
    {
      pruneLow <= Max(0, lastSeq - WINDOW)
    }

    constructor ()
      ensures Valid() && Abs() == NEW
    {
      lastSeq, uniqueCount, seen, pruneLow := 0, 0, {}, 0;
    }

    method Record(x: nat) returns (dup: bool)
      requires Valid()
      modifies this
      ensures Valid() && Abs() == RecordSub(old(Abs()), x) && dup == (x in old(seen))
    {
      if x in seen { return true; }
      seen := seen + {x};
      uniqueCount := uniqueCount + 1;
      if x > lastSeq {
        lastSeq := x;
      }
      if lastSeq > WINDOW {
        var newLow := lastSeq - WINDOW;
        Prune(newLow);
        pruneLow := newLow;
      }
      return false;
    }

    method Prune(newLow: nat)
      requires pruneLow <= newLow
      modifies this`seen
      ensures seen == old(seen) - Below(pruneLow, newLow)
    {
      for k := pruneLow to newLow
        invariant seen == old(seen) - Below(pruneLow, k)
      {
        assert Below(pruneLow, k + 1) == Below(pruneLow, k) + {k};
        seen := seen - {k};
      }
    }

    method MissingCount() returns (n: nat)
      ensures n == Missing(Abs())
    {
      if lastSeq <= uniqueCount { return 0; }
      return lastSeq - uniqueCount;
    }
  }

  // ---- a whole history -----------------------------------------------------

  function RunSub(a: seq<nat>): Sub {
    if a == [] then NEW else RecordSub(RunSub(Init(a)), Last(a))
  }

  /** Sequences that arrived when they were already below the window. */
  function Late(a: seq<nat>): set<nat> {
    if a == [] then {}
    else if Last(a) < RunSub(Init(a)).low then Late(Init(a)) + {Last(a)}
    else Late(Init(a))
  }

  /** Arrivals counted as unique although their sequence had been delivered before. */
  function Recounted(a: seq<nat>): nat {
    if a == [] then 0
    else
      Recounted(Init(a)) + (if Last(a) in Init(a) && Last(a) !in RunSub(Init(a)).seen then 1 else 0)
  }

  ghost predicate Explained(s: Sub, delivered: set<nat>, late: set<nat>, recounted: nat) {
    && s.low == Max(0, s.last - WINDOW)
    && (forall x | x in delivered :: x <= s.last)
    && (s.last == 0 || s.last in delivered)
    && (forall x | x in late :: x < s.low && x in delivered)
    && s.seen == Above(delivered, s.low - 1) + late
    && s.unique == |delivered| + recounted
  }

  lemma SeenAgain(s: Sub, x: nat, delivered: set<nat>, late: set<nat>, recounted: nat)
    requires Explained(s, delivered, late, recounted) && x in s.seen
    ensures delivered + {x} == delivered && (x < s.low ==> late + {x} == late)
  {
  }

  lemma PrunedAbove(delivered: set<nat>, low: nat, newLow: nat, late: set<nat>)
    requires low <= newLow && forall y | y in late :: y < low
    ensures Above(delivered, low - 1) + late - Below(low, newLow) == Above(delivered, newLow - 1) + late
  {
  }

  lemma AddedAbove(delivered: set<nat>, low: nat, late: set<nat>, x: nat)
    ensures Above(delivered, low - 1) + late + {x} ==
            Above(delivered + {x}, low - 1) + (if x < low then late + {x} else late)
  {
  }

  lemma AddedSeen(s: Sub, x: nat, delivered: set<nat>, late: set<nat>, recounted: nat)
    requires Explained(s, delivered, late, recounted) && x !in s.seen
    ensures RecordSub(s, x).seen ==
            Above(delivered + {x}, RecordSub(s, x).low - 1) + (if x < s.low then late + {x} else late)
  {
    hide Below, Above;
    AddedAbove(delivered, s.low, late, x);
    PrunedAbove(delivered + {x}, s.low, RecordSub(s, x).low, if x < s.low then late + {x} else late);
  }

  lemma AddedCounts(s: Sub, x: nat, delivered: set<nat>, late: set<nat>, recounted: nat)
    requires Explained(s, delivered, late, recounted) && x !in s.seen
    ensures s.unique + 1 == |delivered + {x}| + recounted + (if x in delivered then 1 else 0)
  {
    assert x in delivered ==> delivered + {x} == delivered;
  }

  lemma RecordExplained(s: Sub, x: nat, delivered: set<nat>, late: set<nat>, recounted: nat)
    requires Explained(s, delivered, late, recounted)
    ensures Explained(RecordSub(s, x), delivered + {x},
                      if x < s.low then late + {x} else late,
                      recounted + (if x in delivered && x !in s.seen then 1 else 0))
  {
    hide Above, Below;
    if x in s.seen {
      SeenAgain(s, x, delivered, late, recounted);
    } else {
      AddedSeen(s, x, delivered, late, recounted);
      AddedCounts(s, x, delivered, late, recounted);
    }
  }

  lemma {:induction false} RunSubExplained(a: seq<nat>)
    ensures Explained(RunSub(a), Delivered(a), Late(a), Recounted(a))
  {
    hide Explained, RecordSub;
    if a == [] {
      NothingYet();
    } else {
      RunSubExplained(Init(a));
      RecordExplained(RunSub(Init(a)), Last(a), Delivered(Init(a)), Late(Init(a)), Recounted(Init(a)));
      assert a == Init(a) + [Last(a)];
      assert Delivered(a) == Delivered(Init(a)) + {Last(a)};
    }
  }

  lemma NothingYet()
    ensures Explained(NEW, Delivered([]), {}, 0)
  {
  }

  /** The highest sequence of a history. */
  function Highest(a: seq<nat>): nat {
    if a == [] then 0 else Max(Highest(Init(a)), Last(a))
  }

  lemma {:induction false} HighestBounds(a: seq<nat>)
    ensures forall i | 0 <= i < |a| :: a[i] <= Highest(a)
    ensures Highest(a) == 0 || Highest(a) in a
  {
    if a != [] {
      HighestBounds(Init(a));
      assert forall i | 0 <= i < |a| - 1 :: a[i] == Init(a)[i];
      assert Last(a) in a && forall x | x in Init(a) :: x in a;
    }
  }

  lemma LastIsHighest(a: seq<nat>)
    ensures RunSub(a).last == Highest(a) && RunSub(a).low == Max(0, Highest(a) - 20000)
  {
    hide RunSub, Highest;
    RunSubExplained(a);
    HighestBounds(a);
    var last := RunSub(a).last;
    if last > 0 { assert last in Delivered(a); }
    if Highest(a) > 0 { assert Highest(a) in Delivered(a); }
  }

  /** Late means more than 20000 below the highest sequence delivered before. */
  lemma {:induction false} LateExactly(a: seq<nat>, x: nat)
    ensures x in Late(a) <==> exists i :: 0 <= i < |a| && a[i] == x && x + 20000 < Highest(a[..i])
  {
    hide RunSub, Highest;
    if a != [] {
      var b, n := Init(a), |a| - 1;
      LateExactly(b, x);
      LastIsHighest(b);
      assert a[..n] == b;
      forall i | 0 <= i < n ensures a[..i] == b[..i] && a[i] == b[i] { }
      if x in Late(a) && x !in Late(b) { assert a[n] == x && x + 20000 < Highest(a[..n]); }
      if i :| 0 <= i < |b| && b[i] == x && x + 20000 < Highest(b[..i]) {
        assert a[i] == x && x + 20000 < Highest(a[..i]);
      }
    }
  }

  /** An arrival is recounted if its sequence was delivered before, has fallen out of the window and
      has not arrived late yet. */
  lemma RecountedExactly(a: seq<nat>)
    requires a != []
    ensures
      var b, x := Init(a), Last(a);
      Recounted(a) == Recounted(b) + (if x in b && x + 20000 < Highest(b) && x !in Late(b) then 1 else 0)
  {
    hide RunSub, Late, Highest;
    SubDuplicateExactly(Init(a), Last(a));
  }

  /** The duplicate answer for the next arrival: inside the window it is the unbounded answer; below
      the window, more than 20000 below the highest, only a sequence that has already arrived late
      is recognised. */
  lemma SubDuplicateExactly(a: seq<nat>, x: nat)
    ensures x + 20000 >= Highest(a) ==> (x in RunSub(a).seen <==> x in a)
    ensures x + 20000 < Highest(a) ==> (x in RunSub(a).seen <==> x in Late(a))
  {
    RunSubExplained(a);
    LastIsHighest(a);
    var s := RunSub(a);
    assert x in Above(Delivered(a), s.low - 1) <==> x in Delivered(a) && x > s.low - 1;
  }

  /** The sequences from 1 up to the highest one that never arrived. */
  function Gaps(a: seq<nat>): set<nat> { Span(0, Highest(a)) - Delivered(a) }

  lemma GapCount(last: nat, delivered: set<nat>)
    requires forall x | x in delivered :: x <= last
    ensures |Span(0, last) - delivered| == last - |delivered| + (if 0 in delivered then 1 else 0)
  {
    var positive := delivered - {0};
    SpanSize(0, last);
    assert Span(0, last) == (Span(0, last) - delivered) + positive;
    assert (Span(0, last) - delivered) !! positive;
  }

  /** The loss estimate falls short of the true loss by the recounted arrivals and by a sequence 0,
      so it is exact if and only if there were none of these or nothing is missing. */
  lemma MissingExactly(a: seq<nat>)
    ensures
      var excess := Recounted(a) + (if 0 in a then 1 else 0);
      && Missing(RunSub(a)) == Max(0, |Gaps(a)| - excess)
      && (Missing(RunSub(a)) == |Gaps(a)| <==> excess == 0 || Gaps(a) == {})
  {
    hide RunSub, Recounted, Highest;
    RunSubExplained(a);
    LastIsHighest(a);
    MissingExplained(RunSub(a), Delivered(a), Late(a), Recounted(a));
  }

  lemma MissingExplained(s: Sub, delivered: set<nat>, late: set<nat>, recounted: nat)
    requires Explained(s, delivered, late, recounted)
    ensures Missing(s) == Max(0, |Span(0, s.last) - delivered| - recounted - (if 0 in delivered then 1 else 0))
  {
    hide Above, Span;
    GapCount(s.last, delivered);
  }

  /** What is kept from the window itself is bounded; what arrived late is kept on top of it. */
  lemma MemoryBound(a: seq<nat>)
    ensures |Above(RunSub(a).seen, RunSub(a).low - 1)| <= 20001
    ensures |RunSub(a).seen| == |Above(RunSub(a).seen, RunSub(a).low - 1)| + |Late(a)|
  {
    hide RunSub, Late, Explained;
    RunSubExplained(a);
    WindowBound(RunSub(a), Delivered(a), Late(a), Recounted(a));
  }

  lemma WindowBound(s: Sub, delivered: set<nat>, late: set<nat>, recounted: nat)
    requires Explained(s, delivered, late, recounted)
    ensures |Above(s.seen, s.low - 1)| <= WINDOW + 1 && |s.seen| == |Above(s.seen, s.low - 1)| + |late|
  {
    var window := Above(s.seen, s.low - 1);
    assert window <= Span(s.low - 1, s.last) && s.seen == window + late;
    SpanSize(s.low - 1, s.last);
    Subset(window, Span(s.low - 1, s.last));
  }

  lemma Subset(a: set<nat>, b: set<nat>)
    requires a <= b
    ensures |a| <= |b|
  {
    assert b == a + (b - a);
  }

  /** So the set as a whole is not bounded: after one high sequence, n distinct late arrivals are
      all retained. */
  lemma {:induction false} LateArrivalsRetained(top: nat, n: nat)
    requires top > WINDOW + n
    ensures
      var a := [top] + seq(n, i => i + 1);
      RunSub(a).seen == Span(0, n) + {top} && RunSub(a).last == top && RunSub(a).low == top - WINDOW
    ensures |RunSub([top] + seq(n, i => i + 1)).seen| == n + 1
  {
    hide RecordSub, Span;
    var a := [top] + seq(n, i => i + 1);
    LateSize(n, top);
    if n == 0 {
      assert Init(a) == [];
      FirstHigh(top);
    } else {
      LateArrivalsRetained(top, n - 1);
      assert Init(a) == [top] + seq(n - 1, i => i + 1);
      RetainLate(RunSub(Init(a)), top, n);
    }
  }

  lemma LateSize(n: nat, top: nat)
    requires top > n
    ensures |Span(0, n) + {top}| == n + 1
  {
    SpanSize(0, n);
  }

  lemma FirstHigh(top: nat)
    requires top > WINDOW
    ensures RecordSub(NEW, top) == Sub(top, 1, Span(0, 0) + {top}, top - WINDOW)
  {
    assert Span(0, 0) == {} && {top} - Below(0, top - WINDOW) == {top};
  }

  lemma RetainLate(s: Sub, top: nat, n: nat)
    requires n > 0 && top > WINDOW + n && s.seen == Span(0, n - 1) + {top}
    requires s.last == top && s.low == top - WINDOW
    ensures RecordSub(s, n).seen == Span(0, n) + {top}
    ensures RecordSub(s, n).last == top && RecordSub(s, n).low == top - WINDOW
  {
    assert Span(0, n) == Span(0, n - 1) + {n};
    assert Below(top - WINDOW, top - WINDOW) == {};
  }
}
