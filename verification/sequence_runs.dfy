/** What every run of arrivals of one producer satisfies. */
module SequenceRuns {
  import opened Basics
  import opened SequenceSpec

  // ---- the invariant of every run -----------------------------------------

  /** The shape of a producer record between two calls. */
  ghost predicate Shape(w: nat, p: Producer) {
    && p.first <= p.high
    && (forall x | x in p.marked :: p.high + 1 < x <= p.high + w)
    && (forall x | x in p.pending :: p.first < x <= p.high)
  }

  lemma RecordKeepsShape(w: nat, p: Producer, s: nat)
    requires w >= 1 && Shape(w, p)
    ensures Shape(w, Record(w, p, s))
    ensures p.high <= Record(w, p, s).high && Record(w, p, s).first == p.first
  {
  }

  /** The record is determined by the outside view: which sequences had an accepted arrival,
      which ones a slide swept and which ones a slide skipped. */
  ghost predicate Explained(w: nat, p: Producer, accepted: set<nat>, swept: set<nat>, skipped: set<nat>) {
    && Shape(w, p)
    && p.marked == Above(accepted, p.high)
    && p.pending == swept - accepted
    && Span(p.first - 1, p.high) <= accepted + swept + skipped
    && swept + skipped <= Span(p.first, p.high)
    && swept !! skipped
  }

  lemma LowArrivalExplained(w: nat, p: Producer, s: nat, acc: set<nat>, swept: set<nat>, skipped: set<nat>)
    requires w >= 1 && Explained(w, p, acc, swept, skipped) && s <= p.high
    ensures Explained(w, Record(w, p, s), acc + {s}, swept, skipped)
  {
  }

  lemma AdvanceExplained(w: nat, p: Producer, acc: set<nat>, swept: set<nat>, skipped: set<nat>)
    requires w >= 1
    requires p.first <= p.high && p.marked <= Span(p.high, p.high + w) && p.pending <= Span(p.first, p.high)
    requires p.marked == Above(acc, p.high)
    requires p.pending == swept - acc
    requires Span(p.first - 1, p.high) <= acc + swept + skipped
    requires swept + skipped <= Span(p.first, p.high) && swept !! skipped
    ensures Explained(w, Advance(p), acc, swept, skipped)
  {
    var h := Contiguous(p.high, p.marked);
    forall x | x in Span(p.first - 1, h) ensures x in acc + swept + skipped {
      if x > p.high { assert x in Span(p.high, h); } else { assert x in Span(p.first - 1, p.high); }
    }
  }

  lemma MarkExplained(w: nat, p: Producer, s: nat, acc: set<nat>, swept: set<nat>, skipped: set<nat>)
    requires w >= 1 && Explained(w, p, acc, swept, skipped) && p.high < s <= p.high + w
    ensures Explained(w, Record(w, p, s), acc + {s}, swept, skipped)
  {
    if s !in p.marked {
      AdvanceExplained(w, Tick(p, s).(marked := p.marked + {s}), acc + {s}, swept, skipped);
    }
  }

  lemma SlideExplained(w: nat, p: Producer, s: nat, acc: set<nat>, swept: set<nat>, skipped: set<nat>)
    requires w >= 1 && Explained(w, p, acc, swept, skipped) && SlidePath(w, p, s)
    ensures Explained(w, Record(w, p, s), acc, swept + SweptBy(w, p, s), skipped + SkippedBy(w, p, s))
  {
    forall x | x in Span(p.first - 1, s - w - 1)
      ensures x in acc + (swept + SweptBy(w, p, s)) + (skipped + SkippedBy(w, p, s))
    {
      assert x in Span(p.first - 1, p.high) || x in SweptBy(w, p, s) || x in SkippedBy(w, p, s);
    }
    AdvanceExplained(w, Sweep(w, Tick(p, s), s), acc, swept + SweptBy(w, p, s), skipped + SkippedBy(w, p, s));
  }

  lemma RecordExplained(w: nat, p: Producer, s: nat, acc: set<nat>, swept: set<nat>, skipped: set<nat>)
    requires w >= 1 && Explained(w, p, acc, swept, skipped)
    ensures if SlidePath(w, p, s)
            then Explained(w, Record(w, p, s), acc, swept + SweptBy(w, p, s), skipped + SkippedBy(w, p, s))
            else Explained(w, Record(w, p, s), acc + {s}, swept, skipped)
  {
    if s <= p.high {
      LowArrivalExplained(w, p, s, acc, swept, skipped);
    } else if SlidePath(w, p, s) {
      SlideExplained(w, p, s, acc, swept, skipped);
    } else {
      MarkExplained(w, p, s, acc, swept, skipped);
    }
  }

  lemma {:induction false} RunExplained(w: nat, a: seq<nat>)
    requires w >= 1 && a != []
    ensures Run(w, a).first == a[0]
    ensures Explained(w, Run(w, a), Accepted(w, a), Swept(w, a), Skipped(w, a))
    decreases |a|
  {
    var b := Init(a);
    if |a| > 1 {
      hide Explained, Record;
      RunExplained(w, b);
      RecordExplained(w, Run(w, b), Last(a), Accepted(w, b), Swept(w, b), Skipped(w, b));
      assert Swept(w, b) + {} == Swept(w, b) && Skipped(w, b) + {} == Skipped(w, b);
      assert Accepted(w, b) + {} == Accepted(w, b);
    } else {
      assert Accepted(w, b) == Swept(w, b) == Skipped(w, b) == {};
    }
  }

  // ---- exact loss ----------------------------------------------------------

  lemma SlidAtPrefix(w: nat, a: seq<nat>)
    requires a != []
    ensures SlidAt(w, a, |a| - 1) == Slid(w, a)
    ensures forall i | 0 <= i < |a| - 1 :: SlidAt(w, a, i) == SlidAt(w, Init(a), i)
  {
    assert a[..|a|] == a;
    forall i | 0 <= i < |a| - 1 ensures SlidAt(w, a, i) == SlidAt(w, Init(a), i) {
      assert a[..i + 1] == Init(a)[..i + 1];
    }
  }

  lemma {:induction false} AcceptedByIndex(w: nat, a: seq<nat>, s: nat)
    ensures s in Accepted(w, a) <==> exists i :: 0 <= i < |a| && a[i] == s && !SlidAt(w, a, i)
  {
    if a != [] {
      var b := Init(a);
      AcceptedByIndex(w, b, s);
      SlidAtPrefix(w, a);
    }
  }

  /** A sequence is counted lost exactly when a slide evicted it and every arrival of it, if there
      was any, took the slide path. */
  lemma LossIsExact(w: nat, a: seq<nat>, s: nat)
    requires w >= 1 && a != []
    ensures s in Run(w, a).pending <==>
            s in Swept(w, a) && forall i | 0 <= i < |a| && a[i] == s :: SlidAt(w, a, i)
  {
    RunExplained(w, a);
    AcceptedByIndex(w, a, s);
  }

  /** No slide evicts a sequence that an earlier slide evicted or skipped, and the watermark never
      falls: each sequence becomes a suspected loss at most once. */
  lemma SweptOnce(w: nat, a: seq<nat>)
    requires w >= 1 && |a| > 1
    ensures NewlySwept(w, a) !! Swept(w, Init(a)) + Skipped(w, Init(a))
    ensures Run(w, Init(a)).high <= Run(w, a).high
  {
    RunExplained(w, Init(a));
    RecordKeepsShape(w, Run(w, Init(a)), Last(a));
  }

  lemma PassedExplained(w: nat, p: Producer, s: nat, acc: set<nat>, swept: set<nat>, skipped: set<nat>)
    requires w >= 1 && Explained(w, p, acc, swept, skipped) && p.first <= s <= p.high && s !in acc
    ensures s in p.pending <==> s !in skipped
  {
    assert s in Span(p.first - 1, p.high);
  }

  /** A never-delivered sequence the watermark has passed is missing from the count exactly when a
      slide longer than the window skipped it. */
  lemma TrueLossMissedExactly(w: nat, a: seq<nat>, s: nat)
    requires w >= 1 && a != []
    requires s !in Delivered(a) && a[0] <= s <= Run(w, a).high
    ensures s in Run(w, a).pending <==> s !in Skipped(w, a)
  {
    assert s !in Accepted(w, a) by { AcceptedByIndex(w, a, s); }
    RunExplained(w, a);
    PassedExplained(w, Run(w, a), s, Accepted(w, a), Swept(w, a), Skipped(w, a));
  }

  lemma DuplicateExplained(w: nat, p: Producer, s: nat, acc: set<nat>, swept: set<nat>, skipped: set<nat>)
    requires w >= 1 && Explained(w, p, acc, swept, skipped)
    ensures IsDuplicate(w, p, s) <==> s < p.first || s in skipped || s in acc
  {
    if p.first <= s <= p.high {
      assert s in Span(p.first - 1, p.high);
    } else if s > p.high {
      assert s in acc <==> s in p.marked;
    }
  }

  /** The duplicate answer for the next arrival, from the history alone: below the first sequence,
      skipped by a slide, or accepted before. */
  lemma DuplicateExactly(w: nat, a: seq<nat>, s: nat)
    requires w >= 1 && a != []
    ensures IsDuplicate(w, Run(w, a), s) <==>
            s < a[0] || s in Skipped(w, a) || s in Accepted(w, a)
  {
    RunExplained(w, a);
    DuplicateExplained(w, Run(w, a), s, Accepted(w, a), Swept(w, a), Skipped(w, a));
  }

  // ---- the counters --------------------------------------------------------

  /** Arrivals lower than the one before them. */
  function Descents(a: seq<nat>): nat {
    if |a| < 2 then 0 else Descents(Init(a)) + (if Last(a) < Last(Init(a)) then 1 else 0)
  }

  /** Arrivals below the first one, skipped by an earlier slide, or accepted before. */
  function Repeats(w: nat, a: seq<nat>): nat {
    if |a| < 2 then 0
    else
      var b, s := Init(a), Last(a);
      Repeats(w, b) + (if s < a[0] || s in Skipped(w, b) || s in Accepted(w, b) then 1 else 0)
  }

  lemma RecordCounters(w: nat, p: Producer, s: nat)
    ensures
      var r := Record(w, p, s);
      && r.received == p.received + 1 && r.lastSeen == s
      && r.outOfOrder == p.outOfOrder + (if s < p.lastSeen then 1 else 0)
      && r.duplicates == p.duplicates + (if IsDuplicate(w, p, s) then 1 else 0)
  {
  }

  /** Every counter is a count over the arrival history. */
  lemma {:induction false} CountersFromHistory(w: nat, a: seq<nat>)
    requires w >= 1 && a != []
    ensures
      var p := Run(w, a);
      p.received == |a| && p.lastSeen == Last(a) && p.outOfOrder == Descents(a) && p.duplicates == Repeats(w, a)
    decreases |a|
  {
    hide Record, IsDuplicate;
    if |a| > 1 {
      CountersFromHistory(w, Init(a));
      RecordCounters(w, Run(w, Init(a)), Last(a));
      DuplicateExactly(w, Init(a), Last(a));
    }
  }

  // ---- conservation --------------------------------------------------------

  lemma EvictionSizes(marked: set<nat>, swept: set<nat>, pending: set<nat>)
    requires pending !! swept
    ensures |marked - swept| == |marked| - |swept * marked|
    ensures |pending + (swept - marked)| == |pending| + |swept| - |swept * marked|
  {
    assert marked == (marked - swept) + (swept * marked);
    assert swept == (swept - marked) + (swept * marked);
  }

  /** What arrivals account for equals the ground the watermark and the window cover. */
  ghost predicate Balanced(p: Producer, slides: nat, skipped: nat) {
    p.received - p.duplicates - slides + |p.pending| + skipped == p.high - p.first + 1 + |p.marked|
  }

  lemma AdvanceBalanced(p: Producer, slides: nat, skipped: nat)
    requires forall x | x in p.marked :: x > p.high
    requires Balanced(p, slides, skipped)
    ensures Balanced(Advance(p), slides, skipped)
  {
    var h := Contiguous(p.high, p.marked);
    SpanSize(p.high, h);
    assert p.marked == Span(p.high, h) + Above(p.marked, h);
  }

  lemma SweepSizes(w: nat, p: Producer, s: nat)
    requires w >= 1 && Shape(w, p) && SlidePath(w, p, s)
    ensures |Sweep(w, p, s).pending| - |p.pending| + |p.marked| - |Sweep(w, p, s).marked|
            == s - w - 1 - p.high - |SkippedBy(w, p, s)|
  {
    var q, swept := Sweep(w, p, s), SweptBy(w, p, s);
    SpanSize(p.high, Min(p.high + w, q.high));
    SpanSize(p.high + w, q.high);
    assert q.marked == p.marked - swept;
    assert p.pending !! swept;
    hide Span;
    EvictionSizes(p.marked, swept, p.pending);
  }

  lemma SlideBalanced(w: nat, p: Producer, s: nat, slides: nat, skipped: nat)
    requires w >= 1 && Shape(w, p) && SlidePath(w, p, s) && Balanced(p, slides, skipped)
    ensures Balanced(Advance(Sweep(w, p, s)), slides, skipped + |SkippedBy(w, p, s)|)
  {
    SweepSizes(w, p, s);
    AdvanceBalanced(Sweep(w, p, s), slides, skipped + |SkippedBy(w, p, s)|);
  }

  lemma MarkBalanced(w: nat, p: Producer, s: nat, slides: nat, skipped: nat)
    requires Shape(w, p) && p.high < s <= p.high + w && Balanced(p, slides, skipped)
    ensures Balanced(Record(w, p, s), slides, skipped)
  {
    if s !in p.marked {
      AdvanceBalanced(Tick(p, s).(marked := p.marked + {s}), slides, skipped);
    }
  }

  lemma LowBalanced(w: nat, p: Producer, s: nat, slides: nat, skipped: nat)
    requires s <= p.high && Balanced(p, slides, skipped)
    ensures Balanced(Record(w, p, s), slides, skipped)
  {
    var r := Record(w, p, s);
    assert r.marked == p.marked && r.high == p.high && r.first == p.first;
    if s in p.pending {
      assert |r.pending| == |p.pending| - 1;
    } else {
      assert r.pending == p.pending;
    }
  }

  lemma RecordBalanced(w: nat, p: Producer, s: nat, slides: nat, skipped: nat)
    requires w >= 1 && Shape(w, p) && Balanced(p, slides, skipped)
    ensures if SlidePath(w, p, s) then Balanced(Record(w, p, s), slides + 1, skipped + |SkippedBy(w, p, s)|)
            else Balanced(Record(w, p, s), slides, skipped)
  {
    hide Sweep, Advance;
    if SlidePath(w, p, s) {
      SlideBalanced(w, Tick(p, s), s, slides + 1, skipped);
    } else if s > p.high {
      MarkBalanced(w, p, s, slides, skipped);
    } else {
      LowBalanced(w, p, s, slides, skipped);
    }
  }

  lemma SkippedGrows(w: nat, a: seq<nat>)
    requires w >= 1 && |a| > 1
    ensures |Skipped(w, a)| == |Skipped(w, Init(a))| + |NewlySkipped(w, a)|
  {
    RunExplained(w, Init(a));
    assert NewlySkipped(w, a) !! Skipped(w, Init(a));
  }

  /** Conservation over every run. */
  lemma {:induction false} Conservation(w: nat, a: seq<nat>)
    requires w >= 1 && a != []
    ensures Balanced(Run(w, a), Slides(w, a), |Skipped(w, a)|)
    decreases |a|
  {
    if |a| > 1 {
      var b := Init(a);
      Conservation(w, b);
      RunExplained(w, b);
      RecordBalanced(w, Run(w, b), Last(a), Slides(w, b), |Skipped(w, b)|);
      SkippedGrows(w, a);
    } else {
      assert Skipped(w, a) == {};
    }
  }

  // ---- the fast form refines the simple one --------------------------------

  /** No arrival took the slide path. */
  ghost predicate NeverSlid(w: nat, a: seq<nat>) {
    forall i | 0 <= i < |a| :: !SlidAt(w, a, i)
  }

  lemma GentleStep(w: nat, a: seq<nat>)
    requires a != [] && !Slid(w, a)
    ensures Accepted(w, a) == Accepted(w, Init(a)) + {Last(a)}
    ensures Swept(w, a) == Swept(w, Init(a)) && Skipped(w, a) == Skipped(w, Init(a))
  {
  }

  lemma {:induction false} GentleHistory(w: nat, a: seq<nat>)
    requires w >= 1 && NeverSlid(w, a)
    ensures Accepted(w, a) == Delivered(a) && Swept(w, a) == {} && Skipped(w, a) == {}
  {
    hide Run;
    if a != [] {
      SlidAtPrefix(w, a);
      GentleHistory(w, Init(a));
      GentleStep(w, a);
      assert a == Init(a) + [Last(a)];
    }
  }

  /** The answer of the unbounded reference: the largest n with first..n all delivered. */
  ghost predicate IsContiguousTop(first: nat, delivered: set<nat>, n: nat) {
    first <= n && Span(first - 1, n) <= delivered && n + 1 !in delivered
  }

  lemma ContiguousTopUnique(first: nat, delivered: set<nat>, m: nat, n: nat)
    requires IsContiguousTop(first, delivered, m) && IsContiguousTop(first, delivered, n)
    ensures m == n
  {
    assert m + 1 in Span(first - 1, n) <==> m < n;
    assert n + 1 in Span(first - 1, m) <==> n < m;
  }

  /** Said of the history alone: each arrival is at most w above the contiguous top of what was
      delivered before it. */
  ghost predicate Gentle(w: nat, a: seq<nat>) {
    forall i, top: nat | 0 < i < |a| && IsContiguousTop(a[0], Delivered(a[..i]), top) :: a[i] <= top + w
  }

  lemma NeverSlidTop(w: nat, a: seq<nat>)
    requires w >= 1 && a != [] && NeverSlid(w, a)
    ensures IsContiguousTop(a[0], Delivered(a), Run(w, a).high)
  {
    RunExplained(w, a);
    GentleHistory(w, a);
    var p := Run(w, a);
    assert p.high + 1 in Above(Delivered(a), p.high) <==> p.high + 1 in Delivered(a);
  }

  lemma GentlePrefix(w: nat, a: seq<nat>)
    requires a != [] && Gentle(w, a)
    ensures Gentle(w, Init(a))
  {
    hide IsContiguousTop;
    forall i, top: nat | 0 < i < |a| - 1 && IsContiguousTop(Init(a)[0], Delivered(Init(a)[..i]), top)
      ensures Init(a)[i] <= top + w
    {
      assert Init(a)[..i] == a[..i];
    }
  }

  /** An arrival after a history without slides slides exactly when it is too far above the top. */
  lemma SlidesAbove(w: nat, a: seq<nat>)
    requires w >= 1 && |a| > 1 && NeverSlid(w, Init(a))
    ensures Slid(w, a) <==> exists top: nat :: IsContiguousTop(a[0], Delivered(Init(a)), top) && Last(a) > top + w
  {
    hide IsContiguousTop;
    var high := Run(w, Init(a)).high;
    NeverSlidTop(w, Init(a));
    assert Init(a)[0] == a[0];
    forall top: nat | IsContiguousTop(a[0], Delivered(Init(a)), top) ensures top == high {
      ContiguousTopUnique(a[0], Delivered(Init(a)), top, high);
    }
  }

  /** A history is gentle if and only if the tracker never slides over it. */
  lemma {:induction false} GentleExactly(w: nat, a: seq<nat>)
    requires w >= 1
    ensures Gentle(w, a) <==> NeverSlid(w, a)
  {
    hide IsContiguousTop, Run;
    if |a| > 1 {
      GentleExactly(w, Init(a));
      SlidAtPrefix(w, a);
      var i := |a| - 1;
      assert a[..i] == Init(a) && a[..i + 1] == a;
      if Gentle(w, a) {
        GentlePrefix(w, a);
        SlidesAbove(w, a);
        assert !Slid(w, a);
        NeverSlidSnoc(w, a);
      } else if NeverSlid(w, a) {
        SlidesAbove(w, a);
        assert SlidAt(w, a, i) == Slid(w, a);
        NotGentle(w, a);
      }
    }
  }

  lemma NeverSlidSnoc(w: nat, a: seq<nat>)
    requires a != [] && NeverSlid(w, Init(a)) && !Slid(w, a)
    ensures NeverSlid(w, a)
  {
    hide Slid;
    forall i | 0 <= i < |a| ensures !SlidAt(w, a, i) {
      if i == |a| - 1 {
        assert a[..i + 1] == a;
      } else {
        assert a[..i + 1] == Init(a)[..i + 1];
        assert !SlidAt(w, Init(a), i);
      }
    }
  }

  /** A history that stops being gentle at its last arrival arrives too far above the top. */
  lemma NotGentle(w: nat, a: seq<nat>)
    requires |a| > 1 && Gentle(w, Init(a)) && !Gentle(w, a)
    ensures exists top: nat :: IsContiguousTop(a[0], Delivered(Init(a)), top) && Last(a) > top + w
  {
    hide IsContiguousTop;
    var i, top: nat :| 0 < i < |a| && IsContiguousTop(a[0], Delivered(a[..i]), top) && a[i] > top + w;
    assert Init(a)[..i] == a[..i];
  }

  /** In a gentle run the bounded tracker is the unbounded one. */
  lemma GentleRefinesReference(w: nat, a: seq<nat>, s: nat)
    requires w >= 1 && a != [] && Gentle(w, a)
    ensures IsContiguousTop(a[0], Delivered(a), Run(w, a).high)
    ensures Run(w, a).marked == Above(Delivered(a), Run(w, a).high)
    ensures Run(w, a).pending == {}
    ensures IsDuplicate(w, Run(w, a), s) <==> s < a[0] || s in a
  {
    hide Gentle;
    GentleExactly(w, a);
    RunExplained(w, a);
    GentleHistory(w, a);
    DuplicateExactly(w, a, s);
    NeverSlidTop(w, a);
  }

  /** Two gentle runs over the same sequences from the same start end alike, whatever the order. */
  lemma OrderDoesNotMatter(w: nat, a: seq<nat>, b: seq<nat>)
    requires w >= 1 && a != [] && b != [] && Gentle(w, a) && Gentle(w, b)
    requires a[0] == b[0] && Delivered(a) == Delivered(b)
    ensures Run(w, a).high == Run(w, b).high
    ensures Run(w, a).marked == Run(w, b).marked && Run(w, a).pending == Run(w, b).pending
  {
    hide Gentle;
    GentleRefinesReference(w, a, 0);
    GentleRefinesReference(w, b, 0);
    ContiguousTopUnique(a[0], Delivered(a), Run(w, a).high, Run(w, b).high);
  }

  // ---- the false-loss artifact ---------------------------------------------

  /** s, s + 1, ..., s + n: a stream with nothing missing and nothing out of order. */
  function InOrder(s: nat, n: nat): seq<nat> {
    if n == 0 then [s] else InOrder(s, n - 1) + [s + n]
  }

  lemma LongJump(w: nat, p: Producer, s: nat)
    requires w >= 1 && Shape(w, p) && s > p.high + 2 * w
    ensures Record(w, p, s).high == s - w - 1 && Record(w, p, s).marked == {}
    ensures Record(w, p, s).pending == p.pending + (Span(p.high, p.high + w) - p.marked)
  {
    assert Above(p.marked, s - w - 1) == {};
  }

  lemma StuckStep(w: nat, p: Producer, t: nat)
    requires w >= 1 && p.marked == {} && t == p.high + w + 2
    ensures Record(w, p, t).high == t - w - 1 && Record(w, p, t).marked == {}
    ensures Record(w, p, t).pending == p.pending + {t - w - 1}
  {
    assert Above({}, t - w - 1) == {};
    assert SweptBy(w, p, t) == {t - w - 1};
  }

  lemma RunSnoc(w: nat, a: seq<nat>, s: nat)
    requires a != []
    ensures Run(w, a + [s]) == Record(w, Run(w, a), s)
  {
    hide Record;
    assert Init(a + [s]) == a;
  }

  /** After one arrival more than two windows ahead, a perfect stream is never in step again: the
      window stays empty and each in-order arrival adds one suspected loss. */
  lemma {:induction false} LongGapNeverHeals(w: nat, a: seq<nat>, s: nat, n: nat)
    requires w >= 1 && a != [] && s > Run(w, a).high + 2 * w
    ensures
      var p, q := Run(w, a), Run(w, a + InOrder(s, n));
      && q.high == s + n - w - 1 && q.marked == {}
      && q.pending == p.pending + (Span(p.high, p.high + w) - p.marked) + Span(s - w - 1, s + n - w - 1)
  {
    hide Run, Record;
    if n == 0 {
      assert Shape(w, Run(w, a)) by { RunExplained(w, a); }
      RunSnoc(w, a, s);
      LongJump(w, Run(w, a), s);
    } else {
      LongGapNeverHeals(w, a, s, n - 1);
      var b := a + InOrder(s, n - 1);
      assert a + InOrder(s, n) == b + [s + n];
      RunSnoc(w, b, s + n);
      StuckStep(w, Run(w, b), s + n);
      assert Span(s - w - 1, s + n - w - 1) == Span(s - w - 1, s + n - 1 - w - 1) + {s + n - w - 1};
    }
  }

  /** Every sequence of that perfect stream is counted lost w + 1 arrivals after its delivery. */
  lemma PerfectStreamCountedLost(w: nat, a: seq<nat>, s: nat, n: nat, x: nat)
    requires w >= 1 && a != [] && s > Run(w, a).high + 2 * w
    requires s <= x < s + n - w
    ensures x in Delivered(a + InOrder(s, n)) && x in Run(w, a + InOrder(s, n)).pending
  {
    LongGapNeverHeals(w, a, s, n);
    InOrderHas(s, n, x);
  }

  lemma {:induction false} InOrderHas(s: nat, n: nat, x: nat)
    requires s <= x <= s + n
    ensures x in InOrder(s, n)
  {
    if x < s + n { InOrderHas(s, n - 1, x); }
  }
}
