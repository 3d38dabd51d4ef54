/** Two rate rings over one event log: the log has one entry per tick, the number of records made in
    it, and its last entry is the tick that is still running. */
module RateWindows {
  import opened Basics

  function Total(s: seq<nat>): nat {
    if s == [] then 0 else Total(Init(s)) + Last(s)
  }

  /** Records made in the last w ticks. */
  function Recent(log: seq<nat>, w: nat): nat {
    Total(log[Max(0, |log| - w)..])
  }

  function Counted(log: seq<nat>): seq<nat>
    requires log != []
  {
    Init(log) + [Last(log) + 1]
  }

  lemma {:induction false} TotalAppend(s: seq<nat>, t: seq<nat>)
    ensures Total(s + t) == Total(s) + Total(t)
  {
    if t == [] {
      assert s + t == s;
    } else {
      TotalAppend(s, Init(t));
      assert Init(s + t) == s + Init(t) && Last(s + t) == Last(t);
    }
  }

  lemma TotalUpdate(s: seq<nat>, i: nat, v: nat)
    requires i < |s|
    ensures Total(s[i := v]) == Total(s) - s[i] + v
  {
    var left, right := s[..i], s[i + 1..];
    assert s == left + [s[i]] + right && s[i := v] == left + [v] + right;
    TotalAppend(left + [s[i]], right);
    TotalAppend(left, [s[i]]);
    TotalAppend(left + [v], right);
    TotalAppend(left, [v]);
    One(s[i]);
    One(v);
  }

  lemma One(v: nat)
    ensures Total([v]) == v
  {
    assert Init([v]) == [];
  }

  lemma RecentCounted(log: seq<nat>, w: nat)
    requires log != [] && w > 0
    ensures Recent(Counted(log), w) == Recent(log, w) + 1
  {
    var s, t := log[Max(0, |log| - w)..], Counted(log)[Max(0, |log| - w)..];
    assert Init(s) == Init(t);
  }

  /** A new tick pushes the oldest one out of the window. */
  lemma RecentAdvanced(log: seq<nat>, w: nat)
    requires log != [] && w > 0
    ensures Recent(log + [0], w) == Recent(log, w) - (if |log| >= w then log[|log| - w] else 0)
  {
    hide Total;
    var s, t := log[Max(0, |log| - w)..], (log + [0])[Max(0, |log| + 1 - w)..];
    One(0);
    if |log| >= w {
      assert s == [log[|log| - w]] + s[1..] && t == s[1..] + [0];
      TotalAppend([log[|log| - w]], s[1..]);
      TotalAppend(s[1..], [0]);
      One(log[|log| - w]);
    } else {
      assert t == s + [0];
      TotalAppend(s, [0]);
    }
  }

  const SLIDING: nat := 30
  const PEAK: nat := 10

  predicate RingSize(w: nat) { w == SLIDING || w == PEAK }

  function Slot(t: nat, w: nat): (i: nat)
    requires RingSize(w)
    ensures i < w
  {
    t % w
  }

  lemma SlotsDiffer(t: nat, u: nat, w: nat)
    requires RingSize(w) && t < u < t + w
    ensures Slot(t, w) != Slot(u, w)
  {
  }

  lemma SlotReused(t: nat, w: nat)
    requires RingSize(w)
    ensures Slot(t + w, w) == Slot(t, w)
    ensures t < w ==> Slot(t, w) == t
  {
  }

  lemma NextSlot(t: nat, w: nat)
    requires RingSize(w)
    ensures Slot(t + 1, w) == (Slot(t, w) + 1) % w
  {
  }

  /** Slot i of the ring holds the latest tick numbered i modulo w, or zero before there was one. */
  ghost predicate Ring(log: seq<nat>, w: nat, buckets: seq<nat>) {
    && RingSize(w) && |buckets| == w
    && (forall t | 0 <= t < |log| && |log| - w <= t :: buckets[Slot(t, w)] == log[t])
    && (forall i | |log| <= i < w :: buckets[i] == 0)
  }

  lemma RingCounted(log: seq<nat>, w: nat, buckets: seq<nat>)
    requires log != [] && Ring(log, w, buckets)
    ensures
      var i := Slot(|log| - 1, w);
      Ring(Counted(log), w, buckets[i := buckets[i] + 1])
  {
    hide Slot;
    var n := |log|;
    forall t | 0 <= t < n - 1 && n - w <= t ensures Slot(t, w) != Slot(n - 1, w) { SlotsDiffer(t, n - 1, w); }
    SlotReused(n - 1, w);
  }

  lemma RingAdvanced(log: seq<nat>, w: nat, buckets: seq<nat>)
    requires log != [] && Ring(log, w, buckets)
    ensures Ring(log + [0], w, buckets[Slot(|log|, w) := 0])
    ensures buckets[Slot(|log|, w)] == if |log| >= w then log[|log| - w] else 0
  {
    hide Slot;
    var n := |log|;
    forall t | 0 <= t < n && n + 1 - w <= t ensures Slot(t, w) != Slot(n, w) { SlotsDiffer(t, n, w); }
    SlotReused(n, w);
    if n >= w { SlotReused(n - w, w); }
  }

  class SlidingRateWindow {
    const buckets: array<nat>
    var idx: nat
    var total: nat
    var ticks: nat
    ghost var log: seq<nat>

    ghost predicate Valid()
      reads this, buckets
    {
      && log != [] && Ring(log, SLIDING, buckets[..])
      && ticks == |log| - 1 && idx == Slot(ticks, SLIDING)
      && total == Recent(log, SLIDING)
    }

    constructor ()
      ensures Valid() && log == [0] && fresh(buckets)
    {
      buckets := new nat[SLIDING](_ => 0);
      idx, total, ticks, log := 0, 0, 0, [0];
      new;
      One(0);
    }

    method Record()
      requires Valid()
      modifies this, buckets
      ensures Valid() && log == Counted(old(log)) && total == Recent(log, 30)
    {
      hide Recent, Slot;
      RingCounted(log, SLIDING, buckets[..]);
      RecentCounted(log, SLIDING);
      ghost var before := buckets[..];
      buckets[idx] := buckets[idx] + 1;
      total := total + 1;
      assert buckets[..] == before[idx := before[idx] + 1];
      log := Counted(log);
    }

    method Advance()
      requires Valid()
      modifies this, buckets
      ensures Valid() && log == old(log) + [0] && total == Recent(log, 30)
    {
      hide Recent, Slot;
      RingAdvanced(log, SLIDING, buckets[..]);
      RecentAdvanced(log, SLIDING);
      NextSlot(ticks, SLIDING);
      ghost var before := buckets[..];
      idx := (idx + 1) % SLIDING;
      total := total - buckets[idx];
      buckets[idx] := 0;
      ticks := ticks + 1;
      assert buckets[..] == before[idx := 0];
      log := log + [0];
    }

    method Rate() returns (r: real)
      requires Valid()
      ensures |log| == 1 ==> r == 0.0
      ensures |log| > 1 ==> r == Recent(log, 30) as real / Min(|log| - 1, 30) as real
    {
      var window := ticks;
      if window > SLIDING { window := SLIDING; }
      if window == 0 { return 0.0; }
      return total as real / window as real;
    }
  }

  /** The highest rate over the ten latest ticks at any of the ticks that have ended. */
  function PeakOf(log: seq<nat>): real
    requires log != []
  {
    if |log| == 1 then 0.0
    else
      var rate := Recent(Init(log), PEAK) as real / 10.0;
      if rate > PeakOf(Init(log)) then rate else PeakOf(Init(log))
  }

  /** r is the highest ten-tick rate at the end of any ended tick, 0 when none has ended. */
  ghost predicate IsPeak(log: seq<nat>, r: real) {
    && (forall t | 0 < t < |log| :: Recent(log[..t], 10) as real / 10.0 <= r)
    && (r == 0.0 || exists t :: 0 < t < |log| && r == Recent(log[..t], 10) as real / 10.0)
  }

  lemma {:induction false} PeakIsMaximum(log: seq<nat>)
    requires log != []
    ensures IsPeak(log, PeakOf(log)) && PeakOf(log) >= 0.0
  {
    hide Recent;
    if |log| > 1 {
      var b, n := Init(log), |log| - 1;
      PeakIsMaximum(b);
      assert log[..n] == b;
      forall t | 0 < t < n ensures log[..t] == b[..t] { }
      if t :| 0 < t < |b| && PeakOf(b) == Recent(b[..t], 10) as real / 10.0 {
        assert PeakOf(b) == Recent(log[..t], 10) as real / 10.0;
      }
      assert Recent(log[..n], 10) == Recent(b, 10);
    }
  }

  class PeakRateTracker {
    const buckets: array<nat>
    var idx: nat
    var peak: real
    ghost var log: seq<nat>

    ghost predicate Valid()
      reads this, buckets
    {
      && log != [] && Ring(log, PEAK, buckets[..]) && idx == Slot(|log| - 1, PEAK)
      && Total(buckets[..]) == Recent(log, PEAK)
      && peak == PeakOf(log)
    }

    constructor ()
      ensures Valid() && log == [0] && fresh(buckets)
    {
      buckets := new nat[PEAK](_ => 0);
      idx, peak, log := 0, 0.0, [0];
      new;
      One(0);
      Zeros(buckets[..]);
    }

    method Record()
      requires Valid()
      modifies this, buckets
      ensures Valid() && log == Counted(old(log)) && peak == old(peak)
    {
      hide Recent, Total, PeakOf, Slot;
      RingCounted(log, PEAK, buckets[..]);
      RecentCounted(log, PEAK);
      TotalUpdate(buckets[..], idx, buckets[idx] + 1);
      PeakCounted(log);
      ghost var before := buckets[..];
      buckets[idx] := buckets[idx] + 1;
      assert buckets[..] == before[idx := before[idx] + 1];
      log := Counted(log);
    }

    method Advance()
      requires Valid()
      modifies this, buckets
      ensures Valid() && log == old(log) + [0] && IsPeak(log, peak)
    {
      hide Recent, PeakOf, Total, Slot, IsPeak;
      PeakIsMaximum(log + [0]);
      RingAdvanced(log, PEAK, buckets[..]);
      RecentAdvanced(log, PEAK);
      TotalUpdate(buckets[..], Slot(|log|, PEAK), 0);
      NextSlot(|log| - 1, PEAK);
      PeakAdvanced(log);
      ghost var before := buckets[..];
      var total := SumBuckets();
      var avg := total as real / 10.0;
      if avg > peak {
        peak := avg;
      }
      idx := (idx + 1) % PEAK;
      buckets[idx] := 0;
      assert buckets[..] == before[idx := 0];
      log := log + [0];
    }

    method SumBuckets() returns (total: nat)
      ensures total == Total(buckets[..])
    {
      total := 0;
      for i := 0 to buckets.Length
        invariant total == Total(buckets[..i])
      {
        assert Init(buckets[..i + 1]) == buckets[..i];
        total := total + buckets[i];
      }
      assert buckets[..buckets.Length] == buckets[..];
    }
  }

  lemma PeakCounted(log: seq<nat>)
    requires log != []
    ensures PeakOf(Counted(log)) == PeakOf(log)
  {
    assert Init(Counted(log)) == Init(log);
  }

  lemma PeakAdvanced(log: seq<nat>)
    requires log != []
    ensures
      var rate := Recent(log, PEAK) as real / 10.0;
      PeakOf(log + [0]) == if rate > PeakOf(log) then rate else PeakOf(log)
  {
    assert Init(log + [0]) == log;
  }

  lemma Zeros(s: seq<nat>)
    requires forall i | 0 <= i < |s| :: s[i] == 0
    ensures Total(s) == 0
  {
    if s != [] { Zeros(Init(s)); }
  }
}
