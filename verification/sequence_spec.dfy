/** What one producer's record means, on sets of sequence numbers: the watermark, the marked
    sequences above it and the suspected losses below it, with no packed words and no offsets.
    `Run` folds it over an arrival history; the other functions of this module describe the same
    history from outside (which arrivals took the slide path, which sequences a slide swept). */
module SequenceSpec {
  import opened Basics

  datatype Producer = Producer(
    first: nat,          // the first sequence ever recorded
    high: nat,           // highContiguous
    marked: set<nat>,    // seen sequences above high
    pending: set<nat>,   // pendingLost
    received: nat,
    duplicates: nat,
    outOfOrder: nat,
    lastSeen: nat,
    lastReported: nat)   // lastReportedLost

  // ---- one arrival ---------------------------------------------------------

  function Start(s: nat): Producer {
    Producer(s, s, {}, {}, 1, 0, 0, s, 0)
  }

  /** The watermark after absorbing every marked sequence that touches it. */
  function Contiguous(high: int, marked: set<nat>): (h: int)
    ensures h >= high
    ensures Span(high, h) <= marked
    ensures h + 1 !in marked
    decreases |marked|
  {
    if high + 1 in marked then
      var h := Contiguous(high + 1, marked - {high + 1});
      assert Span(high, h) == Span(high + 1, h) + {high + 1};
      h
    else high
  }

  function Advance(p: Producer): Producer {
    var h := Contiguous(p.high, p.marked);
    p.(high := h, marked := Above(p.marked, h))
  }

  predicate SlidePath(w: nat, p: Producer, s: nat) { s > p.high + w }

  /** Sequences a slide to `s` evicts one by one; a slide longer than the window stops after w. */
  function SweptBy(w: nat, p: Producer, s: nat): set<nat> {
    Span(p.high, Min(p.high + w, s - w - 1))
  }

  /** Sequences the same slide passes without looking at them. */
  function SkippedBy(w: nat, p: Producer, s: nat): set<nat> {
    Span(p.high + w, s - w - 1)
  }

  /** The slide itself: evict, suspect what was not marked, move the watermark. The arriving
      sequence sits exactly at offset w of the moved window, so it is not marked. */
  function Sweep(w: nat, p: Producer, s: nat): Producer
    requires SlidePath(w, p, s)
  {
    p.(high := s - w - 1,
       marked := Above(p.marked, s - w - 1),
       pending := p.pending + (SweptBy(w, p, s) - p.marked))
  }

  predicate IsDuplicate(w: nat, p: Producer, s: nat) {
    if s <= p.high then s !in p.pending else !SlidePath(w, p, s) && s in p.marked
  }

  /** The counters every arrival moves. */
  function Tick(p: Producer, s: nat): Producer {
    p.(received := p.received + 1,
       outOfOrder := p.outOfOrder + (if s < p.lastSeen then 1 else 0),
       lastSeen := s)
  }

  function Duplicated(p: Producer): Producer { p.(duplicates := p.duplicates + 1) }

  /** Where the arrival goes: recovered, duplicate, slide or mark. */
  function Place(w: nat, p: Producer, s: nat): Producer {
    if s <= p.high then
      if s in p.pending then p.(pending := p.pending - {s}) else Duplicated(p)
    else if SlidePath(w, p, s) then Advance(Sweep(w, p, s))
    else if s in p.marked then Duplicated(p)
    else Advance(p.(marked := p.marked + {s}))
  }

  function Record(w: nat, p: Producer, s: nat): Producer { Place(w, Tick(p, s), s) }

  // ---- a whole history -----------------------------------------------------

  function Run(w: nat, a: seq<nat>): Producer
    requires a != []
  {
    if |a| == 1 then Start(a[0]) else Record(w, Run(w, Init(a)), Last(a))
  }

  predicate Slid(w: nat, a: seq<nat>)
    requires a != []
  {
    |a| > 1 && SlidePath(w, Run(w, Init(a)), Last(a))
  }

  /** Arrival number i took the slide path. */
  predicate SlidAt(w: nat, a: seq<nat>, i: nat)
    requires i < |a|
  {
    Slid(w, a[..i + 1])
  }

  /** Sequences with at least one arrival that did not take the slide path. */
  function Accepted(w: nat, a: seq<nat>): set<nat> {
    if a == [] then {}
    else Accepted(w, Init(a)) + (if Slid(w, a) then {} else {Last(a)})
  }

  function NewlySwept(w: nat, a: seq<nat>): set<nat>
    requires a != []
  {
    if Slid(w, a) then SweptBy(w, Run(w, Init(a)), Last(a)) else {}
  }

  /** Sequences some slide evicted one by one. */
  function Swept(w: nat, a: seq<nat>): set<nat> {
    if a == [] then {} else Swept(w, Init(a)) + NewlySwept(w, a)
  }

  function NewlySkipped(w: nat, a: seq<nat>): set<nat>
    requires a != []
  {
    if Slid(w, a) then SkippedBy(w, Run(w, Init(a)), Last(a)) else {}
  }

  /** Sequences some slide passed without looking. */
  function Skipped(w: nat, a: seq<nat>): set<nat> {
    if a == [] then {} else Skipped(w, Init(a)) + NewlySkipped(w, a)
  }

  function Slides(w: nat, a: seq<nat>): nat {
    if a == [] then 0 else Slides(w, Init(a)) + (if Slid(w, a) then 1 else 0)
  }
}
