/** The tracker itself: per producer a watermark, a packed window above it and a set of suspected
    losses below it. Every public method holds the tracker's mutex for its whole body, so a run of
    method calls is a run of the program under any interleaving of its goroutines. */
module SequenceTracker {
  import opened Basics
  import opened SequenceSpec
  import opened SequenceRuns
  import opened PackedWords
  import opened GapStream

  const MAX_U64: nat := 0xffff_ffff_ffff_ffff

  type Seqno = x: nat | x <= MAX_U64

  /** The offsets stand for the marked sequences: offset k for the sequence base + 1 + k. */
  ghost predicate Represents(w: nat, offsets: set<nat>, base: int, marked: set<nat>) {
    && (forall x | x in marked :: base < x <= base + w)
    && (forall k: nat :: k in offsets <==> base + 1 + k in marked)
  }

  lemma RepresentsMark(w: nat, offsets: set<nat>, base: int, marked: set<nat>, s: nat)
    requires Represents(w, offsets, base, marked) && base < s <= base + w
    ensures Represents(w, offsets + {s - base - 1}, base, marked + {s})
  {
  }

  lemma RepresentsShift(w: nat, offsets: set<nat>, after: set<nat>, base: int, marked: set<nat>)
    requires w >= 1 && Represents(w, offsets, base, marked) && LoweredBy(1, offsets, after)
    ensures Represents(w, after, base + 1, marked - {base + 1})
  {
    forall k: nat ensures k in after <==> base + 1 + 1 + k in marked - {base + 1} {
      assert k + 1 in offsets <==> base + 1 + (k + 1) in marked;
    }
  }

  lemma RepresentsSlide(w: nat, offsets: set<nat>, after: set<nat>, base: int, marked: set<nat>, high: int)
    requires w >= 1 && Represents(w, offsets, base, marked) && high >= base
    requires LoweredBy(Min(high - base, w), offsets, after)
    ensures Represents(w, after, high, Above(marked, high))
  {
    var d := Min(high - base, w);
    forall k: nat ensures k in after <==> high + 1 + k in Above(marked, high) {
      assert k + d in offsets <==> base + 1 + (k + d) in marked;
    }
  }

  /** From (b0, m0) the advancing loop has reached (b, m). */
  ghost predicate Advancing(b0: int, m0: set<nat>, b: int, m: set<nat>) {
    b >= b0 && Contiguous(b, m) == Contiguous(b0, m0) && m == Above(m0, b)
  }

  lemma AdvanceStarts(w: nat, offsets: set<nat>, base: int, marked: set<nat>)
    requires Represents(w, offsets, base, marked)
    ensures Advancing(base, marked, base, marked)
  {
  }

  lemma AdvanceTurns(b0: int, m0: set<nat>, b: int, m: set<nat>)
    requires Advancing(b0, m0, b, m)
    ensures b + 1 in m ==> Advancing(b0, m0, b + 1, m - {b + 1}) && |m - {b + 1}| < |m|
    ensures b + 1 !in m ==> b == Contiguous(b0, m0) && m == Above(m0, b)
    ensures b >= b0
  {
    assert Above(m0, b) - {b + 1} == Above(m0, b + 1);
  }

  lemma AboveWithin(marked: set<nat>, base: int)
    ensures Above(marked, base) <= marked
  {
  }

  lemma FirstSequence(s: nat)
    ensures Contiguous(s - 1, {s}) == s && Above({s}, s) == {}
  {
    assert {s} - {s} == {};
    assert Contiguous(s, {}) == s;
    hide Contiguous, Span;
  }

  lemma SweepKeepsShape(w: nat, p: Producer, s: nat)
    requires w >= 1 && Shape(w, p) && SlidePath(w, p, s)
    ensures Shape(w, Advance(Sweep(w, p, s)))
  {
  }

  class ProducerState {
    var highContiguous: Seqno
    const window: array<bv64>
    var received: nat
    var duplicates: nat
    var outOfOrder: nat
    var confirmedLost: nat
    var pendingLost: set<nat>
    var lastReportedLost: nat
    var lastSeen: Seqno

    ghost var first: nat        // the sequence this record was created for
    ghost var base: int         // the watermark before uint64 wrap-around: -1 while seq 0 is first
    ghost var marked: set<nat>  // the sequences the window stands for

    /** The words are the marked sequences, as offsets from base + 1. */
    ghost predicate Packed(w: nat)
      reads this`highContiguous, this`base, this`marked, window
    {
      && window.Length == (w + 63) / 64
      && -1 <= base <= MAX_U64 && highContiguous == (if base == -1 then MAX_U64 else base)
      && (forall x | x in marked :: x <= MAX_U64)
      && Represents(w, Offsets(window[..]), base, marked)
    }

    ghost predicate Valid(w: nat)
      reads this, window
    {
      && w >= 1 && base >= 0 && Packed(w)
      && confirmedLost == |pendingLost|
      && Shape(w, Abs())
    }

    ghost function Abs(): Producer
      reads this
    {
      Producer(first, highContiguous, marked, pendingLost, received, duplicates, outOfOrder, lastSeen,
               lastReportedLost)
    }

    lemma PackedFacts(w: nat)
      requires Packed(w)
      ensures base >= 0 ==> highContiguous == base
      ensures Advancing(base, marked, base, marked)
    {
      AdvanceStarts(w, Offsets(window[..]), base, marked);
    }

    constructor (w: nat, s: Seqno)
      requires w >= 1
      ensures Packed(w) && marked == {} && base == s - 1 && first == lastSeen == s && fresh(window)
      ensures Abs().(high := s) == Start(s).(received := 0) && confirmedLost == 0
    {
      hide Offsets;
      highContiguous := if s == 0 then MAX_U64 else s - 1;
      window := new bv64[(w + 63) / 64](_ => 0);
      received, duplicates, outOfOrder, confirmedLost := 0, 0, 0, 0;
      pendingLost, lastReportedLost, lastSeen := {}, 0, s;
      first, base, marked := s, s - 1, {};
      new;
      EmptyWords(window[..]);
    }

    /** The rest of the first arrival: mark it and advance over it. */
    method First(w: nat)
      requires w >= 1 && Packed(w) && marked == {} && base + 1 == first == lastSeen
      requires Abs().(high := first) == Start(first).(received := 0) && confirmedLost == 0
      modifies this, window
      ensures Valid(w) && Abs() == Start(old(first))
    {
      hide Packed, Contiguous, Above;
      FirstSequence(first);
      MarkSeen(w, 0);
      received := received + 1;
      AdvanceContiguous(w);
    }

    /** getBit, in terms of sequences. */
    method Seen(w: nat, offset: nat) returns (seen: bool)
      requires Packed(w)
      ensures seen <==> base + 1 + offset in marked
    {
      hide Offsets;
      seen := GetBit(window, offset);
    }

    /** setBit, in terms of sequences. */
    method MarkSeen(w: nat, offset: nat)
      requires Packed(w) && offset < w && base + 1 + offset <= MAX_U64
      modifies this`marked, window
      ensures Packed(w) && marked == old(marked) + {base + 1 + offset}
    {
      hide Offsets, Represents;
      RepresentsMark(w, Offsets(window[..]), base, marked, base + 1 + offset);
      SetBit(window, offset);
      marked := marked + {base + 1 + offset};
    }

    /** One turn of the advancing loop. */
    method AdvanceOne(w: nat)
      requires w >= 1 && Packed(w) && base + 1 in marked
      modifies this`highContiguous, this`base, this`marked, window
      ensures Packed(w) && base == old(base) + 1 && marked == old(marked) - {base}
      ensures highContiguous == base
    {
      hide Offsets, Represents, LoweredBy;
      ghost var offsets := Offsets(window[..]);
      highContiguous := if highContiguous == MAX_U64 then 0 else highContiguous + 1;
      ShiftLeft(window);
      RepresentsShift(w, offsets, Offsets(window[..]), base, marked);
      base, marked := base + 1, marked - {base + 1};
    }

    method AdvanceContiguous(w: nat)
      requires w >= 1 && Packed(w)
      modifies this`highContiguous, this`base, this`marked, window
      ensures Packed(w)
      ensures base == Contiguous(old(base), old(marked)) && marked == Above(old(marked), base)
      ensures base >= 0 ==> highContiguous == base
      ensures old(base) >= 0 ==> base >= 0 && Abs() == Advance(old(Abs()))
    {
      hide Packed, Above, Contiguous;
      PackedFacts(w);
      AdvanceWhileSeen(w);
    }

    /** The loop itself. */
    method AdvanceWhileSeen(w: nat)
      requires w >= 1 && Packed(w) && (base >= 0 ==> highContiguous == base)
      modifies this`highContiguous, this`base, this`marked, window
      ensures Packed(w) && base >= old(base) && (base >= 0 ==> highContiguous == base)
      ensures base == Contiguous(old(base), old(marked)) && marked == Above(old(marked), base)
    {
      hide Packed, Above, Contiguous, Advancing;
      PackedFacts(w);
      while true
        invariant Packed(w) && base >= old(base) && (base >= 0 ==> highContiguous == base)
        invariant Advancing(old(base), old(marked), base, marked)
        decreases |marked|
      {
        AdvanceTurns(old(base), old(marked), base, marked);
        var seen := Seen(w, 0);
        if !seen { break; }
        AdvanceOne(w);
      }
    }

    method SlideWindow(w: nat, newSeq: Seqno)
      requires Valid(w) && newSeq > highContiguous + w
      modifies this`highContiguous, this`confirmedLost, this`pendingLost, this`base, this`marked, window
      ensures Valid(w) && Abs() == Advance(Sweep(w, old(Abs()), newSeq))
    {
      hide Packed, Shape, Sweep, Advance;
      SweepNothing(w, Abs());
      SweepKeepsShape(w, Abs(), newSeq);
      PackedFacts(w);
      var newHigh := newSeq - w - 1;
      if newHigh <= highContiguous {
        if newSeq - highContiguous - 1 < w {
          assert false;
        }
        return;
      }
      EvictTo(w, newSeq);
      if newSeq - highContiguous - 1 < w {
        assert false;
      }
      AdvanceContiguous(w);
    }

    /** The body of slideWindow up to the new watermark. */
    method EvictTo(w: nat, newSeq: Seqno)
      requires Valid(w) && newSeq - w - 1 > highContiguous
      modifies this`highContiguous, this`confirmedLost, this`pendingLost, this`base, this`marked, window
      ensures Packed(w) && base >= 0 && confirmedLost == |pendingLost|
      ensures Abs() == Sweep(w, old(Abs()), newSeq) && highContiguous == newSeq - w - 1
    {
      hide Packed, Shape, Above, Span;
      PackedFacts(w);
      var newHigh := newSeq - w - 1;
      var slideDist := newHigh - highContiguous;
      if slideDist > w {
        slideDist := w;
      }
      SuspectUnseen(w, slideDist);
      confirmedLost := |pendingLost|;
      MoveTo(w, newHigh, slideDist);
    }

    /** The second loop of slideWindow, and the new watermark. */
    method MoveTo(w: nat, newHigh: Seqno, dist: nat)
      requires w >= 1 && Packed(w) && 0 <= base <= newHigh && dist == Min(newHigh - base, w)
      modifies this`highContiguous, this`base, this`marked, window
      ensures Packed(w) && highContiguous == base == newHigh && marked == Above(old(marked), newHigh)
    {
      hide Offsets, Represents, LoweredBy, Above;
      ghost var offsets := Offsets(window[..]);
      ShiftBy(window, dist);
      RepresentsSlide(w, offsets, Offsets(window[..]), base, marked, newHigh);
      AboveWithin(marked, newHigh);
      highContiguous := newHigh;
      base, marked := newHigh, Above(marked, newHigh);
    }

    /** The first loop of slideWindow: unseen offsets below `dist` become suspected losses. */
    method SuspectUnseen(w: nat, dist: nat)
      requires Packed(w) && base >= 0 && dist <= w
      modifies this`pendingLost
      ensures pendingLost == old(pendingLost) + (Span(base, base + dist) - marked)
    {
      for i := 0 to dist
        invariant pendingLost == old(pendingLost) + (Span(base, base + i) - marked)
      {
        var seen := Seen(w, i);
        assert Span(base, base + i + 1) == Span(base, base + i) + {base + 1 + i};
        if !seen {
          pendingLost := pendingLost + {highContiguous + 1 + i};
        }
      }
    }

    /** The body of the polling loop for one producer. */
    method Poll(w: nat) returns (rise: nat)
      requires Valid(w)
      modifies this`lastReportedLost
      ensures Valid(w) && Abs() == Polled(old(Abs())) && rise == Rise(old(Abs()))
    {
      hide Packed;
      var current := confirmedLost;
      rise := 0;
      if current > lastReportedLost {
        rise := current - lastReportedLost;
      }
      lastReportedLost := current;
    }

    method Record(w: nat, s: Seqno) returns (isDuplicate: bool, isOutOfOrder: bool)
      requires Valid(w)
      modifies this, window
      ensures Valid(w) && Abs() == SequenceSpec.Record(w, old(Abs()), s)
      ensures isDuplicate == IsDuplicate(w, old(Abs()), s)
      ensures isOutOfOrder == (s < old(lastSeen))
    {
      hide Packed, Shape, SequenceSpec.Place;
      TickShape(w, Abs(), s);
      received := received + 1;
      isOutOfOrder := false;
      if s < lastSeen {
        isOutOfOrder := true;
        outOfOrder := outOfOrder + 1;
      }
      lastSeen := s;
      assert Abs() == Tick(old(Abs()), s);
      isDuplicate := Place(w, s);
    }

    /** An arrival at or below the watermark: a suspect recovered, or a duplicate. */
    method PlaceBelow(w: nat, s: Seqno) returns (isDuplicate: bool)
      requires Valid(w) && s <= highContiguous
      modifies this`confirmedLost, this`pendingLost, this`duplicates
      ensures Valid(w) && Abs() == SequenceSpec.Place(w, old(Abs()), s)
      ensures isDuplicate == IsDuplicate(w, old(Abs()), s)
    {
      hide Packed, Shape, Sweep, Advance, Contiguous, Above;
      PlaceShape(w, Abs(), s);
      PackedFacts(w);
      if s in pendingLost {
        pendingLost := pendingLost - {s};
        confirmedLost := |pendingLost|;
        return false;
      }
      duplicates := duplicates + 1;
      return true;
    }

    /** The rest of Record. */
    method Place(w: nat, s: Seqno) returns (isDuplicate: bool)
      requires Valid(w)
      modifies this`highContiguous, this`confirmedLost, this`pendingLost, this`duplicates,
        this`base, this`marked, window
      ensures Valid(w) && Abs() == SequenceSpec.Place(w, old(Abs()), s)
      ensures isDuplicate == IsDuplicate(w, old(Abs()), s)
    {
      hide Packed, Shape, Sweep, Advance, Contiguous, Above;
      PlaceShape(w, Abs(), s);
      PackedFacts(w);
      if s <= highContiguous {
        isDuplicate := PlaceBelow(w, s);
        return;
      }
      var offset := s - highContiguous - 1;
      if offset >= w {
        SlideWindow(w, s);
        return false;
      }
      var seen := Seen(w, offset);
      if seen {
        duplicates := duplicates + 1;
        return true;
      }
      MarkSeen(w, offset);
      AdvanceContiguous(w);
      return false;
    }
  }

  lemma SweepNothing(w: nat, p: Producer)
    requires Shape(w, p)
    ensures Advance(Sweep(w, p, p.high + w + 1)) == p
  {
    assert Above(p.marked, p.high) == p.marked;
    assert SweptBy(w, p, p.high + w + 1) == {};
  }

  lemma TickShape(w: nat, p: Producer, s: nat)
    requires Shape(w, p)
    ensures Shape(w, Tick(p, s))
  {
  }

  lemma PlaceShape(w: nat, p: Producer, s: nat)
    requires w >= 1 && Shape(w, p)
    ensures Shape(w, SequenceSpec.Place(w, p, s))
  {
  }

  class Tracker {
    const reorderWindow: nat
    var producers: map<string, ProducerState>

    ghost function Windows(): set<array<bv64>>
      reads this, producers.Values
    {
      set id | id in producers :: producers[id].window
    }

    ghost predicate Valid()
      reads this, producers.Values, Windows()
    {
      && reorderWindow >= 1
      && (forall id | id in producers :: producers[id].Valid(reorderWindow))
      && (forall i, j | i in producers && j in producers && i != j ::
            producers[i] != producers[j] && producers[i].window != producers[j].window)
    }

    ghost function Abs(): Producers
      reads this, producers.Values
    {
      map id | id in producers :: producers[id].Abs()
    }

    constructor (reorderWindow: nat)
      requires reorderWindow >= 1
      ensures Valid() && Abs() == map[] && this.reorderWindow == reorderWindow && producers == map[]
    {
      this.reorderWindow := reorderWindow;
      producers := map[];
    }

    method Record(id: string, s: Seqno) returns (isDuplicate: bool, isOutOfOrder: bool)
      requires Valid()
      modifies this, producers.Values, Windows()
      ensures Valid() && Abs() == ArriveAt(reorderWindow, old(Abs()), id, s)
      ensures isDuplicate == (id in old(Abs()) && IsDuplicate(reorderWindow, old(Abs())[id], s))
      ensures isOutOfOrder == (id in old(Abs()) && s < old(Abs())[id].lastSeen)
      ensures producers.Keys == old(producers.Keys) + {id}
      ensures forall i | i in old(producers) :: producers[i] == old(producers[i])
      ensures id !in old(producers) ==> fresh(producers[id]) && fresh(producers[id].window)
    {
      hide Valid, Abs, SequenceSpec.Record, IsDuplicate;
      AbsKeys();
      if id !in producers {
        RecordFirst(id, s);
        return false, false;
      }
      isDuplicate, isOutOfOrder := RecordKnown(id, s);
    }

    method RecordFirst(id: string, s: Seqno)
      requires Valid() && id !in producers
      modifies this
      ensures Valid() && Abs() == old(Abs())[id := Start(s)]
      ensures producers.Keys == old(producers.Keys) + {id} && fresh(producers[id]) && fresh(producers[id].window)
      ensures forall i | i in old(producers) :: producers[i] == old(producers[i])
    {
      hide ProducerState.Valid, ProducerState.Abs, ProducerState.Packed;
      var ps := NewProducer(reorderWindow, s);
      producers := producers[id := ps];
    }

    static method NewProducer(w: nat, s: Seqno) returns (ps: ProducerState)
      requires w >= 1
      ensures fresh(ps) && fresh(ps.window) && ps.Valid(w) && ps.Abs() == Start(s)
    {
      ps := new ProducerState(w, s);
      ps.First(w);
    }

    method RecordKnown(id: string, s: Seqno) returns (isDuplicate: bool, isOutOfOrder: bool)
      requires Valid() && id in producers
      modifies producers[id], producers[id].window
      ensures Valid() && producers == old(producers) && id in old(Abs())
      ensures Abs() == old(Abs())[id := SequenceSpec.Record(reorderWindow, old(Abs())[id], s)]
      ensures isDuplicate == IsDuplicate(reorderWindow, old(Abs())[id], s)
      ensures isOutOfOrder == (s < old(Abs())[id].lastSeen)
    {
      hide ProducerState.Valid, SequenceSpec.Record, IsDuplicate;
      isDuplicate, isOutOfOrder := producers[id].Record(reorderWindow, s);
    }

    lemma AbsKeys()
      ensures Abs().Keys == producers.Keys
    {
    }

    method DetectGaps() returns (deltas: map<string, nat>)
      requires Valid()
      modifies producers.Values
      ensures Valid() && producers == old(producers)
      ensures deltas == Deltas(old(Abs())) && Abs() == PollAll(old(Abs()))
    {
      hide Valid, Abs, Polled, Rise, PolledSoFar;
      AbsKeys();
      PollsStart(Abs());
      ghost var before := Abs();
      deltas := map[];
      var todo := producers.Keys;
      while todo != {}
        invariant todo <= producers.Keys == before.Keys && Valid()
        invariant PolledSoFar(before, todo, Abs(), deltas)
        decreases todo
      {
        var id :| id in todo;
        PollsContinue(before, todo, Abs(), deltas, id);
        var rise := PollOne(id);
        if rise > 0 {
          deltas := deltas[id := rise];
        }
        todo := todo - {id};
      }
      PollsEnd(before, Abs(), deltas);
    }

    method PollOne(id: string) returns (rise: nat)
      requires Valid() && id in producers
      modifies producers[id]
      ensures Valid() && producers == old(producers) && id in old(Abs())
      ensures rise == Rise(old(Abs())[id]) && Abs() == old(Abs())[id := Polled(old(Abs())[id])]
    {
      hide ProducerState.Valid, Polled, Rise;
      rise := producers[id].Poll(reorderWindow);
    }

    method Reset()
      requires Valid()
      modifies this
      ensures Valid() && Abs() == map[]
    {
      producers := map[];
    }

    lemma LostOf(id: string)
      requires Valid() && id in producers
      ensures id in Abs() && producers[id].confirmedLost == Lost(Abs()[id])
    {
    }

    method TotalLost() returns (total: nat)
      requires Valid()
      ensures total == Sum(Abs(), Lost)
    {
      hide Valid, Abs;
      AbsKeys();
      total := 0;
      var todo := producers.Keys;
      ghost var rest := Abs();
      while todo != {}
        invariant Valid() && todo <= producers.Keys && rest == map id | id in todo :: Abs()[id]
        invariant total + Sum(rest, Lost) == Sum(Abs(), Lost)
        decreases todo
      {
        var id :| id in todo;
        SumWithout(rest, Lost, id);
        LostOf(id);
        total := total + producers[id].confirmedLost;
        todo, rest := todo - {id}, rest - {id};
      }
    }
  }
}
