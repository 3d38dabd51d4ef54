/** A worker's corruption and fidelity counters at the grain of one atomic operation. A checksum
    mismatch adds to both, one after the other; the reset after warmup clears both, one after the
    other; and the capture loads both, one after the other, while consumers still run. */
module WorkerCounters {
  import opened Basics

  datatype Op = AddCorrupted | AddFidelity | AddGap(n: nat) | ZeroCorrupted | ZeroFidelity

  datatype Counters = Counters(corrupted: nat, fidelity: nat)

  function Step(c: Counters, op: Op): Counters {
    match op
    case AddCorrupted => c.(corrupted := c.corrupted + 1)
    case AddFidelity => c.(fidelity := c.fidelity + 1)
    case AddGap(n) => c.(fidelity := c.fidelity + n)
    case ZeroCorrupted => c.(corrupted := 0)
    case ZeroFidelity => c.(fidelity := 0)
  }

  function After(ops: seq<Op>): Counters {
    if ops == [] then Counters(0, 0) else Step(After(Init(ops)), Last(ops))
  }

  // ---- what was recorded ---------------------------------------------------

  /** Mismatches whose first half is in these operations. */
  function Begun(ops: seq<Op>): nat {
    if ops == [] then 0 else Begun(Init(ops)) + (if Last(ops).AddCorrupted? then 1 else 0)
  }

  /** Mismatches whose second half is. */
  function Done(ops: seq<Op>): nat {
    if ops == [] then 0 else Done(Init(ops)) + (if Last(ops).AddFidelity? then 1 else 0)
  }

  function Gaps(ops: seq<Op>): nat {
    if ops == [] then 0 else Gaps(Init(ops)) + (if Last(ops).AddGap? then Last(ops).n else 0)
  }

  predicate Recording(ops: seq<Op>) {
    forall i | 0 <= i < |ops| :: !ops[i].ZeroCorrupted? && !ops[i].ZeroFidelity?
  }

  lemma {:induction false} AfterMore(a: seq<Op>, b: seq<Op>)
    requires Recording(b)
    ensures After(a + b).corrupted == After(a).corrupted + Begun(b)
    ensures After(a + b).fidelity == After(a).fidelity + Done(b) + Gaps(b)
  {
    if b == [] {
      assert a + b == a;
    } else {
      AfterMore(a, Init(b));
      assert Init(a + b) == a + Init(b);
    }
  }

  lemma {:induction false} CountsAdd(a: seq<Op>, b: seq<Op>)
    ensures Begun(a + b) == Begun(a) + Begun(b) && Done(a + b) == Done(a) + Done(b)
  {
    if b == [] {
      assert a + b == a;
    } else {
      CountsAdd(a, Init(b));
      assert Init(a + b) == a + Init(b);
    }
  }

  // ---- one run of one worker -----------------------------------------------

  /** What is recorded before the reset, between its two stores, after it, and between the capture's
      two loads. */
  datatype History = History(warm: seq<Op>, resetting: seq<Op>, measured: seq<Op>, capturing: seq<Op>)

  function All(h: History): seq<Op> { h.warm + h.resetting + h.measured + h.capturing }

  /** No second half without its first. */
  ghost predicate Possible(h: History) {
    && Recording(h.warm) && Recording(h.resetting) && Recording(h.measured) && Recording(h.capturing)
    && forall i | 0 <= i <= |All(h)| :: Done(All(h)[..i]) <= Begun(All(h)[..i])
  }

  function UpToCapture(h: History): seq<Op> {
    h.warm + [ZeroCorrupted] + h.resetting + [ZeroFidelity] + h.measured
  }

  function LoadedCorrupted(h: History): nat { After(UpToCapture(h)).corrupted }

  function LoadedFidelity(h: History): nat { After(UpToCapture(h) + h.capturing).fidelity }

  /** Mismatches caught between their two halves. */
  function Open(ops: seq<Op>): int { Begun(ops) - Done(ops) }

  lemma AfterZeros(a: seq<Op>, b: seq<Op>)
    requires Recording(b)
    ensures
      var c := After(a + [ZeroCorrupted] + b + [ZeroFidelity]);
      c.corrupted == Begun(b) && c.fidelity == 0
  {
    var zeroed := a + [ZeroCorrupted];
    assert Init(zeroed) == a;
    AfterMore(zeroed, b);
    assert Init(zeroed + b + [ZeroFidelity]) == zeroed + b;
  }

  /** What the capture loads, for any interleaving: the two counters differ by the gaps, by the
      mismatches the reset or the capture cut in two, and by those recorded between the loads. */
  lemma LoadedExactly(h: History)
    requires Possible(h)
    ensures LoadedFidelity(h) + Done(h.resetting) + Open(All(h)) ==
            LoadedCorrupted(h) + Open(h.warm) + Begun(h.capturing) + Gaps(h.measured) + Gaps(h.capturing)
  {
    var zeroed := h.warm + [ZeroCorrupted] + h.resetting + [ZeroFidelity];
    AfterZeros(h.warm, h.resetting);
    AfterMore(zeroed, h.measured);
    AfterMore(UpToCapture(h), h.capturing);
    CountsAdd(h.warm, h.resetting);
    CountsAdd(h.warm + h.resetting, h.measured);
    CountsAdd(h.warm + h.resetting + h.measured, h.capturing);
  }

  /** Nothing is recorded while the reset or the capture is at work. */
  predicate Quiet(h: History) {
    h.resetting == [] && h.capturing == [] && Open(h.warm) == 0 && Open(All(h)) == 0
  }

  predicate NoGaps(h: History) { Gaps(h.measured) == 0 && Gaps(h.capturing) == 0 }

  /** A worker without credit gaps shows as many fidelity failures as corrupted messages if and only
      if the halves cut off balance; on a quiet run they do. */
  lemma AtRestExactly(h: History)
    requires Possible(h) && NoGaps(h)
    ensures LoadedFidelity(h) == LoadedCorrupted(h) <==>
            Open(h.warm) + Begun(h.capturing) == Done(h.resetting) + Open(All(h))
    ensures Quiet(h) ==> LoadedFidelity(h) == LoadedCorrupted(h)
  {
    hide LoadedFidelity, LoadedCorrupted, Open, All;
    LoadedExactly(h);
  }

  // ---- a group of workers --------------------------------------------------

  function TotalCorruptedOf(hs: seq<History>): nat {
    if hs == [] then 0 else TotalCorruptedOf(Init(hs)) + LoadedCorrupted(Last(hs))
  }

  function TotalFidelityOf(hs: seq<History>): nat {
    if hs == [] then 0 else TotalFidelityOf(Init(hs)) + LoadedFidelity(Last(hs))
  }

  lemma {:induction false} GroupAtRest(hs: seq<History>)
    requires forall i | 0 <= i < |hs| :: Possible(hs[i]) && NoGaps(hs[i]) && Quiet(hs[i])
    ensures TotalFidelityOf(hs) == TotalCorruptedOf(hs)
  {
    hide Possible, NoGaps, Quiet, LoadedFidelity, LoadedCorrupted;
    if hs != [] {
      GroupAtRest(Init(hs));
      AtRestExactly(Last(hs));
    }
  }

  /** A mismatch recorded between the capture's two loads. */
  const TORN_CAPTURE := History([], [], [], [AddCorrupted, AddFidelity])

  /** A mismatch whose two halves lie on the two sides of the reset. */
  const TORN_RESET := History([AddCorrupted], [], [AddFidelity], [])

  lemma TornLoads(h: History)
    requires h in {TORN_CAPTURE, TORN_RESET}
    ensures Possible(h) && NoGaps(h) && LoadedCorrupted(h) == 0 && LoadedFidelity(h) == 1
  {
    hide All;
    TornInOrder(h);
    AfterZeros(h.warm, h.resetting);
    AfterMore(h.warm + [ZeroCorrupted] + h.resetting + [ZeroFidelity], h.measured);
    AfterMore(UpToCapture(h), h.capturing);
    assert Init([AddCorrupted, AddFidelity]) == [AddCorrupted];
  }

  lemma TornInOrder(h: History)
    requires h in {TORN_CAPTURE, TORN_RESET}
    ensures forall i | 0 <= i <= |All(h)| :: Done(All(h)[..i]) <= Begun(All(h)[..i])
  {
    assert All(h) == [AddCorrupted, AddFidelity];
    assert [AddCorrupted, AddFidelity][..1] == [AddCorrupted];
    assert [AddCorrupted, AddFidelity][..2] == [AddCorrupted, AddFidelity];
    assert Init([AddCorrupted, AddFidelity]) == [AddCorrupted];
    assert Done([AddCorrupted]) == 0 && Begun([AddCorrupted]) == 1;
    assert Done([AddCorrupted, AddFidelity]) == 1 && Begun([AddCorrupted, AddFidelity]) == 1;
    assert [AddCorrupted, AddFidelity][..0] == [];
  }
}
