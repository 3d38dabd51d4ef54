/** The window of seen offsets: 64 offsets to a word, offset 0 in the lowest bit of word 0. */
module PackedWords {

  function Amount(n: nat): bv6
    requires n < 64
  {
    n as bv6
  }

  function Mask(n: nat): bv64
    requires n < 64
  {
    (1 as bv64) << Amount(n)
  }

  predicate Test(word: bv64, i: nat)
    requires i < 64
  {
    word & Mask(i) != 0
  }

  /** Offset `pos` is in the window. */
  predicate Bit(words: seq<bv64>, pos: int) {
    0 <= pos < 64 * |words| && Test(words[pos / 64], pos % 64)
  }

  /** The offsets the words stand for. */
  ghost function Offsets(words: seq<bv64>): set<nat> {
    set k: nat | k < 64 * |words| && Bit(words, k)
  }

  lemma AmountBack(n: nat)
    requires n < 64
    ensures Amount(n) as int == n
  {
  }

  lemma AmountBelow(n: nat)
    requires n < 63
    ensures Amount(n) < 63
  {
    AmountBack(n);
    AmountBack(63);
  }

  lemma NextAmount(b: bv6)
    requires b < 63
    ensures (b + 1) as int == b as int + 1
  {
  }

  lemma AmountNext(n: nat)
    requires n < 63
    ensures Amount(n + 1) == Amount(n) + 1
  {
    hide Amount;
    AmountBack(n);
    AmountBack(n + 1);
    AmountBelow(n);
    NextAmount(Amount(n));
  }

  lemma AmountDistinct(i: nat, j: nat)
    requires i < 64 && j < 64 && i != j
    ensures Amount(i) != Amount(j)
  {
    hide Amount;
    AmountBack(i);
    AmountBack(j);
  }

  lemma OrOther(word: bv64, a: bv6, b: bv6)
    requires a != b
    ensures (word | (1 << a)) & (1 << b) == word & (1 << b)
  {
  }

  /** `after` is `before` with d subtracted from every offset; offsets below d fall out. */
  ghost predicate LoweredBy(d: nat, before: set<nat>, after: set<nat>) {
    forall k: nat :: k in after <==> k + d in before
  }

  lemma LoweredAgain(d: nat, a: set<nat>, b: set<nat>, c: set<nat>)
    requires LoweredBy(d, a, b) && LoweredBy(1, b, c)
    ensures LoweredBy(d + 1, a, c)
  {
    forall k: nat ensures k in c <==> k + (d + 1) in a {
      assert k + 1 in b <==> (k + 1) + d in a;
    }
  }

  lemma TestSetOther(word: bv64, i: nat, j: nat)
    requires i < 64 && j < 64 && i != j
    ensures Test(word | Mask(i), j) == Test(word, j)
  {
    hide Amount;
    AmountDistinct(i, j);
    OrOther(word, Amount(i), Amount(j));
  }

  lemma TestSetSame(word: bv64, i: nat)
    requires i < 64
    ensures Test(word | Mask(i), i)
  {
    hide Amount;
  }

  /** One step of the shift: the low bit of the next word becomes the high bit of this one. */
  function Shifted(word: bv64, next: bv64): bv64 {
    (word >> 1) | ((next & 1) << 63)
  }

  lemma TestShifted(word: bv64, next: bv64, i: nat)
    requires i < 63
    ensures Test(Shifted(word, next), i) == Test(word, i + 1)
  {
    hide Amount;
    AmountBelow(i);
    AmountNext(i);
  }

  lemma TestShiftedTop(word: bv64, next: bv64)
    ensures Test(Shifted(word, next), 63) == Test(next, 0)
  {
  }

  lemma SetWord(words: seq<bv64>, pos: nat, k: nat)
    requires pos < 64 * |words|
    ensures Bit(words[pos / 64 := words[pos / 64] | Mask(pos % 64)], k) <==> k == pos || Bit(words, k)
  {
    hide Test, Mask;
    if k == pos {
      TestSetSame(words[pos / 64], pos % 64);
    } else if k < 64 * |words| && k / 64 == pos / 64 {
      TestSetOther(words[pos / 64], pos % 64, k % 64);
    }
  }

  lemma BitAt(words: seq<bv64>, i: nat, j: nat)
    requires j < 64
    ensures Bit(words, 64 * i + j) <==> i < |words| && Test(words[i], j)
  {
    hide Test;
    assert (64 * i + j) / 64 == i && (64 * i + j) % 64 == j;
  }

  lemma BitInside(words: seq<bv64>, k: nat)
    requires Bit(words, k)
    ensures k < 64 * |words|
  {
  }

  lemma ShiftWords(words: seq<bv64>, after: seq<bv64>, k: nat)
    requires |after| == |words|
    requires forall i | 0 <= i < |words| ::
               after[i] == Shifted(words[i], if i + 1 < |words| then words[i + 1] else 0)
    ensures Bit(after, k) <==> Bit(words, k + 1)
  {
    hide Bit, Test, Shifted;
    var i, j := k / 64, k % 64;
    BitAt(after, i, j);
    if j < 63 {
      BitAt(words, i, j + 1);
    } else {
      BitAt(words, i + 1, 0);
      ZeroWord();
    }
    if i < |words| {
      var next := if i + 1 < |words| then words[i + 1] else 0;
      if j < 63 {
        TestShifted(words[i], next, j);
      } else {
        TestShiftedTop(words[i], next);
      }
    }
  }

  lemma ShiftedOffsets(words: seq<bv64>, after: seq<bv64>)
    requires |after| == |words|
    requires forall i | 0 <= i < |words| ::
               after[i] == Shifted(words[i], if i + 1 < |words| then words[i + 1] else 0)
    ensures LoweredBy(1, Offsets(words), Offsets(after))
  {
    hide Bit, Shifted;
    forall k: nat ensures k in Offsets(after) <==> k + 1 in Offsets(words) {
      ShiftWords(words, after, k);
      if Bit(words, k + 1) { BitInside(words, k + 1); }
      if Bit(after, k) { BitInside(after, k); }
    }
  }

  lemma EmptyWords(words: seq<bv64>)
    requires forall i | 0 <= i < |words| :: words[i] == 0
    ensures Offsets(words) == {}
  {
    forall k: nat ensures !Bit(words, k) { }
  }

  lemma ZeroWord()
    ensures !Test(0, 0)
  {
  }

  method GetBit(window: array<bv64>, pos: int) returns (seen: bool)
    ensures seen <==> pos in Offsets(window[..])
  {
    if pos < 0 || pos >= window.Length * 64 {
      return false;
    }
    return Test(window[pos / 64], pos % 64);
  }

  method SetBit(window: array<bv64>, pos: int)
    modifies window
    ensures Offsets(window[..]) ==
            old(Offsets(window[..])) + (if 0 <= pos < 64 * window.Length then {pos} else {})
  {
    if pos < 0 || pos >= window.Length * 64 {
      return;
    }
    hide Test, Mask;
    ghost var before := window[..];
    window[pos / 64] := window[pos / 64] | Mask(pos % 64);
    assert window[..] == before[pos / 64 := before[pos / 64] | Mask(pos % 64)];
    forall k: nat ensures Bit(window[..], k) <==> k == pos || Bit(before, k) { SetWord(before, pos, k); }
  }

  /** Subtracts one from every offset, across word boundaries; offset 0 falls out. */
  method ShiftLeft(window: array<bv64>)
    modifies window
    ensures LoweredBy(1, old(Offsets(window[..])), Offsets(window[..]))
  {
    hide Offsets, Shifted;
    ghost var before := window[..];
    for i := 0 to window.Length
      invariant forall j | 0 <= j < i ::
                  window[j] == Shifted(before[j], if j + 1 < |before| then before[j + 1] else 0)
      invariant forall j | i <= j < window.Length :: window[j] == before[j]
    {
      // the last word has no next one and takes a zero
      window[i] := Shifted(window[i], if i + 1 < window.Length then window[i + 1] else 0);
    }
    ShiftedOffsets(before, window[..]);
  }

  /** `dist` shifts in a row. */
  method ShiftBy(window: array<bv64>, dist: nat)
    modifies window
    ensures LoweredBy(dist, old(Offsets(window[..])), Offsets(window[..]))
  {
    assert LoweredBy(0, Offsets(window[..]), Offsets(window[..]));
    hide Offsets, LoweredBy;
    for i := 0 to dist
      invariant LoweredBy(i, old(Offsets(window[..])), Offsets(window[..]))
    {
      ghost var offsets := Offsets(window[..]);
      ShiftLeft(window);
      LoweredAgain(i, old(Offsets(window[..])), offsets, Offsets(window[..]));
    }
  }
}
