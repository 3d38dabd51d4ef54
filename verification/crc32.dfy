/** The integrity tag of a message body: the reflected CRC-32 of section 8 of RFC 1952, printed as
    eight lower-case hexadecimal digits. */
module Crc32 {
  import opened Basics

  const POLY: bv32 := 0xEDB88320

  function Round(c: bv32): bv32 {
    if c & 1 != 0 then (c >> 1) ^ POLY else c >> 1
  }

  function Rounds(c: bv32, n: nat): bv32
    decreases n
  {
    if n == 0 then c else Rounds(Round(c), n - 1)
  }

  /** The register after one body byte. */
  function Feed(c: bv32, b: bv8): bv32 { Rounds(c ^ (b as bv32), 8) }

  function Register(body: seq<bv8>): bv32 {
    if body == [] then 0xFFFF_FFFF else Feed(Register(Init(body)), Last(body))
  }

  function Checksum(body: seq<bv8>): bv32 { !Register(body) }

  method Compute(data: array<bv8>) returns (crc: bv32)
    ensures crc == Checksum(data[..])
  {
    hide Feed;
    crc := 0xFFFF_FFFF;
    for i := 0 to data.Length
      invariant crc == Register(data[..i])
    {
      assert Init(data[..i + 1]) == data[..i];
      crc := FeedByte(crc, data[i]);
    }
    assert data[..data.Length] == data[..];
    crc := !crc;
  }

  /** The inner loop. */
  method FeedByte(before: bv32, b: bv8) returns (crc: bv32)
    ensures crc == Feed(before, b)
  {
    crc := before ^ (b as bv32);
    for k := 0 to 8
      invariant Rounds(crc, 8 - k) == Feed(before, b)
    {
      crc := if crc & 1 != 0 then (crc >> 1) ^ 0xEDB88320 else crc >> 1;
    }
  }

  // ---- the same register, bit by bit ---------------------------------------

  function Xor(c: bv32, x: bv32): bv32 { c ^ x }

  function BitIn(e: bool): bv32 { if e then 1 else 0 }

  function FeedBit(c: bv32, e: bool): bv32 { Round(Xor(c, BitIn(e))) }

  /** The register after a stream of bits, first bit first. */
  function FeedBits(c: bv32, bits: seq<bool>): bv32
    decreases |bits|
  {
    if bits == [] then c else FeedBits(FeedBit(c, bits[0]), bits[1..])
  }

  function Low(x: bv32): bool { x & 1 != 0 }

  function Half(x: bv32): bv32 { x >> 1 }

  /** The n low bits of x, lowest first. */
  function LowBits(x: bv32, n: nat): (bits: seq<bool>)
    ensures |bits| == n
    decreases n
  {
    if n == 0 then [] else [Low(x)] + LowBits(Half(x), n - 1)
  }

  function Bits(body: seq<bv8>): (bits: seq<bool>)
    ensures |bits| == 8 * |body|
  {
    if body == [] then [] else Bits(Init(body)) + LowBits(Last(body) as bv32, 8)
  }

  /** x without its n low bits. */
  function Rest(x: bv32, n: nat): bv32
    decreases n
  {
    if n == 0 then x else Rest(Half(x), n - 1)
  }

  lemma RoundForm(c: bv32)
    ensures Round(c) == if Low(c) then Xor(Half(c), POLY) else Half(c)
  {
  }

  lemma LowOfXor(c: bv32, x: bv32)
    ensures Low(Xor(c, x)) == (Low(c) != Low(x))
  {
  }

  lemma HalfOfXor(c: bv32, x: bv32)
    ensures Half(Xor(c, x)) == Xor(Half(c), Half(x))
  {
  }

  lemma OneBit(e: bool)
    ensures Low(BitIn(e)) == e && Half(BitIn(e)) == 0
  {
  }

  lemma PolySwaps(a: bv32, b: bv32)
    ensures Xor(Xor(a, b), POLY) == Xor(Xor(a, POLY), b)
  {
  }

  lemma XorZero(c: bv32)
    ensures Xor(c, 0) == c
  {
  }

  /** A whole word xored in at once is its low bit now and the other bits later. */
  lemma RoundTakesLowBit(c: bv32, x: bv32)
    ensures Round(Xor(c, x)) == Xor(FeedBit(c, Low(x)), Half(x))
  {
    hide Round, Xor, Low, Half, BitIn;
    RoundForm(Xor(c, x));
    LowOfXor(c, x);
    HalfOfXor(c, x);
    var bit := BitIn(Low(x));
    RoundForm(Xor(c, bit));
    LowOfXor(c, bit);
    HalfOfXor(c, bit);
    OneBit(Low(x));
    XorZero(Half(c));
    PolySwaps(Half(c), Half(x));
  }

  /** n rounds over a register with an n-bit word xored in: the register fed the word's bits. */
  lemma {:induction false} WordIsBits(c: bv32, x: bv32, n: nat)
    requires Rest(x, n) == 0
    ensures Rounds(Xor(c, x), n) == FeedBits(c, LowBits(x, n))
    decreases n
  {
    hide Round, Xor, FeedBit, Low, Half;
    if n > 0 {
      RoundTakesLowBit(c, x);
      WordIsBits(FeedBit(c, Low(x)), Half(x), n - 1);
      assert LowBits(x, n)[1..] == LowBits(Half(x), n - 1);
    } else {
      XorZero(c);
    }
  }

  // ---- bytes are their bits ------------------------------------------------

  lemma {:induction false} RestSplits(x: bv32, m: nat, n: nat)
    ensures Rest(x, m + n) == Rest(Rest(x, m), n)
    decreases m
  {
    hide Half;
    if m > 0 { RestSplits(Half(x), m - 1, n); }
  }

  lemma HalfMonotone(x: bv32, y: bv32)
    requires x <= y
    ensures Half(x) <= Half(y)
  {
  }

  lemma {:induction false} RestMonotone(x: bv32, y: bv32, n: nat)
    requires x <= y
    ensures Rest(x, n) <= Rest(y, n)
    decreases n
  {
    hide Half;
    if n > 0 {
      HalfMonotone(x, y);
      RestMonotone(Half(x), Half(y), n - 1);
    }
  }

  lemma RestOfByte(b: bv8)
    ensures Rest(b as bv32, 8) == 0
  {
    RestMonotone(b as bv32, 0xFF, 8);
    assert Rest(0xFF, 8) == 0;
  }

  lemma FourDown(x: bv32, n: nat)
    ensures Rest(x, n + 4) == Rest(x >> 4, n)
  {
    assert Rest(x, n + 4) == Rest(x >> 1, n + 3) == Rest(x >> 2, n + 2) == Rest(x >> 3, n + 1);
  }

  lemma TopBitDown()
    ensures Rest(0x8000_0000, 31) == 1
  {
    FourDown(0x8000_0000, 27);
    FourDown(0x800_0000, 23);
    FourDown(0x80_0000, 19);
    FourDown(0x8_0000, 15);
    FourDown(0x8000, 11);
    FourDown(0x800, 7);
    FourDown(0x80, 3);
    assert Rest(8, 3) == 1;
  }

  lemma RestOfTopBit(y: bv32)
    requires Rest(y, 31) == 0
    ensures y < 0x8000_0000
  {
    TopBitDown();
    if y >= 0x8000_0000 { RestMonotone(0x8000_0000, y, 31); }
  }

  lemma {:induction false} FeedBitsAppend(c: bv32, u: seq<bool>, v: seq<bool>)
    ensures FeedBits(c, u + v) == FeedBits(FeedBits(c, u), v)
    decreases |u|
  {
    hide FeedBit;
    if u == [] {
      assert u + v == v;
    } else {
      FeedBitsAppend(FeedBit(c, u[0]), u[1..], v);
      assert (u + v)[1..] == u[1..] + v;
    }
  }

  lemma FeedIsBits(c: bv32, b: bv8)
    ensures Feed(c, b) == FeedBits(c, LowBits(b as bv32, 8))
  {
    hide Rounds, FeedBits, LowBits, Rest;
    RestOfByte(b);
    WordIsBits(c, b as bv32, 8);
  }

  /** Byte by byte or bit by bit, the register is the same. */
  lemma {:induction false} RegisterIsBits(body: seq<bv8>)
    ensures Register(body) == FeedBits(0xFFFF_FFFF, Bits(body))
  {
    hide Feed, FeedBit, LowBits;
    if body != [] {
      RegisterIsBits(Init(body));
      FeedIsBits(Register(Init(body)), Last(body));
      FeedBitsAppend(0xFFFF_FFFF, Bits(Init(body)), LowBits(Last(body) as bv32, 8));
    }
  }

  // ---- nothing is forgotten ------------------------------------------------

  lemma RoundInjective(c: bv32, d: bv32)
    requires Round(c) == Round(d)
    ensures c == d
  {
  }

  lemma {:induction false} RoundsInjective(c: bv32, d: bv32, n: nat)
    requires Rounds(c, n) == Rounds(d, n)
    ensures c == d
    decreases n
  {
    hide Round;
    if n > 0 {
      RoundsInjective(Round(c), Round(d), n - 1);
      RoundInjective(c, d);
    }
  }

  lemma FeedBitInjective(c: bv32, d: bv32, e: bool)
    requires FeedBit(c, e) == FeedBit(d, e)
    ensures c == d
  {
    RoundInjective(Xor(c, BitIn(e)), Xor(d, BitIn(e)));
  }

  lemma {:induction false} FeedBitsInjective(c: bv32, d: bv32, bits: seq<bool>)
    requires FeedBits(c, bits) == FeedBits(d, bits)
    ensures c == d
    decreases |bits|
  {
    hide FeedBit;
    if bits != [] {
      FeedBitsInjective(FeedBit(c, bits[0]), FeedBit(d, bits[0]), bits[1..]);
      FeedBitInjective(c, d, bits[0]);
    }
  }

  function Push(y: bv32, e: bool): bv32 { (y << 1) | BitIn(e) }

  /** The word whose low bits are the given ones. */
  function Word(bits: seq<bool>): bv32 {
    if bits == [] then 0 else Push(Word(bits[1..]), bits[0])
  }

  lemma PushThenHalf(y: bv32, e: bool)
    requires y < 0x8000_0000
    ensures Half(Push(y, e)) == y && Low(Push(y, e)) == e
  {
  }

  lemma RestOfZero(n: nat)
    ensures Rest(0, n) == 0
  {
    if n > 0 { RestOfZero(n - 1); }
  }

  lemma WordTopClear(y: bv32, n: nat)
    requires n <= 31 && Rest(y, n) == 0
    ensures y < 0x8000_0000
  {
    hide Rest;
    RestSplits(y, n, 31 - n);
    RestOfZero(31 - n);
    RestOfTopBit(y);
  }

  lemma {:induction false} WordFits(bits: seq<bool>)
    requires |bits| <= 32
    ensures Rest(Word(bits), |bits|) == 0 && LowBits(Word(bits), |bits|) == bits
  {
    hide Push, Half, Low;
    if bits != [] {
      var y := Word(bits[1..]);
      WordFits(bits[1..]);
      WordTopClear(y, |bits| - 1);
      PushThenHalf(y, bits[0]);
    }
  }

  lemma XorInjective(c: bv32, x: bv32, y: bv32)
    requires Xor(c, x) == Xor(c, y)
    ensures x == y
  {
  }

  /** Up to 32 bits fed to one register can be read back from the result. */
  lemma ShortBitsInjective(c: bv32, u: seq<bool>, v: seq<bool>)
    requires |u| == |v| <= 32 && FeedBits(c, u) == FeedBits(c, v)
    ensures u == v
  {
    hide Rounds, FeedBits, LowBits, Rest, Word, Xor;
    WordFits(u);
    WordFits(v);
    WordIsBits(c, Word(u), |u|);
    WordIsBits(c, Word(v), |v|);
    RoundsInjective(Xor(c, Word(u)), Xor(c, Word(v)), |u|);
    XorInjective(c, Word(u), Word(v));
  }

  // ---- detection -----------------------------------------------------------

  lemma LowBitsOfByte(a: bv8, b: bv8)
    requires LowBits(a as bv32, 8) == LowBits(b as bv32, 8)
    ensures a == b
  {
    hide LowBits, Rest, FeedBits, Rounds, Xor;
    FeedIsBits(0, a);
    FeedIsBits(0, b);
    RoundsInjective(0 ^ (a as bv32), 0 ^ (b as bv32), 8);
  }

  lemma SameHalves<T>(p: seq<T>, u: seq<T>, q: seq<T>, v: seq<T>)
    requires p + u == q + v && |p| == |q|
    ensures p == q && u == v
  {
    assert p == (p + u)[..|p|] == (q + v)[..|q|] == q;
    assert u == (p + u)[|p|..] == (q + v)[|q|..] == v;
  }

  lemma {:induction false} BitsInjective(a: seq<bv8>, b: seq<bv8>)
    requires Bits(a) == Bits(b)
    ensures a == b
  {
    hide LowBits;
    if a != [] {
      SameHalves(Bits(Init(a)), LowBits(Last(a) as bv32, 8), Bits(Init(b)), LowBits(Last(b) as bv32, 8));
      BitsInjective(Init(a), Init(b));
      LowBitsOfByte(Last(a), Last(b));
      assert a == Init(a) + [Last(a)] && b == Init(b) + [Last(b)];
    }
  }

  /** Two different bodies of one length whose bits agree outside some 32 consecutive bits have
      different checksums: every burst of up to 32 bits is detected, whatever the body's length. */
  lemma BurstDetected(a: seq<bv8>, b: seq<bv8>, i: nat, n: nat)
    requires |a| == |b| && a != b && n <= 32 && i + n <= 8 * |a|
    requires Bits(a)[..i] == Bits(b)[..i] && Bits(a)[i + n..] == Bits(b)[i + n..]
    ensures Checksum(a) != Checksum(b)
  {
    hide FeedBits, LowBits, Bits, Register;
    if Checksum(a) == Checksum(b) {
      var x, y := Bits(a), Bits(b);
      var c := FeedBits(0xFFFF_FFFF, x[..i]);
      RegisterIsBits(a);
      RegisterIsBits(b);
      SplitFeed(0xFFFF_FFFF, x, i, n);
      SplitFeed(0xFFFF_FFFF, y, i, n);
      FeedBitsInjective(FeedBits(c, x[i..i + n]), FeedBits(c, y[i..i + n]), x[i + n..]);
      ShortBitsInjective(c, x[i..i + n], y[i..i + n]);
      assert x == x[..i] + x[i..i + n] + x[i + n..] == y;
      BitsInjective(a, b);
    }
  }

  lemma SplitFeed(c: bv32, bits: seq<bool>, i: nat, n: nat)
    requires i + n <= |bits|
    ensures FeedBits(c, bits) == FeedBits(FeedBits(FeedBits(c, bits[..i]), bits[i..i + n]), bits[i + n..])
  {
    hide FeedBits;
    assert bits == bits[..i] + bits[i..i + n] + bits[i + n..];
    FeedBitsAppend(c, bits[..i] + bits[i..i + n], bits[i + n..]);
    FeedBitsAppend(c, bits[..i], bits[i..i + n]);
  }

  // ---- the tag -------------------------------------------------------------

  function Digit(d: bv4): char {
    var n := d as int;
    if n < 10 then '0' + n as char else 'a' + (n - 10) as char
  }

  function LowDigit(x: bv32): bv4 { (x & 0xF) as bv4 }

  function HighDigits(x: bv32): bv32 { x >> 4 }

  /** The n low digits, highest first, padded with zeros. */
  function Digits(x: bv32, n: nat): (s: string)
    ensures |s| == n
    decreases n
  {
    if n == 0 then "" else Digits(HighDigits(x), n - 1) + [Digit(LowDigit(x))]
  }

  function Hex(x: bv32): string { Digits(x, 8) }

  function Tag(body: seq<bv8>): string { Hex(Checksum(body)) }

  predicate VerifyCrc(body: seq<bv8>, tag: string) { Hex(Checksum(body)) == tag }

  /** Reading a digit, and a number in positional notation, highest digit first. */
  function Undigit(c: char): bv4 {
    if '0' <= c <= '9' then (c as int - '0' as int) as bv4
    else if 'a' <= c <= 'f' then (c as int - 'a' as int + 10) as bv4
    else 0
  }

  function Joined(high: bv32, low: bv4): bv32 { (high << 4) | (low as bv32) }

  function ParseHex(s: string): bv32 {
    if s == "" then 0 else Joined(ParseHex(Init(s)), Undigit(Last(s)))
  }

  lemma UndigitDigit(d: bv4)
    ensures Undigit(Digit(d)) == d
  {
  }

  lemma JoinedBack(x: bv32)
    ensures Joined(HighDigits(x), LowDigit(x)) == x
  {
  }

  /** x has at most n digits. */
  predicate Fits(x: bv32, n: nat)
    decreases n
  {
    if n == 0 then x == 0 else Fits(HighDigits(x), n - 1)
  }

  lemma HighDigitsMonotone(x: bv32, y: bv32)
    requires x <= y
    ensures HighDigits(x) <= HighDigits(y)
  {
  }

  lemma {:induction false} FitsMonotone(x: bv32, y: bv32, n: nat)
    requires x <= y && Fits(y, n)
    ensures Fits(x, n)
    decreases n
  {
    hide HighDigits;
    if n > 0 {
      HighDigitsMonotone(x, y);
      FitsMonotone(HighDigits(x), HighDigits(y), n - 1);
    }
  }

  lemma EightDigitsFit(x: bv32)
    ensures Fits(x, 8)
  {
    assert Fits(0xFF, 2) && Fits(0xFFF, 3) && Fits(0xFFFF, 4) && Fits(0xF_FFFF, 5);
    assert Fits(0xFF_FFFF, 6) && Fits(0xFFF_FFFF, 7);
    FitsMonotone(x, 0xFFFF_FFFF, 8);
  }

  lemma {:induction false} ParseDigits(x: bv32, n: nat)
    requires Fits(x, n)
    ensures ParseHex(Digits(x, n)) == x
    decreases n
  {
    hide HighDigits, LowDigit, Joined, Digit, Undigit;
    if n > 0 {
      ParseDigits(HighDigits(x), n - 1);
      assert Init(Digits(x, n)) == Digits(HighDigits(x), n - 1);
      UndigitDigit(LowDigit(x));
      JoinedBack(x);
    }
  }

  /** The tag spells the checksum. */
  lemma HexRoundTrip(x: bv32)
    ensures |Hex(x)| == 8 && ParseHex(Hex(x)) == x
  {
    EightDigitsFit(x);
    ParseDigits(x, 8);
  }

  lemma {:induction false} BitsAppend(a: seq<bv8>, b: seq<bv8>)
    ensures Bits(a + b) == Bits(a) + Bits(b)
  {
    hide LowBits;
    if b == [] {
      assert a + b == a;
    } else {
      BitsAppend(a, Init(b));
      assert Init(a + b) == a + Init(b) && Last(a + b) == Last(b);
    }
  }

  /** A body that arrives with up to four adjacent bytes altered, at any place and in any way, is
      rejected by the tag it was sent with; an unaltered one is accepted. */
  lemma AlteredBytesRejected(p: seq<bv8>, u: seq<bv8>, v: seq<bv8>, q: seq<bv8>)
    requires |u| == |v| <= 4
    ensures VerifyCrc(p + v + q, Tag(p + u + q)) <==> u == v
  {
    hide Bits, Checksum, Hex;
    var a, b := p + u + q, p + v + q;
    if u != v {
      MiddleDecides(p, u, v, q);
      BitsAppend(p + u, q);
      BitsAppend(p, u);
      BitsAppend(p + v, q);
      BitsAppend(p, v);
      var i, n := 8 * |p|, 8 * |u|;
      BurstDetected(a, b, i, n);
      HexRoundTrip(Checksum(a));
      HexRoundTrip(Checksum(b));
    }
  }

  lemma MiddleDecides(p: seq<bv8>, u: seq<bv8>, v: seq<bv8>, q: seq<bv8>)
    requires |u| == |v| && u != v
    ensures p + u + q != p + v + q
  {
    if p + u + q == p + v + q {
      SameHalves(p + u, q, p + v, q);
      SameHalves(p, u, p, v);
    }
  }
}
