/** What the checksum is, said without its rounds: a remainder of polynomial division over GF(2).
    A polynomial is its coefficients, highest first. */
module CrcRemainder {
  import opened Basics
  import opened Crc32

  /** The exponents of the generator of CRC-32 (section 8 of RFC 1952). */
  predicate HasTerm(k: nat) { k in {32, 26, 23, 22, 16, 12, 11, 10, 8, 7, 5, 4, 2, 1, 0} }

  function Terms(degree: nat): (p: seq<bool>)
    ensures |p| == degree + 1 && forall i | 0 <= i <= degree :: p[i] <==> HasTerm(degree - i)
  {
    if degree == 0 then [HasTerm(0)] else [HasTerm(degree)] + Terms(degree - 1)
  }

  function Generator(): (g: seq<bool>)
    ensures |g| == 33 && g[0]
  {
    Terms(32)
  }

  function Zeros(n: nat): (p: seq<bool>)
    ensures |p| == n && forall i | 0 <= i < n :: !p[i]
  {
    if n == 0 then [] else Zeros(n - 1) + [false]
  }

  function Ones(n: nat): (p: seq<bool>)
    ensures |p| == n && forall i | 0 <= i < n :: p[i]
  {
    if n == 0 then [] else Ones(n - 1) + [true]
  }

  /** Addition of polynomials written with equally many coefficients. */
  function Plus(a: seq<bool>, b: seq<bool>): (sum: seq<bool>)
    requires |a| == |b|
    ensures |sum| == |a|
  {
    if a == [] then [] else Plus(Init(a), Init(b)) + [Last(a) != Last(b)]
  }

  lemma {:induction false} PlusAt(a: seq<bool>, b: seq<bool>, i: nat)
    requires |a| == |b| && i < |a|
    ensures Plus(a, b)[i] <==> a[i] != b[i]
  {
    if i < |a| - 1 { PlusAt(Init(a), Init(b), i); }
  }

  /** A sum is known by its coefficients. */
  lemma PlusIs(a: seq<bool>, b: seq<bool>, sum: seq<bool>)
    requires |a| == |b| == |sum| && forall i | 0 <= i < |a| :: sum[i] <==> a[i] != b[i]
    ensures Plus(a, b) == sum
  {
    hide Plus;
    forall i | 0 <= i < |a| ensures Plus(a, b)[i] == sum[i] { PlusAt(a, b, i); }
  }

  function Scaled(e: bool, a: seq<bool>): (p: seq<bool>)
    ensures |p| == |a| && forall i | 0 <= i < |a| :: p[i] <==> e && a[i]
  {
    if e then a else Zeros(|a|)
  }

  /** The product of q and the generator: (q x + e) G == (q G) x + e G. */
  function TimesGenerator(q: seq<bool>): (p: seq<bool>)
    ensures |p| == |q| + 32
  {
    if q == [] then Zeros(32)
    else Plus(TimesGenerator(Init(q)) + [false], Zeros(|q| - 1) + Scaled(Last(q), Generator()))
  }

  /** The polynomial a message stands for: its bits times x^32, with 32 ones added at its head. */
  function Dividend(bits: seq<bool>): (p: seq<bool>)
    ensures |p| == |bits| + 32
  {
    Plus(bits + Zeros(32), Ones(32) + Zeros(|bits|))
  }

  ghost predicate Divides(bits: seq<bool>, q: seq<bool>, r: seq<bool>) {
    |q| == |bits| && |r| == 32 && Dividend(bits) == Plus(TimesGenerator(q), Zeros(|bits|) + r)
  }

  /** r, of degree below 32, is what division by the generator leaves. */
  ghost predicate IsRemainder(bits: seq<bool>, r: seq<bool>) {
    exists q :: Divides(bits, q, r)
  }

  // ---- there is only one ---------------------------------------------------

  lemma ProductForm(q: seq<bool>)
    requires q != []
    ensures TimesGenerator(q) ==
            Plus(TimesGenerator(Init(q)) + [false], Zeros(|q| - 1) + Scaled(Last(q), Generator()))
  {
    hide Generator, Plus, Zeros, Scaled;
  }

  lemma ProductAt(q: seq<bool>, i: nat)
    requires q != [] && i < |q| + 32
    ensures
      var n := |q| - 1;
      TimesGenerator(q)[i] <==>
      (i < n + 32 && TimesGenerator(Init(q))[i]) != (i >= n && Last(q) && Generator()[i - n])
  {
    hide TimesGenerator, Generator, Plus, Zeros, Scaled;
    ProductForm(q);
    var n := |q| - 1;
    PlusAt(TimesGenerator(Init(q)) + [false], Zeros(n) + Scaled(Last(q), Generator()), i);
    assert (TimesGenerator(Init(q)) + [false])[i] <==> i < n + 32 && TimesGenerator(Init(q))[i];
    assert (Zeros(n) + Scaled(Last(q), Generator()))[i] <==> i >= n && Last(q) && Generator()[i - n];
  }

  lemma {:induction false} LeadingDecides(p: seq<bool>, q: seq<bool>)
    requires |p| == |q| && TimesGenerator(p)[..|p|] == TimesGenerator(q)[..|q|]
    ensures p == q
  {
    hide TimesGenerator, Generator;
    if p != [] {
      var n := |p| - 1;
      var a, b := TimesGenerator(Init(p)), TimesGenerator(Init(q));
      forall i | 0 <= i <= n ensures TimesGenerator(p)[i] == TimesGenerator(q)[i] {
        assert TimesGenerator(p)[..|p|][i] == TimesGenerator(q)[..|q|][i];
      }
      forall i | 0 <= i < n ensures a[i] == b[i] {
        ProductAt(p, i);
        ProductAt(q, i);
      }
      assert a[..n] == b[..n];
      LeadingDecides(Init(p), Init(q));
      ProductAt(p, n);
      ProductAt(q, n);
      assert p == Init(p) + [Last(p)] && q == Init(q) + [Last(q)];
    }
  }

  lemma RemainderUnique(bits: seq<bool>, r: seq<bool>, s: seq<bool>)
    requires IsRemainder(bits, r) && IsRemainder(bits, s)
    ensures r == s
  {
    hide Dividend, TimesGenerator, Generator, Plus, Zeros;
    var p :| Divides(bits, p, r);
    var q :| Divides(bits, q, s);
    var n := |bits|;
    var d, a, b := Dividend(bits), TimesGenerator(p), TimesGenerator(q);
    forall i | 0 <= i < n ensures a[i] == b[i] {
      PlusAt(a, Zeros(n) + r, i);
      PlusAt(b, Zeros(n) + s, i);
      assert d[i] == (a[i] != (Zeros(n) + r)[i]) && d[i] == (b[i] != (Zeros(n) + s)[i]);
    }
    assert a[..n] == b[..n];
    LeadingDecides(p, q);
    forall i | 0 <= i < 32 ensures r[i] == s[i] {
      PlusAt(a, Zeros(n) + r, n + i);
      PlusAt(b, Zeros(n) + s, n + i);
      assert d[n + i] == (a[n + i] != (Zeros(n) + r)[n + i]) && d[n + i] == (b[n + i] != (Zeros(n) + s)[n + i]);
    }
  }

  // ---- one more bit --------------------------------------------------------

  /** The remainder after one more message bit: times x, with the bit at x^32, less the generator
      when that leaves a term in x^32. */
  function NextRemainder(r: seq<bool>, e: bool): (next: seq<bool>)
    requires |r| == 32
    ensures |next| == 32
  {
    Plus(r[1..] + [false], Scaled(r[0] != e, Generator()[1..]))
  }

  lemma DividendSnoc(bits: seq<bool>, e: bool, i: nat)
    requires i < |bits| + 33
    ensures
      var n := |bits|;
      Dividend(bits + [e])[i] == ((i < n + 32 && Dividend(bits)[i]) != (i == n && e))
  {
    hide Plus, Zeros, Ones;
    var n := |bits|;
    PlusAt(bits + [e] + Zeros(32), Ones(32) + Zeros(n + 1), i);
    if i < n + 32 { PlusAt(bits + Zeros(32), Ones(32) + Zeros(n), i); }
    assert (bits + [e] + Zeros(32))[i] == (if i < n then bits[i] else i == n && e);
    assert i < n + 32 ==> (bits + Zeros(32))[i] == (i < n && bits[i]);
    assert (Ones(32) + Zeros(n + 1))[i] == (i < 32);
    assert i < n + 32 ==> (Ones(32) + Zeros(n))[i] == (i < 32);
  }

  lemma DividesSnoc(bits: seq<bool>, q: seq<bool>, r: seq<bool>, e: bool)
    requires Divides(bits, q, r)
    ensures Divides(bits + [e], q + [r[0] != e], NextRemainder(r, e))
  {
    hide Dividend, TimesGenerator, Generator, Plus, Zeros, Scaled;
    var n, t := |bits|, r[0] != e;
    var next := NextRemainder(r, e);
    assert Init(q + [t]) == q;
    forall i | 0 <= i < n + 33
      ensures Dividend(bits + [e])[i] == Plus(TimesGenerator(q + [t]), Zeros(n + 1) + next)[i]
    {
      DividendSnoc(bits, e, i);
      ProductAt(q + [t], i);
      PlusAt(TimesGenerator(q + [t]), Zeros(n + 1) + next, i);
      if i < n + 32 {
        PlusAt(TimesGenerator(q), Zeros(n) + r, i);
        assert Dividend(bits)[i] == (TimesGenerator(q)[i] != (i >= n && r[i - n]));
      }
      assert (Zeros(n + 1) + next)[i] == (i > n && next[i - n - 1]);
      if i > n {
        PlusAt(r[1..] + [false], Scaled(t, Generator()[1..]), i - n - 1);
        assert next[i - n - 1] == ((i < n + 32 && r[i - n]) != (t && Generator()[i - n]));
      }
    }
    assert |bits + [e]| == n + 1;
    assert Dividend(bits + [e]) == Plus(TimesGenerator(q + [t]), Zeros(n + 1) + next);
  }

  // ---- the register is the remainder ---------------------------------------

  lemma PlusOne(x: bool, y: bool)
    ensures Plus([x], [y]) == [x != y] && Plus([], []) == []
  {
    assert Init([x]) == [] && Init([y]) == [];
  }

  lemma PlusSnoc(a: seq<bool>, x: bool, b: seq<bool>, y: bool)
    requires |a| == |b|
    ensures Plus(a + [x], b + [y]) == Plus(a, b) + [x != y]
  {
    assert Init(a + [x]) == a && Init(b + [y]) == b;
  }

  lemma {:induction false} PlusCons(x: bool, a: seq<bool>, y: bool, b: seq<bool>)
    requires |a| == |b|
    ensures Plus([x] + a, [y] + b) == [x != y] + Plus(a, b)
    decreases |a|
  {
    hide Plus;
    if a == [] {
      assert [x] + a == [x] && [y] + b == [y] && a == b == [];
      PlusOne(x, y);
    } else {
      var c, d, u, v := Init(a), Init(b), Last(a), Last(b);
      assert a == c + [u] && b == d + [v];
      PlusCons(x, c, y, d);
      assert [x] + a == ([x] + c) + [u] && [y] + b == ([y] + d) + [v];
      PlusSnoc([x] + c, u, [y] + d, v);
      PlusSnoc(c, u, d, v);
    }
  }

  lemma {:induction false} LowBitsOfXor(c: bv32, x: bv32, n: nat)
    ensures LowBits(Xor(c, x), n) == Plus(LowBits(c, n), LowBits(x, n))
    decreases n
  {
    hide Xor, Low, Half, Plus;
    if n > 0 {
      LowOfXor(c, x);
      HalfOfXor(c, x);
      LowBitsOfXor(Half(c), Half(x), n - 1);
      PlusCons(Low(c), LowBits(Half(c), n - 1), Low(x), LowBits(Half(x), n - 1));
    }
  }

  lemma {:induction false} LowBitsSnoc(x: bv32, n: nat)
    ensures LowBits(x, n + 1) == LowBits(x, n) + [Low(Rest(x, n))]
    decreases n
  {
    hide Low, Half;
    if n > 0 { LowBitsSnoc(Half(x), n - 1); }
  }

  lemma NothingAbove32(x: bv32)
    ensures Rest(x, 32) == 0
  {
    hide Rest;
    AllOnesDown();
    RestMonotone(x, 0xFFFF_FFFF, 32);
  }

  lemma AllOnesDown()
    ensures Rest(0xFFFF_FFFF, 32) == 0
  {
    FourDown(0xFFFF_FFFF, 28);
    FourDown(0xFFF_FFFF, 24);
    FourDown(0xFF_FFFF, 20);
    FourDown(0xF_FFFF, 16);
    FourDown(0xFFFF, 12);
    FourDown(0xFFF, 8);
    FourDown(0xFF, 4);
    FourDown(0xF, 0);
  }

  lemma LowBitsOfHalf(c: bv32)
    ensures LowBits(Half(c), 32) == LowBits(c, 32)[1..] + [false]
  {
    hide Half, Rest;
    LowBitsSnoc(c, 32);
    NothingAbove32(c);
    assert LowBits(c, 33) == [Low(c)] + LowBits(Half(c), 32);
    assert LowBits(c, 33)[1..] == LowBits(Half(c), 32);
  }

  /** Four low bits at a time. */
  lemma Nibble(x: bv32, n: nat)
    ensures LowBits(x, n + 4) ==
            [x & 1 != 0, (x >> 1) & 1 != 0, (x >> 2) & 1 != 0, (x >> 3) & 1 != 0] + LowBits(x >> 4, n)
  {
    assert Half(x) == x >> 1 && Half(x >> 1) == x >> 2 && Half(x >> 2) == x >> 3 && Half(x >> 3) == x >> 4;
    assert LowBits(x, n + 4) == [Low(x)] + LowBits(x >> 1, n + 3);
    assert LowBits(x >> 1, n + 3) == [Low(x >> 1)] + LowBits(x >> 2, n + 2);
    assert LowBits(x >> 2, n + 2) == [Low(x >> 2)] + LowBits(x >> 3, n + 1);
    assert LowBits(x >> 3, n + 1) == [Low(x >> 3)] + LowBits(x >> 4, n);
  }

  /** The constant of the rounds is the generator without its leading term, highest exponent in the
      lowest bit. */
  lemma PolyIsGenerator()
    ensures LowBits(POLY, 32) == Generator()[1..]
  {
    hide LowBits, Terms;
    var f, t := false, true;
    var bits := [f, f, f, f, f, t, f, f, t, t, f, f, f, f, f, t, f, f, f, t, t, t, f, t, t, f, t, t, f, t, t, t];
    PolyBits();
    forall i | 0 <= i < 32 ensures Generator()[1..][i] == bits[i] {
      assert Terms(32)[i + 1] <==> HasTerm(31 - i);
    }
    assert Generator()[1..] == bits;
  }

  lemma PolyBits()
    ensures
      var f, t := false, true;
      LowBits(POLY, 32) ==
      [f, f, f, f, f, t, f, f, t, t, f, f, f, f, f, t, f, f, f, t, t, t, f, t, t, f, t, t, f, t, t, t]
  {
    hide LowBits;
    var f, t := false, true;
    PolyLowBits();
    Nibble(0xEDB883, 20);
    Nibble(0xEDB8832, 24);
    Nibble(0xEDB88320, 28);
    var low := LowBits(0xEDB88, 20);
    assert LowBits(0xEDB883, 24) == [t, t, f, f] + low;
    assert LowBits(0xEDB8832, 28) == [f, t, f, f] + ([t, t, f, f] + low);
    assert LowBits(0xEDB88320, 32) == [f, f, f, f] + ([f, t, f, f] + ([t, t, f, f] + low));
  }

  lemma PolyLowBits()
    ensures
      var f, t := false, true;
      LowBits(0xEDB88, 20) == [f, f, f, t, f, f, f, t, t, t, f, t, t, f, t, t, f, t, t, t]
  {
    hide LowBits;
    var f, t := false, true;
    NoBits();
    Nibble(0xE, 0);
    Nibble(0xED, 4);
    Nibble(0xEDB, 8);
    Nibble(0xEDB8, 12);
    Nibble(0xEDB88, 16);
    assert LowBits(0xE, 4) == [f, t, t, t] + [];
    assert LowBits(0xED, 8) == [t, f, t, t] + [f, t, t, t];
    assert LowBits(0xEDB, 12) == [t, t, f, t] + [t, f, t, t, f, t, t, t];
    assert LowBits(0xEDB8, 16) == [f, f, f, t] + [t, t, f, t, t, f, t, t, f, t, t, t];
    assert LowBits(0xEDB88, 20) == [f, f, f, t] + [f, f, f, t, t, t, f, t, t, f, t, t, f, t, t, t];
  }

  lemma NoBits()
    ensures LowBits(0, 0) == []
  {
  }

  lemma PlusZeros(a: seq<bool>)
    ensures Plus(a, Zeros(|a|)) == a
  {
    hide Zeros;
    PlusIs(a, Zeros(|a|), a);
  }

  /** One bit fed to the register is one step of the division. */
  lemma FeedBitIsStep(c: bv32, e: bool)
    ensures LowBits(FeedBit(c, e), 32) == NextRemainder(LowBits(c, 32), e)
  {
    hide Round, Xor, Low, Half, BitIn, Plus, Generator, POLY;
    var bit := BitIn(e);
    RoundForm(Xor(c, bit));
    LowOfXor(c, bit);
    HalfOfXor(c, bit);
    OneBit(e);
    XorZero(Half(c));
    LowBitsOfHalf(c);
    LowBitsOfXor(Half(c), POLY, 32);
    PolyIsGenerator();
    PlusZeros(LowBits(c, 32)[1..] + [false]);
  }

  lemma AllOnesBits()
    ensures LowBits(0xFFFF_FFFF, 32) == Ones(32)
  {
    hide LowBits, Ones;
    var four := [true, true, true, true];
    NoBits();
    Nibble(0xF, 0);
    Nibble(0xFF, 4);
    Nibble(0xFFF, 8);
    Nibble(0xFFFF, 12);
    Nibble(0xF_FFFF, 16);
    Nibble(0xFF_FFFF, 20);
    Nibble(0xFFF_FFFF, 24);
    Nibble(0xFFFF_FFFF, 28);
    assert LowBits(0xFFFF, 16) == four + (four + (four + (four + [])));
    assert LowBits(0xFFFF_FFFF, 32) == four + (four + (four + (four + LowBits(0xFFFF, 16))));
  }

  lemma EmptyDivides()
    ensures Divides([], [], Ones(32))
  {
    hide Ones, Zeros, Plus;
    var left, right := Dividend([]), Plus(TimesGenerator([]), Zeros(0) + Ones(32));
    assert [] + Zeros(32) == Zeros(32) && Ones(32) + Zeros(0) == Ones(32) && Zeros(0) + Ones(32) == Ones(32);
    assert left == right;
  }

  /** The register after any bits is the remainder of the message they make. */
  lemma {:induction false} RegisterIsRemainder(bits: seq<bool>)
    ensures IsRemainder(bits, LowBits(FeedBits(0xFFFF_FFFF, bits), 32))
  {
    hide Divides, LowBits, FeedBit, NextRemainder;
    if bits == [] {
      AllOnesBits();
      EmptyDivides();
    } else {
      var before, e := FeedBits(0xFFFF_FFFF, Init(bits)), Last(bits);
      RegisterIsRemainder(Init(bits));
      var q :| Divides(Init(bits), q, LowBits(before, 32));
      DividesSnoc(Init(bits), q, LowBits(before, 32), e);
      FeedBitIsStep(before, e);
      FeedBitsAppend(0xFFFF_FFFF, Init(bits), [e]);
      assert FeedBits(before, [e]) == FeedBit(before, e);
      assert bits == Init(bits) + [e];
    }
  }

  function Flipped(bits: seq<bool>): (f: seq<bool>)
    requires |bits| == 32
    ensures |f| == 32
  {
    Plus(bits, Ones(32))
  }

  lemma NotIsXor(x: bv32)
    ensures !x == Xor(x, 0xFFFF_FFFF)
  {
  }

  lemma FlippedTwice(bits: seq<bool>)
    requires |bits| == 32
    ensures Flipped(Flipped(bits)) == bits
  {
    hide Plus, Ones;
    forall i | 0 <= i < 32 ensures bits[i] <==> Flipped(bits)[i] != Ones(32)[i] { PlusAt(bits, Ones(32), i); }
    PlusIs(Flipped(bits), Ones(32), bits);
  }

  lemma NotFlips(x: bv32)
    ensures LowBits(!x, 32) == Flipped(LowBits(x, 32))
  {
    hide LowBits, Xor, Plus, Ones;
    NotIsXor(x);
    LowBitsOfXor(x, 0xFFFF_FFFF, 32);
    AllOnesBits();
  }

  lemma ZeroXor(x: bv32)
    ensures Xor(0, x) == x
  {
  }

  /** A word is its 32 bits. */
  lemma WordDecides(x: bv32, y: bv32)
    requires LowBits(x, 32) == LowBits(y, 32)
    ensures x == y
  {
    hide LowBits, Rest, FeedBits, Rounds, Xor;
    NothingAbove32(x);
    NothingAbove32(y);
    WordIsBits(0, x, 32);
    WordIsBits(0, y, 32);
    RoundsInjective(Xor(0, x), Xor(0, y), 32);
    ZeroXor(x);
    ZeroXor(y);
  }

  lemma ChecksumFlips(body: seq<bv8>)
    ensures LowBits(Checksum(body), 32) == Flipped(LowBits(Register(body), 32))
  {
    hide LowBits, Flipped, Register;
    NotFlips(Register(body));
  }

  /** A word is the checksum of a body if and only if its complement is the remainder of the body's
      bits, lowest bit of each byte first, headed by 32 ones. */
  lemma ChecksumIsRemainder(body: seq<bv8>, c: bv32)
    ensures c == Checksum(body) <==> IsRemainder(Bits(body), Flipped(LowBits(c, 32)))
  {
    hide LowBits, FeedBits, Bits, IsRemainder, Register, Flipped, Checksum;
    var register := LowBits(Register(body), 32);
    RegisterIsBits(body);
    RegisterIsRemainder(Bits(body));
    ChecksumFlips(body);
    FlippedTwice(register);
    if IsRemainder(Bits(body), Flipped(LowBits(c, 32))) {
      RemainderUnique(Bits(body), Flipped(LowBits(c, 32)), register);
      FlippedTwice(LowBits(c, 32));
      WordDecides(c, Checksum(body));
    }
  }

  lemma KnownStep(text: seq<bv8>, n: nat)
    requires 0 < n <= |text|
    ensures Register(text[..n]) == Feed(Register(text[..n - 1]), text[n - 1])
  {
    hide Feed;
    assert Init(text[..n]) == text[..n - 1];
  }

  lemma KnownFeeds1()
    ensures Feed(0xFFFF_FFFF, 0x31) == 0x7C23_1048 && Feed(0x7C23_1048, 0x32) == 0xB0AC_BB32
    ensures Feed(0xB0AC_BB32, 0x33) == 0x77B7_9C2D
  {
  }

  lemma KnownFeeds2()
    ensures Feed(0x77B7_9C2D, 0x34) == 0x641C_1F5C && Feed(0x641C_1F5C, 0x35) == 0x340A_C5E3
    ensures Feed(0x340A_C5E3, 0x36) == 0xF68D_2C9E
  {
  }

  lemma KnownFeeds3()
    ensures Feed(0xF68D_2C9E, 0x37) == 0xAFFC_9660 && Feed(0xAFFC_9660, 0x38) == 0x651F_2550
    ensures Feed(0x651F_2550, 0x39) == 0x340B_C6D9
  {
  }

  /** The published check value: the checksum of "123456789". */
  lemma KnownValue()
    ensures Checksum([0x31, 0x32, 0x33, 0x34, 0x35, 0x36, 0x37, 0x38, 0x39]) == 0xCBF4_3926
  {
    hide Register, Feed;
    KnownFeeds1();
    KnownFeeds2();
    KnownFeeds3();
    var text: seq<bv8> := [0x31, 0x32, 0x33, 0x34, 0x35, 0x36, 0x37, 0x38, 0x39];
    assert Register(text[..0]) == 0xFFFF_FFFF by { NoText(text); }
    KnownStep(text, 1);
    KnownStep(text, 2);
    KnownStep(text, 3);
    KnownStep(text, 4);
    KnownStep(text, 5);
    KnownStep(text, 6);
    KnownStep(text, 7);
    KnownStep(text, 8);
    KnownStep(text, 9);
    assert text[..9] == text;
  }

  /** And its tag, in lower case. */
  lemma KnownTag()
    ensures Tag([0x31, 0x32, 0x33, 0x34, 0x35, 0x36, 0x37, 0x38, 0x39]) == "cbf43926"
  {
    hide Checksum, Digits;
    KnownValue();
    NoDigits();
    LastDigit(0xC, 1, 'c');
    LastDigit(0xCB, 2, 'b');
    LastDigit(0xCBF, 3, 'f');
    LastDigit(0xCBF4, 4, '4');
    LastDigit(0xC_BF43, 5, '3');
    LastDigit(0xCB_F439, 6, '9');
    LastDigit(0xCBF_4392, 7, '2');
    LastDigit(0xCBF4_3926, 8, '6');
  }

  lemma NoDigits()
    ensures Digits(0, 0) == ""
  {
  }

  lemma LastDigit(x: bv32, n: nat, c: char)
    requires n > 0 && Digit((x & 0xF) as bv4) == c
    ensures Digits(x, n) == Digits(x >> 4, n - 1) + [c]
  {
  }

  lemma NoText(text: seq<bv8>)
    ensures Register(text[..0]) == 0xFFFF_FFFF
  {
  }
}
