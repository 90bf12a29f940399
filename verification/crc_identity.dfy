/** Which checksum it is: laws that hold of the Castagnoli polynomial and not of its relatives, and the published
    check values. */
module CrcIdentity {
  import opened Bytes
  import opened Seqs
  import opened Records
  import opened Crc

  // The polynomial has x + 1 as a factor: parity goes through.

  /** The number of ones is odd. */
  predicate Odd(s: seq<bool>) {
    s != [] && s[0] != Odd(s[1..])
  }

  /** ... over all the digits of the bytes. */
  predicate OddBytes(p: seq<byte>) {
    p != [] && Odd(BitsOf(p[0], 8)) != OddBytes(p[1..])
  }

  lemma {:induction false} OddSplit(a: seq<bool>, b: seq<bool>)
    ensures Odd(a + b) == (Odd(a) != Odd(b))
    decreases |a|
  {
    if a == [] {
      EmptyUnit(b);
    } else {
      assert (a + b)[1..] == a[1..] + b;
      OddSplit(a[1..], b);
    }
  }

  lemma {:induction false} OddDiffer(a: seq<bool>, b: seq<bool>, c: seq<bool>)
    requires |a| == |b| == |c| && forall i | 0 <= i < |a| :: c[i] == (a[i] != b[i])
    ensures Odd(c) == (Odd(a) != Odd(b))
    decreases |a|
  {
    if a != [] {
      OddDiffer(a[1..], b[1..], c[1..]);
    }
  }

  lemma {:induction false} NoOnes(s: seq<bool>)
    requires forall i | 0 <= i < |s| :: !s[i]
    ensures !Odd(s)
    decreases |s|
  {
    if s != [] {
      NoOnes(s[1..]);
    }
  }

  lemma PolynomialPart0()
    ensures Polynomial()[0..8] == [false, false, false, true, true, true, true, false]
  {
    var p := Polynomial();
    assert !p[0] && !p[1] && !p[2] && p[3];
    assert p[4] && p[5] && p[6] && !p[7];
    assert p[0..8] == [p[0], p[1], p[2], p[3], p[4], p[5], p[6], p[7]];
  }

  lemma PolynomialPart1()
    ensures Polynomial()[8..16] == [true, true, false, true, true, true, false, false]
  {
    var p := Polynomial();
    assert p[8] && p[9] && !p[10] && p[11];
    assert p[12] && p[13] && !p[14] && !p[15];
    assert p[8..16] == [p[8], p[9], p[10], p[11], p[12], p[13], p[14], p[15]];
  }

  lemma PolynomialPart2()
    ensures Polynomial()[16..24] == [false, true, true, false, true, true, true, true]
  {
    var p := Polynomial();
    assert !p[16] && p[17] && p[18] && !p[19];
    assert p[20] && p[21] && p[22] && p[23];
    assert p[16..24] == [p[16], p[17], p[18], p[19], p[20], p[21], p[22], p[23]];
  }

  lemma PolynomialPart3()
    ensures Polynomial()[24..32] == [false, true, false, false, false, false, false, true]
  {
    var p := Polynomial();
    assert !p[24] && p[25] && !p[26] && !p[27];
    assert !p[28] && !p[29] && !p[30] && p[31];
    assert p[24..32] == [p[24], p[25], p[26], p[27], p[28], p[29], p[30], p[31]];
  }

  lemma OddFrom(s: seq<bool>, i: nat)
    requires i < |s|
    ensures Odd(s[i..]) == (s[i] != Odd(s[i + 1..]))
  {
    assert s[i..][1..] == s[i + 1..];
  }

  lemma OddOctet(s: seq<bool>)
    requires |s| == 8
    ensures Odd(s) == (((s[0] != s[1]) != (s[2] != s[3])) != ((s[4] != s[5]) != (s[6] != s[7])))
  {
    assert s[0..] == s && s[8..] == [];
    OddFrom(s, 0);
    OddFrom(s, 1);
    OddFrom(s, 2);
    OddFrom(s, 3);
    OddFrom(s, 4);
    OddFrom(s, 5);
    OddFrom(s, 6);
    OddFrom(s, 7);
  }

  lemma PolynomialOdd()
    ensures Odd(Polynomial())
  {
    var p := Polynomial();
    PolynomialPart0();
    PolynomialPart1();
    PolynomialPart2();
    PolynomialPart3();
    hide Polynomial;
    OddOctet(p[0..8]);
    OddOctet(p[8..16]);
    OddOctet(p[16..24]);
    OddOctet(p[24..32]);
    hide Odd;
    OddSplit(p[0..8], p[8..16]);
    OddSplit(p[0..8] + p[8..16], p[16..24]);
    OddSplit(p[0..8] + p[8..16] + p[16..24], p[24..32]);
    assert p == p[0..8] + p[8..16] + p[16..24] + p[24..32];
  }

  /** A shift keeps the parity: a one that drops out brings the polynomial in. */
  lemma ShiftParity(c: Register)
    ensures Odd(Shift(c)) == Odd(c)
  {
    var down: Register := c[1..] + [false];
    OddSplit(c[1..], [false]);
    PolynomialOdd();
    if c[0] {
      OddDiffer(down, Polynomial(), Xor(down, Polynomial()));
    }
  }

  lemma {:induction false} ShiftsParity(c: Register, n: nat)
    ensures Odd(Shifts(c, n)) == Odd(c)
    decreases n
  {
    if n > 0 {
      ShiftsParity(Shift(c), n - 1);
      ShiftParity(c);
    }
  }

  lemma {:induction false} BitsOfZero(w: nat)
    ensures forall i | 0 <= i < w :: !BitsOf(0, w)[i]
    decreases w
  {
    if w > 0 {
      BitsOfZero(w - 1);
    }
  }

  lemma {:induction false} WiderParity(n: nat, v: nat, w: nat)
    requires v <= w && n < Pow2(v)
    ensures Odd(BitsOf(n, w)) == Odd(BitsOf(n, v))
    decreases v
  {
    if v == 0 {
      BitsOfZero(w);
      NoOnes(BitsOf(0, w));
    } else {
      WiderParity(n / 2, v - 1, w - 1);
      assert BitsOf(n, w)[1..] == BitsOf(n / 2, w - 1) && BitsOf(n, v)[1..] == BitsOf(n / 2, v - 1);
    }
  }

  lemma {:induction false} FoldParity(c: Register, p: seq<byte>)
    ensures Odd(Fold(c, p)) == (Odd(c) != OddBytes(p))
    decreases |p|
  {
    if p != [] {
      var b := BitsOf(p[0], 32);
      FoldParity(ByteStep(c, p[0]), p[1..]);
      ShiftsParity(Xor(c, b), 8);
      OddDiffer(c, b, Xor(c, b));
      Powers();
      WiderParity(p[0], 8, 32);
    }
  }

  lemma NotParity(c: Register)
    ensures Odd(Not(c)) == Odd(c)
  {
    var ones := seq(32, i requires 0 <= i < 32 => true);
    OddDiffer(c, ones, Not(c));
    assert ones[..8] == [true, true, true, true, true, true, true, true];
    assert ones == ones[..8] + ones[..8] + ones[..8] + ones[..8];
    OddSplit(ones[..8], ones[..8]);
    OddSplit(ones[..8] + ones[..8], ones[..8]);
    OddSplit(ones[..8] + ones[..8] + ones[..8], ones[..8]);
  }

  /** The parity of the checksum is that of everything it was made of. */
  lemma UpdateParity(crc: nat, p: seq<byte>)
    ensures Odd(BitsOf(Update(crc, p), 32)) == (Odd(BitsOf(crc, 32)) != OddBytes(p))
  {
    var start := Not(BitsOf(crc, 32));
    BitsRoundTrip(Not(Fold(start, p)));
    NotParity(Fold(start, p));
    NotParity(BitsOf(crc, 32));
    FoldParity(start, p);
  }

  /** So a change of an odd number of bits, wherever they are, always changes the checksum. */
  lemma OddChangeNoticed(crc: nat, p: seq<byte>, q: seq<byte>)
    requires OddBytes(p) != OddBytes(q)
    ensures Update(crc, p) != Update(crc, q)
  {
    UpdateParity(crc, p);
    UpdateParity(crc, q);
  }

  // The register as a machine word.

  predicate OneBit(m: bv32) {
    m != 0 && m & (m - 1) == 0
  }

  /** The word with digit `i` set. */
  function Mask(i: nat): bv32 {
    if i >= 8 then Mask(i - 8) << 8
    else if i >= 4 then (if i >= 6 then (if i == 7 then 0x80 else 0x40) else if i == 5 then 0x20 else 0x10)
    else if i >= 2 then (if i == 3 then 0x8 else 0x4)
    else if i == 1 then 0x2 else 0x1
  }

  predicate HasDigit(x: bv32, i: nat) {
    x & Mask(i) != 0
  }

  function Digits(x: bv32): Register {
    seq(32, i requires 0 <= i < 32 => HasDigit(x, i))
  }

  lemma LowMasks(i: nat)
    requires i < 8
    ensures OneBit(Mask(i)) && Mask(i) < 0x100 && (i < 7 ==> Mask(i + 1) == Mask(i) << 1)
  {
  }

  lemma ShiftedMask(m: bv32)
    requires OneBit(m) && m < 0x1000000
    ensures OneBit(m << 8) && (m << 1) << 8 == (m << 8) << 1
    ensures (m < 0x100 ==> m << 8 < 0x10000) && (m < 0x10000 ==> m << 8 < 0x1000000)
  {
  }

  lemma {:induction false} Masks(i: nat)
    requires i < 32
    ensures OneBit(Mask(i)) && (i < 31 ==> Mask(i + 1) == Mask(i) << 1)
    ensures (i < 8 ==> Mask(i) < 0x100) && (i < 16 ==> Mask(i) < 0x10000) && (i < 24 ==> Mask(i) < 0x1000000)
    decreases i
  {
    hide OneBit;
    if i < 8 {
      LowMasks(i);
      assert Mask(8) == Mask(0) << 8;
    } else {
      Masks(i - 8);
      ShiftedMask(Mask(i - 8));
    }
  }

  lemma XorBit(x: bv32, y: bv32, m: bv32)
    requires OneBit(m)
    ensures ((x ^ y) & m != 0) == ((x & m != 0) != (y & m != 0))
  {
  }

  lemma DownBit(x: bv32, m: bv32)
    requires OneBit(m) && m << 1 != 0
    ensures ((x >> 1) & m != 0) == (x & (m << 1) != 0)
  {
  }

  lemma XorDigits(x: bv32, y: bv32)
    ensures Xor(Digits(x), Digits(y)) == Digits(x ^ y)
  {
    forall i | 0 <= i < 32
      ensures HasDigit(x ^ y, i) == (HasDigit(x, i) != HasDigit(y, i))
    {
      Masks(i);
      XorBit(x, y, Mask(i));
    }
  }

  lemma NotDigits(x: bv32)
    ensures Not(Digits(x)) == Digits(x ^ 0xFFFFFFFF)
  {
    AllOnes();
    XorDigits(x, 0xFFFFFFFF);
    assert Not(Digits(x)) == Xor(Digits(x), Digits(0xFFFFFFFF));
  }

  lemma AllOnes()
    ensures forall i | 0 <= i < 32 :: Digits(0xFFFFFFFF)[i]
  {
    forall i: nat | i < 32
      ensures HasDigit(0xFFFFFFFF, i)
    {
      Masks(i);
      OneIsSome(Mask(i));
    }
  }

  lemma DigitDown(x: bv32, i: nat)
    requires i < 31
    ensures HasDigit(x >> 1, i) == HasDigit(x, i + 1)
  {
    Masks(i);
    Masks(i + 1);
    OneIsSome(Mask(i + 1));
    DownBit(x, Mask(i));
  }

  lemma OneIsSome(m: bv32)
    requires OneBit(m)
    ensures m != 0
  {
  }

  lemma DownDigits(x: bv32)
    ensures Digits(x)[1..] + [false] == Digits(x >> 1)
  {
    hide HasDigit;
    TopDown(x);
    var c, d := Digits(x)[1..] + [false], Digits(x >> 1);
    forall i: nat | i < 32
      ensures c[i] == d[i]
    {
      if i < 31 {
        DigitDown(x, i);
      }
    }
  }

  lemma TopDown(x: bv32)
    ensures !HasDigit(x >> 1, 31)
  {
    assert Mask(31) == 0x80000000;
  }

  /** The reflected polynomial of section 12.1 of RFC 3720, as a word. */
  const CASTAGNOLI: bv32 := 0x82F63B78

  lemma CastagnoliPart0()
    ensures forall i | 0 <= i < 8 :: Polynomial()[i] == HasDigit(CASTAGNOLI, i)
  {
    PolynomialPart0();
    var p := Polynomial()[0..8];
    hide Polynomial;
    assert HasDigit(CASTAGNOLI, 0) == p[0] && HasDigit(CASTAGNOLI, 1) == p[1]
      && HasDigit(CASTAGNOLI, 2) == p[2] && HasDigit(CASTAGNOLI, 3) == p[3];
    assert HasDigit(CASTAGNOLI, 4) == p[4] && HasDigit(CASTAGNOLI, 5) == p[5]
      && HasDigit(CASTAGNOLI, 6) == p[6] && HasDigit(CASTAGNOLI, 7) == p[7];
  }

  lemma CastagnoliPart1()
    ensures forall i | 8 <= i < 16 :: Polynomial()[i] == HasDigit(CASTAGNOLI, i)
  {
    PolynomialPart1();
    var p := Polynomial()[8..16];
    hide Polynomial;
    assert HasDigit(CASTAGNOLI, 8) == p[0] && HasDigit(CASTAGNOLI, 9) == p[1]
      && HasDigit(CASTAGNOLI, 10) == p[2] && HasDigit(CASTAGNOLI, 11) == p[3];
    assert HasDigit(CASTAGNOLI, 12) == p[4] && HasDigit(CASTAGNOLI, 13) == p[5]
      && HasDigit(CASTAGNOLI, 14) == p[6] && HasDigit(CASTAGNOLI, 15) == p[7];
    forall i | 8 <= i < 16
      ensures Polynomial()[i] == p[i - 8]
    {
    }
  }

  lemma CastagnoliPart2()
    ensures forall i | 16 <= i < 24 :: Polynomial()[i] == HasDigit(CASTAGNOLI, i)
  {
    PolynomialPart2();
    var p := Polynomial()[16..24];
    hide Polynomial;
    assert HasDigit(CASTAGNOLI, 16) == p[0] && HasDigit(CASTAGNOLI, 17) == p[1]
      && HasDigit(CASTAGNOLI, 18) == p[2] && HasDigit(CASTAGNOLI, 19) == p[3];
    assert HasDigit(CASTAGNOLI, 20) == p[4] && HasDigit(CASTAGNOLI, 21) == p[5]
      && HasDigit(CASTAGNOLI, 22) == p[6] && HasDigit(CASTAGNOLI, 23) == p[7];
    forall i | 16 <= i < 24
      ensures Polynomial()[i] == p[i - 16]
    {
    }
  }

  lemma CastagnoliPart3()
    ensures forall i | 24 <= i < 32 :: Polynomial()[i] == HasDigit(CASTAGNOLI, i)
  {
    PolynomialPart3();
    var p := Polynomial()[24..32];
    hide Polynomial;
    assert HasDigit(CASTAGNOLI, 24) == p[0] && HasDigit(CASTAGNOLI, 25) == p[1]
      && HasDigit(CASTAGNOLI, 26) == p[2] && HasDigit(CASTAGNOLI, 27) == p[3];
    assert HasDigit(CASTAGNOLI, 28) == p[4] && HasDigit(CASTAGNOLI, 29) == p[5]
      && HasDigit(CASTAGNOLI, 30) == p[6] && HasDigit(CASTAGNOLI, 31) == p[7];
    forall i | 24 <= i < 32
      ensures Polynomial()[i] == p[i - 24]
    {
    }
  }

  lemma PolynomialDigits()
    ensures Polynomial() == Digits(CASTAGNOLI)
  {
    CastagnoliPart0();
    CastagnoliPart1();
    CastagnoliPart2();
    CastagnoliPart3();
    hide Polynomial, HasDigit;
  }

  // Running the register on words.

  function ShiftWord(x: bv32): bv32 {
    if x & 1 != 0 then (x >> 1) ^ CASTAGNOLI else x >> 1
  }

  function ShiftWords(x: bv32, n: nat): bv32
    decreases n
  {
    if n == 0 then x else ShiftWords(ShiftWord(x), n - 1)
  }

  /** Feeding the byte `y`. */
  function Feed(x: bv32, y: bv32): bv32 {
    ShiftWords(x ^ y, 8)
  }

  function FeedTimes(x: bv32, y: bv32, n: nat): bv32
    decreases n
  {
    if n == 0 then x else FeedTimes(Feed(x, y), y, n - 1)
  }

  lemma FirstDigit(x: bv32)
    ensures Digits(x)[0] == (x & 1 != 0)
  {
    assert Mask(0) == 1;
  }

  lemma ShiftDigits(x: bv32)
    ensures Shift(Digits(x)) == Digits(ShiftWord(x))
  {
    hide Digits;
    FirstDigit(x);
    DownDigits(x);
    PolynomialDigits();
    XorDigits(x >> 1, CASTAGNOLI);
  }

  lemma {:induction false} ShiftsDigits(x: bv32, n: nat)
    ensures Shifts(Digits(x), n) == Digits(ShiftWords(x, n))
    decreases n
  {
    hide Digits, ShiftWord, Shift;
    if n > 0 {
      ShiftDigits(x);
      ShiftsDigits(ShiftWord(x), n - 1);
    }
  }

  /** The low `w` digits of the number and of the word are the same. */
  predicate Alike(n: nat, x: bv32, w: nat)
    decreases w, n
  {
    w == 0 || ((n % 2 == 1) == (x & 1 != 0) && Alike(n / 2, x >> 1, w - 1))
  }

  lemma {:induction false} AlikeDigit(n: nat, x: bv32, w: nat, i: nat)
    requires Alike(n, x, w) && i < w <= 32
    ensures BitsOf(n, w)[i] == HasDigit(x, i)
    decreases i
  {
    if i == 0 {
      assert Mask(0) == 1;
    } else {
      hide HasDigit;
      AlikeDigit(n / 2, x >> 1, w - 1, i - 1);
      DigitDown(x, i - 1);
    }
  }

  lemma AlikeDigits(n: nat, x: bv32)
    requires Alike(n, x, 32)
    ensures BitsOf(n, 32) == Digits(x)
  {
    hide Alike, HasDigit;
    forall i: nat | i < 32
      ensures BitsOf(n, 32)[i] == HasDigit(x, i)
    {
      AlikeDigit(n, x, 32, i);
    }
  }

  function Halved(n: nat, k: nat): nat
    decreases k
  {
    if k == 0 then n else Halved(n / 2, k - 1)
  }

  function HalvedWord(x: bv32, k: nat): bv32
    decreases k
  {
    if k == 0 then x else HalvedWord(x >> 1, k - 1)
  }

  lemma {:induction false} AlikeFurther(n: nat, x: bv32, k: nat, w: nat)
    requires Alike(n, x, k) && Alike(Halved(n, k), HalvedWord(x, k), w)
    ensures Alike(n, x, k + w)
    decreases k
  {
    if k > 0 {
      AlikeFurther(n / 2, x >> 1, k - 1, w);
    }
  }

  lemma {:induction false} ZeroAlike(w: nat)
    ensures Alike(0, 0, w)
    decreases w
  {
    if w > 0 {
      ZeroAlike(w - 1);
    }
  }

  lemma ByteAlike(b: byte, y: bv32)
    requires Alike(b, y, 8) && Halved(b, 8) == 0 && HalvedWord(y, 8) == 0
    ensures Alike(b, y, 32)
  {
    hide Alike, Halved, HalvedWord;
    ZeroAlike(24);
    AlikeFurther(b, y, 8, 24);
  }

  lemma StepDigits(x: bv32, b: byte, y: bv32)
    requires Alike(b, y, 32)
    ensures ByteStep(Digits(x), b) == Digits(Feed(x, y))
  {
    hide Alike, Digits, ShiftWords, Shifts, BitsOf;
    AlikeDigits(b, y);
    XorDigits(x, y);
    ShiftsDigits(x ^ y, 8);
  }

  lemma FoldFirst(x: bv32, b: byte, y: bv32, p: seq<byte>)
    requires Alike(b, y, 32)
    ensures Fold(Digits(x), [b] + p) == Fold(Digits(Feed(x, y)), p)
  {
    hide Alike, Digits, Feed, ByteStep;
    StepDigits(x, b, y);
    TailOfCons(b, p);
  }

  function Repeated(b: byte, n: nat): (p: seq<byte>)
    ensures |p| == n
  {
    if n == 0 then [] else [b] + Repeated(b, n - 1)
  }

  lemma {:induction false} FoldRepeated(x: bv32, b: byte, y: bv32, n: nat, p: seq<byte>)
    requires Alike(b, y, 32)
    ensures Fold(Digits(x), Repeated(b, n) + p) == Fold(Digits(FeedTimes(x, y, n)), p)
    decreases n
  {
    hide Alike, Digits, Feed, Fold;
    if n == 0 {
      EmptyUnit(p);
    } else {
      FoldFirst(x, b, y, Repeated(b, n - 1) + p);
      ConcatAssociates([b], Repeated(b, n - 1), p);
      FoldRepeated(Feed(x, y), b, y, n - 1, p);
    }
  }

  /** From the register to the checksum. */
  lemma UpdateIs(p: seq<byte>, x: bv32, crc: nat)
    requires Fold(Digits(0xFFFFFFFF), p) == Digits(x) && Alike(crc, x ^ 0xFFFFFFFF, 32) && crc < Pow2(32)
    ensures Update(0, p) == crc
  {
    hide Digits, Fold, BitsOf, FromBits, Not, Alike;
    ZeroAlike(32);
    AlikeDigits(0, 0);
    NotDigits(0);
    NotDigits(x);
    assert 0 as bv32 ^ 0xFFFFFFFF == 0xFFFFFFFF;
    AlikeDigits(crc, x ^ 0xFFFFFFFF);
    BitsRoundTrip(Not(Digits(x)));
    BitsInjective(FromBits(Not(Digits(x))), crc, 32);
  }

  lemma SmallBytes()
    ensures Alike(0, 0, 32) && Alike(1, 1, 32)
  {
    assert Alike(1, 1, 8) && Halved(1, 8) == 0 && HalvedWord(1, 8) == 0;
    ZeroAlike(32);
    ByteAlike(1, 1);
  }

  // Check values.

  lemma AlikeZeros()
    ensures Alike(0x8A9136AA, 0x8A9136AA, 32)
  {
    assert Alike(0x8A, 0x8A, 8);
    assert Alike(0x8A91, 0x8A91, 8) && Halved(0x8A91, 8) == 0x8A && HalvedWord(0x8A91, 8) == 0x8A;
    AlikeFurther(0x8A91, 0x8A91, 8, 8);
    assert Alike(0x8A9136, 0x8A9136, 8) && Halved(0x8A9136, 8) == 0x8A91 && HalvedWord(0x8A9136, 8) == 0x8A91;
    AlikeFurther(0x8A9136, 0x8A9136, 8, 16);
    assert Alike(0x8A9136AA, 0x8A9136AA, 8)
      && Halved(0x8A9136AA, 8) == 0x8A9136 && HalvedWord(0x8A9136AA, 8) == 0x8A9136;
    AlikeFurther(0x8A9136AA, 0x8A9136AA, 8, 24);
  }

  lemma AlikeDigitString()
    ensures Alike(0xE3069283, 0xE3069283, 32)
  {
    assert Alike(0xE3, 0xE3, 8);
    assert Alike(0xE306, 0xE306, 8) && Halved(0xE306, 8) == 0xE3 && HalvedWord(0xE306, 8) == 0xE3;
    AlikeFurther(0xE306, 0xE306, 8, 8);
    assert Alike(0xE30692, 0xE30692, 8) && Halved(0xE30692, 8) == 0xE306 && HalvedWord(0xE30692, 8) == 0xE306;
    AlikeFurther(0xE30692, 0xE30692, 8, 16);
    assert Alike(0xE3069283, 0xE3069283, 8)
      && Halved(0xE3069283, 8) == 0xE30692 && HalvedWord(0xE3069283, 8) == 0xE30692;
    AlikeFurther(0xE3069283, 0xE3069283, 8, 24);
  }

  lemma AlikeFrame()
    ensures Alike(0x625CC87A, 0x625CC87A, 32)
  {
    assert Alike(0x62, 0x62, 8);
    assert Alike(0x625C, 0x625C, 8) && Halved(0x625C, 8) == 0x62 && HalvedWord(0x625C, 8) == 0x62;
    AlikeFurther(0x625C, 0x625C, 8, 8);
    assert Alike(0x625CC8, 0x625CC8, 8) && Halved(0x625CC8, 8) == 0x625C && HalvedWord(0x625CC8, 8) == 0x625C;
    AlikeFurther(0x625CC8, 0x625CC8, 8, 16);
    assert Alike(0x625CC87A, 0x625CC87A, 8)
      && Halved(0x625CC87A, 8) == 0x625CC8 && HalvedWord(0x625CC87A, 8) == 0x625CC8;
    AlikeFurther(0x625CC87A, 0x625CC87A, 8, 24);
  }

  lemma {:induction false} FeedMore(x: bv32, y: bv32, m: nat, n: nat)
    ensures FeedTimes(x, y, m + n) == FeedTimes(FeedTimes(x, y, m), y, n)
    decreases m
  {
    hide Feed;
    if m > 0 {
      FeedMore(Feed(x, y), y, m - 1, n);
    }
  }

  lemma FoldNothing(x: bv32)
    ensures Fold(Digits(x), []) == Digits(x)
  {
    hide Digits;
  }

  lemma ZeroesFed0()
    ensures FeedTimes(0xFFFFFFFF, 0, 4) == 0xB798B438
  {
    assert Feed(0xFFFFFFFF, 0) == 0xAD82ACAE;
    assert Feed(0xAD82ACAE, 0) == 0x0E9E882D;
    assert Feed(0x0E9E882D, 0) == 0x9F9B5C85;
    assert Feed(0x9F9B5C85, 0) == 0xB798B438;
    hide Feed;
    assert FeedTimes(0x9F9B5C85, 0, 1) == 0xB798B438;
    assert FeedTimes(0x0E9E882D, 0, 2) == 0xB798B438;
    assert FeedTimes(0xAD82ACAE, 0, 3) == 0xB798B438;
  }

  lemma ZeroesFed1()
    ensures FeedTimes(0xB798B438, 0, 4) == 0x73D74D75
  {
    assert Feed(0xB798B438, 0) == 0xBA8D89CA;
    assert Feed(0xBA8D89CA, 0) == 0xA8D58375;
    assert Feed(0xA8D58375, 0) == 0x44C19592;
    assert Feed(0x44C19592, 0) == 0x73D74D75;
    hide Feed;
    assert FeedTimes(0x44C19592, 0, 1) == 0x73D74D75;
    assert FeedTimes(0xA8D58375, 0, 2) == 0x73D74D75;
    assert FeedTimes(0xBA8D89CA, 0, 3) == 0x73D74D75;
  }

  lemma ZeroesFed2()
    ensures FeedTimes(0x73D74D75, 0, 4) == 0xD49F4AA2
  {
    assert Feed(0x73D74D75, 0) == 0x441A975C;
    assert Feed(0x441A975C, 0) == 0x1C220F94;
    assert Feed(0x1C220F94, 0) == 0x552E4907;
    assert Feed(0x552E4907, 0) == 0xD49F4AA2;
    hide Feed;
    assert FeedTimes(0x552E4907, 0, 1) == 0xD49F4AA2;
    assert FeedTimes(0x1C220F94, 0, 2) == 0xD49F4AA2;
    assert FeedTimes(0x441A975C, 0, 3) == 0xD49F4AA2;
  }

  lemma ZeroesFed3()
    ensures FeedTimes(0xD49F4AA2, 0, 4) == 0xBD8F6515
  {
    assert Feed(0xD49F4AA2, 0) == 0x43A45A1B;
    assert Feed(0x43A45A1B, 0) == 0x8994C80E;
    assert Feed(0x8994C80E, 0) == 0xACF12BEF;
    assert Feed(0xACF12BEF, 0) == 0xBD8F6515;
    hide Feed;
    assert FeedTimes(0xACF12BEF, 0, 1) == 0xBD8F6515;
    assert FeedTimes(0x8994C80E, 0, 2) == 0xBD8F6515;
    assert FeedTimes(0x43A45A1B, 0, 3) == 0xBD8F6515;
  }

  lemma ZeroesFed4()
    ensures FeedTimes(0xBD8F6515, 0, 4) == 0x433AA9C1
  {
    assert Feed(0xBD8F6515, 0) == 0x25125C16;
    assert Feed(0x25125C16, 0) == 0x36DA32DB;
    assert Feed(0x36DA32DB, 0) == 0x4A6C90A2;
    assert Feed(0x4A6C90A2, 0) == 0x433AA9C1;
    hide Feed;
    assert FeedTimes(0x4A6C90A2, 0, 1) == 0x433AA9C1;
    assert FeedTimes(0x36DA32DB, 0, 2) == 0x433AA9C1;
    assert FeedTimes(0x25125C16, 0, 3) == 0x433AA9C1;
  }

  lemma ZeroesFed5()
    ensures FeedTimes(0x433AA9C1, 0, 4) == 0x7B041311
  {
    assert Feed(0x433AA9C1, 0) == 0x31A59F6E;
    assert Feed(0x31A59F6E, 0) == 0xCD8F89DA;
    assert Feed(0xCD8F89DA, 0) == 0xB8FC461A;
    assert Feed(0xB8FC461A, 0) == 0x7B041311;
    hide Feed;
    assert FeedTimes(0xB8FC461A, 0, 1) == 0x7B041311;
    assert FeedTimes(0xCD8F89DA, 0, 2) == 0x7B041311;
    assert FeedTimes(0x31A59F6E, 0, 3) == 0x7B041311;
  }

  lemma ZeroesFed6()
    ensures FeedTimes(0x7B041311, 0, 4) == 0x08363896
  {
    assert Feed(0x7B041311, 0) == 0xE24E407F;
    assert Feed(0xE24E407F, 0) == 0x2F692669;
    assert Feed(0x2F692669, 0) == 0x195B2188;
    assert Feed(0x195B2188, 0) == 0x08363896;
    hide Feed;
    assert FeedTimes(0x195B2188, 0, 1) == 0x08363896;
    assert FeedTimes(0x2F692669, 0, 2) == 0x08363896;
    assert FeedTimes(0xE24E407F, 0, 3) == 0x08363896;
  }

  lemma ZeroesFed7()
    ensures FeedTimes(0x08363896, 0, 4) == 0x756EC955
  {
    assert Feed(0x08363896, 0) == 0xB4012DC7;
    assert Feed(0xB4012DC7, 0) == 0x17F34302;
    assert Feed(0x17F34302, 0) == 0xE12C83B4;
    assert Feed(0xE12C83B4, 0) == 0x756EC955;
    hide Feed;
    assert FeedTimes(0xE12C83B4, 0, 1) == 0x756EC955;
    assert FeedTimes(0x17F34302, 0, 2) == 0x756EC955;
    assert FeedTimes(0xB4012DC7, 0, 3) == 0x756EC955;
  }

  /** Section B.4 of RFC 3720: 32 bytes of zeroes. */
  lemma ZeroesCheck()
    ensures Update(0, Repeated(0, 32)) == 0x8A9136AA
  {
    hide Alike, Fold, Digits, Repeated, Update, Feed, FeedTimes;
    ZeroesFed0();
    ZeroesFed1();
    ZeroesFed2();
    ZeroesFed3();
    ZeroesFed4();
    ZeroesFed5();
    ZeroesFed6();
    ZeroesFed7();
    FeedMore(0xFFFFFFFF, 0, 4, 28);
    FeedMore(0xB798B438, 0, 4, 24);
    FeedMore(0x73D74D75, 0, 4, 20);
    FeedMore(0xD49F4AA2, 0, 4, 16);
    FeedMore(0xBD8F6515, 0, 4, 12);
    FeedMore(0x433AA9C1, 0, 4, 8);
    FeedMore(0x7B041311, 0, 4, 4);
    SmallBytes();
    FoldRepeated(0xFFFFFFFF, 0, 0, 32, []);
    EmptyUnit(Repeated(0, 32));
    FoldNothing(0x756EC955);
    AlikeZeros();
    Powers();
    UpdateIs(Repeated(0, 32), 0x756EC955, 0x8A9136AA);
  }

  lemma ThreeFirst(a: byte, b: byte, c: byte, p: seq<byte>)
    ensures [a, b, c] + p == [a] + ([b, c] + p) && [b, c] + p == [b] + ([c] + p)
  {
  }

  lemma FirstDigits(p: seq<byte>)
    ensures Fold(Digits(0xFFFFFFFF), [0x31, 0x32, 0x33] + p) == Fold(Digits(0xEF84D04D), p)
  {
    assert Alike(0x31, 0x31, 8) && Halved(0x31, 8) == 0 && HalvedWord(0x31, 8) == 0;
    assert Alike(0x32, 0x32, 8) && Halved(0x32, 8) == 0 && HalvedWord(0x32, 8) == 0;
    assert Alike(0x33, 0x33, 8) && Halved(0x33, 8) == 0 && HalvedWord(0x33, 8) == 0;
    assert Feed(0xFFFFFFFF, 0x31) == 0x6F0A661C;
    assert Feed(0x6F0A661C, 0x32) == 0x8CAA3B9F;
    assert Feed(0x8CAA3B9F, 0x33) == 0xEF84D04D;
    hide Alike, Feed, Fold, Digits, Halved, HalvedWord;
    ByteAlike(0x31, 0x31);
    ByteAlike(0x32, 0x32);
    ByteAlike(0x33, 0x33);
    FoldFirst(0xFFFFFFFF, 0x31, 0x31, [0x32, 0x33] + p);
    FoldFirst(0x6F0A661C, 0x32, 0x32, [0x33] + p);
    FoldFirst(0x8CAA3B9F, 0x33, 0x33, p);
    ThreeFirst(0x31, 0x32, 0x33, p);
  }

  lemma SecondDigits(p: seq<byte>)
    ensures Fold(Digits(0xEF84D04D), [0x34, 0x35, 0x36] + p) == Fold(Digits(0xBECA8E79), p)
  {
    assert Alike(0x34, 0x34, 8) && Halved(0x34, 8) == 0 && HalvedWord(0x34, 8) == 0;
    assert Alike(0x35, 0x35, 8) && Halved(0x35, 8) == 0 && HalvedWord(0x35, 8) == 0;
    assert Alike(0x36, 0x36, 8) && Halved(0x36, 8) == 0 && HalvedWord(0x36, 8) == 0;
    assert Feed(0xEF84D04D, 0x34) == 0x09C50B11;
    assert Feed(0x09C50B11, 0x35) == 0xE72EDCCA;
    assert Feed(0xE72EDCCA, 0x36) == 0xBECA8E79;
    hide Alike, Feed, Fold, Digits, Halved, HalvedWord;
    ByteAlike(0x34, 0x34);
    ByteAlike(0x35, 0x35);
    ByteAlike(0x36, 0x36);
    FoldFirst(0xEF84D04D, 0x34, 0x34, [0x35, 0x36] + p);
    FoldFirst(0x09C50B11, 0x35, 0x35, [0x36] + p);
    FoldFirst(0xE72EDCCA, 0x36, 0x36, p);
    ThreeFirst(0x34, 0x35, 0x36, p);
  }

  lemma ThirdDigits(p: seq<byte>)
    ensures Fold(Digits(0xBECA8E79), [0x37, 0x38, 0x39] + p) == Fold(Digits(0x1CF96D7C), p)
  {
    assert Alike(0x37, 0x37, 8) && Halved(0x37, 8) == 0 && HalvedWord(0x37, 8) == 0;
    assert Alike(0x38, 0x38, 8) && Halved(0x38, 8) == 0 && HalvedWord(0x38, 8) == 0;
    assert Alike(0x39, 0x39, 8) && Halved(0x39, 8) == 0 && HalvedWord(0x39, 8) == 0;
    assert Feed(0xBECA8E79, 0x37) == 0xEDBD6815;
    assert Feed(0xEDBD6815, 0x38) == 0x9F787F65;
    assert Feed(0x9F787F65, 0x39) == 0x1CF96D7C;
    hide Alike, Feed, Fold, Digits, Halved, HalvedWord;
    ByteAlike(0x37, 0x37);
    ByteAlike(0x38, 0x38);
    ByteAlike(0x39, 0x39);
    FoldFirst(0xBECA8E79, 0x37, 0x37, [0x38, 0x39] + p);
    FoldFirst(0xEDBD6815, 0x38, 0x38, [0x39] + p);
    FoldFirst(0x9F787F65, 0x39, 0x39, p);
    ThreeFirst(0x37, 0x38, 0x39, p);
  }

  /** The digits "123456789" in ASCII. */
  lemma DigitsCheck()
    ensures Update(0, [0x31, 0x32, 0x33] + ([0x34, 0x35, 0x36] + [0x37, 0x38, 0x39])) == 0xE3069283
  {
    hide Alike, Fold, Digits, Update;
    var last: seq<byte> := [0x37, 0x38, 0x39];
    FirstDigits([0x34, 0x35, 0x36] + last);
    SecondDigits(last);
    ThirdDigits([]);
    EmptyUnit(last);
    FoldNothing(0x1CF96D7C);
    AlikeDigitString();
    Powers();
    UpdateIs([0x31, 0x32, 0x33] + ([0x34, 0x35, 0x36] + last), 0x1CF96D7C, 0xE3069283);
  }

  lemma LSNStarts()
    ensures Feed(0xB798B438, 1) == 0x48E60AC9
  {
  }

  lemma LSNFed()
    ensures FeedTimes(0x48E60AC9, 0, 7) == 0x9DA33785
  {
    assert Feed(0x48E60AC9, 0) == 0xBB771B02;
    assert Feed(0xBB771B02, 0) == 0xE18007EC;
    assert Feed(0xE18007EC, 0) == 0xAE92E7CD;
    assert Feed(0xAE92E7CD, 0) == 0x7C0BF8F0;
    assert Feed(0x7C0BF8F0, 0) == 0xF312648D;
    assert Feed(0xF312648D, 0) == 0x3D2D65CF;
    assert Feed(0x3D2D65CF, 0) == 0x9DA33785;
    hide Feed;
    assert FeedTimes(0x3D2D65CF, 0, 1) == 0x9DA33785;
    assert FeedTimes(0xF312648D, 0, 2) == 0x9DA33785;
    assert FeedTimes(0x7C0BF8F0, 0, 3) == 0x9DA33785;
    assert FeedTimes(0xAE92E7CD, 0, 4) == 0x9DA33785;
    assert FeedTimes(0xE18007EC, 0, 5) == 0x9DA33785;
    assert FeedTimes(0xBB771B02, 0, 6) == 0x9DA33785;
  }

  /** The frame of record 1 with no payload, byte for byte: checksum, length, LSN, all least significant byte
      first. */
  lemma FrameCheck()
    ensures Frame(Record(1, [])) == [0x7A, 0xC8, 0x5C, 0x62, 0, 0, 0, 0, 1, 0, 0, 0, 0, 0, 0, 0]
  {
    hide Alike, Fold, Digits, Update, Feed, FeedTimes, Repeated, Tail, ToLE;
    ZeroesFed0();
    LSNStarts();
    LSNFed();
    SmallBytes();
    var four, seven := Repeated(0, 4), Repeated(0, 7);
    FoldRepeated(0xFFFFFFFF, 0, 0, 4, [1] + seven);
    FoldFirst(0xB798B438, 1, 1, seven);
    FoldRepeated(0x48E60AC9, 0, 0, 7, []);
    EmptyUnit(seven);
    FoldNothing(0x9DA33785);
    AlikeFrame();
    Powers();
    UpdateIs(four + ([1] + seven), 0x9DA33785, 0x625CC87A);
    FrameTail();
    UpdateChains(0, Tail(Record(1, [])), []);
    EmptyUnit(Tail(Record(1, [])));
    FrameBytesOf();
  }

  lemma FrameTail()
    ensures Tail(Record(1, [])) == Repeated(0, 4) + ([1] + Repeated(0, 7))
    ensures Tail(Record(1, [])) == [0, 0, 0, 0, 1, 0, 0, 0, 0, 0, 0, 0]
  {
    assert ToLE(0, 4) == [0, 0, 0, 0] && ToLE(1, 8) == [1, 0, 0, 0, 0, 0, 0, 0];
    assert Repeated(0, 4) == [0, 0, 0, 0] && Repeated(0, 7) == [0, 0, 0, 0, 0, 0, 0];
  }

  lemma FrameBytesOf()
    ensures ToLE(0x625CC87A, 4) == [0x7A, 0xC8, 0x5C, 0x62]
  {
  }
}
