/** CRC32C (Castagnoli), section 12.1 of RFC 3720, as the record layer uses it. The shift
    register is a sequence of 32 binary digits, least significant first. */
module Crc {
  import opened Bytes
  import opened Seqs

  type Register = s: seq<bool> | |s| == 32 witness seq(32, _ => false)

  /** The reflected Castagnoli polynomial, 0x82f63b78. */
  const POLYNOMIAL: string := "00011110110111000110111101000001"

  function Xor(c: Register, d: Register): Register {
    seq(32, i requires 0 <= i < 32 => c[i] != d[i])
  }

  function Not(c: Register): Register {
    seq(32, i requires 0 <= i < 32 => !c[i])
  }

  function Polynomial(): Register {
    seq(32, i requires 0 <= i < 32 => POLYNOMIAL[i] == '1')
  }

  /** One step of the reflected shift register. */
  function Shift(c: Register): Register {
    var down: Register := c[1..] + [false];
    if c[0] then Xor(down, Polynomial()) else down
  }

  function Shifts(c: Register, n: nat): Register
    decreases n, c
  {
    if n == 0 then c else Shifts(Shift(c), n - 1)
  }

  /** Feeds one byte to the register. */
  function ByteStep(c: Register, b: byte): Register {
    Shifts(Xor(c, BitsOf(b, 32)), 8)
  }

  function Fold(c: Register, p: seq<byte>): Register
    decreases |p|
  {
    if p == [] then c else Fold(ByteStep(c, p[0]), p[1..])
  }

  /** Adds the bytes of `p` to a finished checksum, so updates can be chained. */
  function Update(crc: nat, p: seq<byte>): (r: nat)
    ensures r < Pow2(32)
  {
    FromBits(Not(Fold(Not(BitsOf(crc, 32)), p)))
  }

  lemma {:induction false} FoldConcat(c: Register, p: seq<byte>, q: seq<byte>)
    ensures Fold(c, p + q) == Fold(Fold(c, p), q)
    decreases |p|
  {
    if p == [] {
      assert p + q == q;
    } else {
      assert (p + q)[0] == p[0] && (p + q)[1..] == p[1..] + q;
      FoldConcat(ByteStep(c, p[0]), p[1..], q);
    }
  }

  lemma DoubleNegation(c: Register)
    ensures Not(Not(c)) == c
  {
  }

  /** Chained updates equal one checksum of the concatenation. */
  lemma UpdateChains(crc: nat, p: seq<byte>, q: seq<byte>)
    ensures Update(Update(crc, p), q) == Update(crc, p + q)
  {
    var start := Not(BitsOf(crc, 32));
    BitsRoundTrip(Not(Fold(start, p)));
    DoubleNegation(Fold(start, p));
    FoldConcat(start, p, q);
  }

  lemma XorCancels(c: Register, d: Register, e: Register)
    requires Xor(c, e) == Xor(d, e)
    ensures c == d
  {
    forall i | 0 <= i < 32
      ensures c[i] == d[i]
    {
      assert (c[i] != e[i]) == Xor(c, e)[i] == Xor(d, e)[i] == (d[i] != e[i]);
    }
  }

  lemma XorCommutes(c: Register, d: Register)
    ensures Xor(c, d) == Xor(d, c)
  {
  }

  /** The top digit after a shift tells whether the polynomial was added. */
  lemma ShiftTop(c: Register)
    ensures Shift(c)[31] == c[0]
  {
  }

  lemma ShiftInjective(c: Register, d: Register)
    requires Shift(c) == Shift(d)
    ensures c == d
  {
    ShiftTop(c);
    ShiftTop(d);
    var downC: Register, downD: Register := c[1..] + [false], d[1..] + [false];
    if c[0] {
      XorCancels(downC, downD, Polynomial());
    }
    assert c == [c[0]] + downC[..31] && d == [d[0]] + downD[..31];
  }

  lemma {:induction false} ShiftsInjective(c: Register, d: Register, n: nat)
    requires Shifts(c, n) == Shifts(d, n)
    ensures c == d
    decreases n
  {
    if n > 0 {
      ShiftsInjective(Shift(c), Shift(d), n - 1);
      ShiftInjective(c, d);
    }
  }

  /** The register never merges two different states ... */
  lemma StepInjective(c: Register, d: Register, b: byte)
    requires ByteStep(c, b) == ByteStep(d, b)
    ensures c == d
  {
    ShiftsInjective(Xor(c, BitsOf(b, 32)), Xor(d, BitsOf(b, 32)), 8);
    XorCancels(c, d, BitsOf(b, 32));
  }

  /** ... nor two different bytes. */
  lemma StepSeparates(c: Register, b: byte, e: byte)
    requires ByteStep(c, b) == ByteStep(c, e)
    ensures b == e
  {
    ShiftsInjective(Xor(c, BitsOf(b, 32)), Xor(c, BitsOf(e, 32)), 8);
    XorCommutes(c, BitsOf(b, 32));
    XorCommutes(c, BitsOf(e, 32));
    XorCancels(BitsOf(b, 32), BitsOf(e, 32), c);
    Powers();
    BitsInjective(b, e, 32);
  }

  lemma {:induction false} FoldInjective(c: Register, d: Register, p: seq<byte>)
    requires Fold(c, p) == Fold(d, p)
    ensures c == d
    decreases |p|
  {
    if p != [] {
      FoldInjective(ByteStep(c, p[0]), ByteStep(d, p[0]), p[1..]);
      StepInjective(c, d, p[0]);
    }
  }

  /** Two byte strings that differ in exactly one byte never share a checksum. */
  lemma OneByteChangesCrc(crc: nat, p: seq<byte>, i: nat, x: byte)
    requires i < |p| && p[i] != x
    ensures Update(crc, p[i := x]) != Update(crc, p)
  {
    var start := Not(BitsOf(crc, 32));
    var a, z := p[..i], p[i + 1..];
    var c := Fold(start, a);
    if Update(crc, p[i := x]) == Update(crc, p) {
      BitsRoundTrip(Not(Fold(start, p)));
      BitsRoundTrip(Not(Fold(start, p[i := x])));
      DoubleNegation(Fold(start, p));
      DoubleNegation(Fold(start, p[i := x]));
      assert Fold(start, p) == Fold(start, p[i := x]);
      hide Update, Not, BitsOf, FromBits;
      Around(p, i, x);
      FoldConcat(start, a, [p[i]] + z);
      FoldConcat(start, a, [x] + z);
      TailOfCons(p[i], z);
      TailOfCons(x, z);
      FoldInjective(ByteStep(c, p[i]), ByteStep(c, x), z);
      StepSeparates(c, p[i], x);
    }
  }
}
