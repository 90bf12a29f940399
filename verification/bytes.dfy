/** Bytes, binary digits, and fixed-width little-endian integers. */
module Bytes {
  type byte = n: nat | n < 256

  function Pow2(w: nat): (p: nat)
    ensures p > 0
  {
    if w == 0 then 1 else 2 * Pow2(w - 1)
  }

  function Pow256(w: nat): (p: nat)
    ensures p > 0
  {
    if w == 0 then 1 else 256 * Pow256(w - 1)
  }

  /** The low `w` binary digits of `n`, least significant first. */
  function BitsOf(n: nat, w: nat): (s: seq<bool>)
    ensures |s| == w
    decreases w, n
  {
    if w == 0 then [] else [n % 2 == 1] + BitsOf(n / 2, w - 1)
  }

  function FromBits(s: seq<bool>): (n: nat)
    ensures n < Pow2(|s|)
  {
    if s == [] then 0 else (if s[0] then 1 else 0) + 2 * FromBits(s[1..])
  }

  lemma {:induction false} BitsRoundTrip(s: seq<bool>)
    ensures BitsOf(FromBits(s), |s|) == s
  {
    if s != [] {
      BitsRoundTrip(s[1..]);
      assert FromBits(s) / 2 == FromBits(s[1..]);
      assert s == [s[0]] + s[1..];
    }
  }

  lemma {:induction false} BitsInjective(m: nat, n: nat, w: nat)
    requires m < Pow2(w) && n < Pow2(w) && BitsOf(m, w) == BitsOf(n, w)
    ensures m == n
  {
    if w > 0 {
      assert BitsOf(m, w)[0] == BitsOf(n, w)[0];
      assert BitsOf(m / 2, w - 1) == BitsOf(m, w)[1..] == BitsOf(n, w)[1..] == BitsOf(n / 2, w - 1);
      BitsInjective(m / 2, n / 2, w - 1);
    }
  }

  /** The low `w` bytes of `n`, least significant first; higher digits are dropped. */
  function ToLE(n: nat, w: nat): (s: seq<byte>)
    ensures |s| == w
    decreases w, n
  {
    if w == 0 then [] else [n % 256] + ToLE(n / 256, w - 1)
  }

  function FromLE(s: seq<byte>): nat {
    if s == [] then 0 else s[0] + 256 * FromLE(s[1..])
  }

  lemma {:induction false} LERoundTrip(n: nat, w: nat)
    requires n < Pow256(w)
    ensures FromLE(ToLE(n, w)) == n
  {
    if w > 0 {
      LERoundTrip(n / 256, w - 1);
      assert ToLE(n, w)[1..] == ToLE(n / 256, w - 1);
    }
  }

  lemma {:induction false} LEInjective(s: seq<byte>, t: seq<byte>)
    requires |s| == |t| && FromLE(s) == FromLE(t)
    ensures s == t
  {
    if s != [] {
      assert s[0] == t[0] && FromLE(s[1..]) == FromLE(t[1..]);
      LEInjective(s[1..], t[1..]);
      assert s == [s[0]] + s[1..] && t == [t[0]] + t[1..];
    }
  }

  lemma Powers()
    ensures Pow256(4) == 0x1_0000_0000 && Pow2(31) == 0x8000_0000 && Pow2(32) == 0x1_0000_0000 && Pow2(8) == 256
  {
    assert Pow256(2) == 0x1_0000;
    assert Pow2(8) == 256;
    assert Pow2(16) == 0x1_0000;
    assert Pow2(24) == 0x100_0000;
  }
}
