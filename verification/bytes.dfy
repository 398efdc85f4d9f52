/** Bytes, fixed-width integers, and their big-endian and binary digits. */
module Bytes {
  type Byte = x: int | 0 <= x < 256
  type u16 = x: int | 0 <= x < 0x1_0000
  type u32 = x: int | 0 <= x < 0x1_0000_0000

  function Pow256(k: nat): (p: nat)
    ensures p >= 1
  {
    if k == 0 then 1 else 256 * Pow256(k - 1)
  }

  lemma Pow256Values()
    ensures Pow256(2) == 0x1_0000 && Pow256(3) == 0x100_0000 && Pow256(4) == 0x1_0000_0000
  {
    assert Pow256(4) == 256 * Pow256(3) && Pow256(3) == 256 * Pow256(2);
  }

  /** The `k` low bytes of `n`, most significant first. */
  function ToBE(n: nat, k: nat): (s: seq<Byte>)
    ensures |s| == k
  {
    if k == 0 then [] else ToBE(n / 256, k - 1) + [n % 256]
  }

  function FromBE(s: seq<Byte>): nat {
    if |s| == 0 then 0 else FromBE(s[..|s| - 1]) * 256 + s[|s| - 1]
  }

  lemma {:induction false} FromToBE(n: nat, k: nat)
    requires n < Pow256(k)
    ensures FromBE(ToBE(n, k)) == n
  {
    if k > 0 {
      FromToBE(n / 256, k - 1);
      assert ToBE(n, k)[..k - 1] == ToBE(n / 256, k - 1);
    }
  }

  lemma {:induction false} ToFromBE(s: seq<Byte>)
    ensures FromBE(s) < Pow256(|s|)
    ensures ToBE(FromBE(s), |s|) == s
  {
    if |s| > 0 {
      var t, b := s[..|s| - 1], s[|s| - 1];
      ToFromBE(t);
      assert FromBE(s) / 256 == FromBE(t) && FromBE(s) % 256 == b;
      assert s == t + [b];
    }
  }

  /** The `k` low binary digits of `n`, least significant first. */
  function BitsOf(n: nat, k: nat): (bits: seq<bool>)
    ensures |bits| == k
  {
    if k == 0 then [] else [n % 2 == 1] + BitsOf(n / 2, k - 1)
  }

  function Value(bits: seq<bool>): nat {
    if |bits| == 0 then 0 else (if bits[0] then 1 else 0) + 2 * Value(bits[1..])
  }

  function Pow2(k: nat): (p: nat)
    ensures p >= 1
  {
    if k == 0 then 1 else 2 * Pow2(k - 1)
  }

  lemma Pow2Values()
    ensures Pow2(8) == 0x100 && Pow2(32) == 0x1_0000_0000
  {
    assert Pow2(4) == 16;
    assert Pow2(8) == 16 * Pow2(4);
    assert Pow2(16) == 256 * Pow2(8);
    assert Pow2(24) == 256 * Pow2(16);
    assert Pow2(32) == 256 * Pow2(24);
  }

  function Halve(n: nat, j: nat): nat {
    if j == 0 then n else Halve(n / 2, j - 1)
  }

  lemma {:induction false} BitsOfSplit(n: nat, j: nat, k: nat)
    ensures BitsOf(n, j + k) == BitsOf(n, j) + BitsOf(Halve(n, j), k)
  {
    if j > 0 {
      BitsOfSplit(n / 2, j - 1, k);
    }
  }

  lemma HalveFour(n: nat)
    ensures Halve(n, 4) == n / 16
  {
    assert Halve(n, 4) == Halve(n / 2, 3) == Halve(n / 2 / 2, 2);
    assert Halve(n / 2 / 2, 2) == Halve(n / 2 / 2 / 2, 1) == n / 2 / 2 / 2 / 2;
  }

  lemma HalveEight(n: nat)
    ensures Halve(n, 8) == n / 256
  {
    HalveAdd(n, 4, 4);
    HalveFour(n);
    HalveFour(n / 16);
  }

  lemma {:induction false} HalveAdd(n: nat, j: nat, k: nat)
    ensures Halve(n, j + k) == Halve(Halve(n, j), k)
  {
    if j > 0 { HalveAdd(n / 2, j - 1, k); }
  }

  lemma BitsOfOctet(n: nat, k: nat)
    ensures BitsOf(n, 8 + k) == BitsOf(n, 8) + BitsOf(n / 256, k)
  {
    BitsOfSplit(n, 8, k);
    HalveEight(n);
  }

  lemma NibbleDigits(n: nat)
    ensures BitsOf(n, 4) == [n % 2 == 1, n / 2 % 2 == 1, n / 4 % 2 == 1, n / 8 % 2 == 1]
  {
    assert BitsOf(n, 4) == [n % 2 == 1] + BitsOf(n / 2, 3);
    assert BitsOf(n / 2, 3) == [n / 2 % 2 == 1] + BitsOf(n / 2 / 2, 2);
    assert BitsOf(n / 2 / 2, 2) == [n / 4 % 2 == 1, n / 8 % 2 == 1];
  }

  lemma OctetDigits(n: nat)
    ensures BitsOf(n, 8) ==
            [n % 2 == 1, n / 2 % 2 == 1, n / 4 % 2 == 1, n / 8 % 2 == 1,
             n / 16 % 2 == 1, n / 32 % 2 == 1, n / 64 % 2 == 1, n / 128 % 2 == 1]
  {
    hide BitsOf, Halve;
    BitsOfSplit(n, 4, 4);
    HalveFour(n);
    NibbleDigits(n);
    NibbleDigits(n / 16);
    assert n / 16 / 2 == n / 32 && n / 16 / 4 == n / 64 && n / 16 / 8 == n / 128;
  }

  /** The 32 digits of a word are the digits of its four bytes, low byte first. */
  lemma WordOctets(n: nat)
    ensures BitsOf(n, 32) == BitsOf(n % 256, 8) + BitsOf(n / 256 % 256, 8)
                             + BitsOf(n / 65536 % 256, 8) + BitsOf(n / 16777216, 8)
  {
    hide BitsOf;
    BitsOfOctet(n, 24);
    BitsOfOctet(n / 256, 16);
    BitsOfOctet(n / 256 / 256, 8);
    LowOctet(n);
    LowOctet(n / 256);
    LowOctet(n / 256 / 256);
    assert n / 256 / 256 == n / 65536 && n / 65536 / 256 == n / 16777216;
  }

  /** Only the low byte matters for the low eight digits. */
  lemma LowOctet(n: nat)
    ensures BitsOf(n, 8) == BitsOf(n % 256, 8)
  {
    Pow2Values();
    LowDigits(n, n % 256, n / 256, 8);
  }

  lemma {:induction false} LowDigits(n: nat, m: nat, q: nat, k: nat)
    requires n == m + q * Pow2(k)
    ensures BitsOf(n, k) == BitsOf(m, k)
  {
    if k > 0 {
      assert n == m + 2 * (q * Pow2(k - 1));
      LowDigits(n / 2, m / 2, q, k - 1);
    }
  }

  lemma {:induction false} BitsOfValue(bits: seq<bool>)
    ensures Value(bits) < Pow2(|bits|)
    ensures BitsOf(Value(bits), |bits|) == bits
  {
    if |bits| > 0 {
      BitsOfValue(bits[1..]);
      assert Value(bits) / 2 == Value(bits[1..]);
      assert bits == [bits[0]] + bits[1..];
    }
  }

  lemma {:induction false} ValueOfBits(n: nat, k: nat)
    requires n < Pow2(k)
    ensures Value(BitsOf(n, k)) == n
  {
    if k > 0 {
      ValueOfBits(n / 2, k - 1);
      assert BitsOf(n, k)[1..] == BitsOf(n / 2, k - 1);
    }
  }

  lemma {:induction false} HalveSmall(n: nat, j: nat)
    requires n < Pow2(j)
    ensures Halve(n, j) == 0
  {
    if j > 0 { HalveSmall(n / 2, j - 1); }
  }

  lemma {:induction false} BitsOfZero(k: nat)
    ensures BitsOf(0, k) == Falses(k)
  {
    if k > 0 { BitsOfZero(k - 1); }
  }

  /** Digits above the top one are zero. */
  lemma BitsOfSmall(n: nat, j: nat, k: nat)
    requires n < Pow2(j)
    ensures BitsOf(n, j + k) == BitsOf(n, j) + Falses(k)
  {
    BitsOfSplit(n, j, k);
    HalveSmall(n, j);
    BitsOfZero(k);
  }

  /** Dividing a 32-bit word by 2^j drops its low digits and fills with zeros. */
  lemma BitsOfHalved(n: u32, j: nat)
    requires j <= 32
    ensures BitsOf(Halve(n, j), 32) == BitsOf(n, 32)[j..] + Falses(j)
  {
    hide BitsOf;
    BitsOfSplit(n, j, 32);
    Pow2Values();
    BitsOfSmall(n, 32, j);
    assert BitsOf(Halve(n, j), 32) == BitsOf(n, j + 32)[j..];
  }

  function Falses(k: nat): (bits: seq<bool>)
    ensures |bits| == k
  {
    seq(k, _ => false)
  }

  function XorBits(a: seq<bool>, b: seq<bool>): (c: seq<bool>)
    requires |a| == |b|
    ensures |c| == |a|
  {
    seq(|a|, i requires 0 <= i < |a| => a[i] != b[i])
  }
}
