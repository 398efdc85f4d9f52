/**
 The software CRC32C: a table-driven reflected loop.

 A register is 32 bits, low bit first; in the reflected form bit `i` is the coefficient
 of x^(31-i).  `Absorb` takes a message one bit at a time.  The table loop is proved equal
 to it, the register is proved to be the remainder of a schoolbook polynomial division,
 and the error-detection theorems (bursts of up to 32 bits, odd numbers of flipped bits)
 are stated on message bits and lifted to bytes.
 */
module Crc32c {
  import opened Bytes

  const POLYNOMIAL_REFLECTED: u32 := 0x82f6_3b78
  const ALL_ONES: u32 := 0xffff_ffff

  type Reg = r: seq<bool> | |r| == 32 witness Falses(32)

  function Polynomial(): Reg { BitsOf(POLYNOMIAL_REFLECTED, 32) }

  function Ones(): Reg { seq(32, _ => true) }

  lemma PolynomialLow()
    ensures BitsOf(0x78, 8) == [false, false, false, true, true, true, true, false]
    ensures BitsOf(0x3b, 8) == [true, true, false, true, true, true, false, false]
  {
    hide BitsOf;
    OctetDigits(0x78);
    OctetDigits(0x3b);
  }

  lemma PolynomialHigh()
    ensures BitsOf(0xf6, 8) == [false, true, true, false, true, true, true, true]
    ensures BitsOf(0x82, 8) == [false, true, false, false, false, false, false, true]
  {
    hide BitsOf;
    OctetDigits(0xf6);
    OctetDigits(0x82);
  }

  lemma PolynomialBits()
    ensures Polynomial() ==
            [false, false, false, true, true, true, true, false]
            + [true, true, false, true, true, true, false, false]
            + [false, true, true, false, true, true, true, true]
            + [false, true, false, false, false, false, false, true]
  {
    hide BitsOf;
    WordOctets(POLYNOMIAL_REFLECTED);
    PolynomialLow();
    PolynomialHigh();
  }

  /** Shift the register by one place. */
  function ShiftOut(r: Reg): Reg { r[1..] + [false] }

  /** Absorb one message bit: shift, and subtract the polynomial if a one fell out. */
  function Step(r: Reg, b: bool): Reg {
    if r[0] != b then XorBits(Polynomial(), ShiftOut(r)) else ShiftOut(r)
  }

  function AbsorbBits(r: Reg, bits: seq<bool>): Reg
    decreases |bits|
  {
    if |bits| == 0 then r else AbsorbBits(Step(r, bits[0]), bits[1..])
  }

  /** A message as bits: bytes in order, each byte low bit first. */
  function Bits(s: seq<Byte>): (bits: seq<bool>)
    ensures |bits| == 8 * |s|
  {
    if |s| == 0 then [] else BitsOf(s[0], 8) + Bits(s[1..])
  }

  function Absorb(r: Reg, s: seq<Byte>): Reg { AbsorbBits(r, Bits(s)) }

  function Crc32c(s: seq<Byte>): u32 {
    BitsOfValue(XorBits(Absorb(Ones(), s), Ones()));
    Pow2Values();
    Value(XorBits(Absorb(Ones(), s), Ones()))
  }

  // ---- concatenation ----

  lemma {:induction false} AbsorbBitsAppend(r: Reg, a: seq<bool>, b: seq<bool>)
    ensures AbsorbBits(r, a + b) == AbsorbBits(AbsorbBits(r, a), b)
    decreases |a|
  {
    if |a| == 0 {
      assert a + b == b;
    } else {
      assert (a + b)[1..] == a[1..] + b;
      AbsorbBitsAppend(Step(r, a[0]), a[1..], b);
    }
  }

  lemma {:induction false} BitsAppend(a: seq<Byte>, b: seq<Byte>)
    ensures Bits(a + b) == Bits(a) + Bits(b)
  {
    if |a| == 0 {
      assert a + b == b;
    } else {
      assert (a + b)[1..] == a[1..] + b;
      BitsAppend(a[1..], b);
    }
  }

  /** Absorbing a concatenation is absorbing its parts in turn. */
  lemma AbsorbAppend(r: Reg, a: seq<Byte>, b: seq<Byte>)
    ensures Absorb(r, a + b) == Absorb(Absorb(r, a), b)
  {
    BitsAppend(a, b);
    AbsorbBitsAppend(r, Bits(a), Bits(b));
  }

  // ---- the table-driven loop ----

  /** Exclusive or of two 32-bit words, digit by digit. */
  function XorWord(a: u32, b: u32): (c: u32)
    ensures BitsOf(c, 32) == XorBits(BitsOf(a, 32), BitsOf(b, 32))
  {
    BitsOfValue(XorBits(BitsOf(a, 32), BitsOf(b, 32)));
    Pow2Values();
    Value(XorBits(BitsOf(a, 32), BitsOf(b, 32)))
  }

  /** Run the register `k` places without input. */
  function Shift(r: Reg, k: nat): Reg { AbsorbBits(r, Falses(k)) }

  lemma FalsesStep(k: nat)
    requires k > 0
    ensures Falses(k)[0] == false && Falses(k)[1..] == Falses(k - 1)
  {}

  /** `d` with the front of it xored with `x`. */
  function XorFront(d: seq<bool>, x: seq<bool>): (e: seq<bool>)
    requires |x| <= |d|
    ensures |e| == |d|
  {
    XorBits(d[..|x|], x) + d[|x|..]
  }

  lemma StepAt(r: Reg, b: bool, i: nat)
    requires i < 32
    ensures Step(r, b)[i] == ((i < 31 && r[i + 1]) != (r[0] != b && Polynomial()[i]))
  {
    hide Polynomial;
  }

  lemma StepFront(r: Reg, w: seq<bool>)
    requires 0 < |w| <= 32
    ensures Step(XorFront(r, w), false) == XorFront(Step(r, w[0]), w[1..])
  {
    hide Step, Polynomial;
    forall i | 0 <= i < 32
      ensures Step(XorFront(r, w), false)[i] == XorFront(Step(r, w[0]), w[1..])[i]
    {
      StepAt(XorFront(r, w), false, i);
      StepAt(r, w[0], i);
    }
  }

  lemma StepXor(a: Reg, b: Reg)
    ensures Step(XorBits(a, b), false) == XorBits(Step(a, false), Step(b, false))
  {
    hide Step, Polynomial;
    forall i | 0 <= i < 32
      ensures Step(XorBits(a, b), false)[i] == XorBits(Step(a, false), Step(b, false))[i]
    {
      StepAt(XorBits(a, b), false, i);
      StepAt(a, false, i);
      StepAt(b, false, i);
    }
  }

  /** Up to 32 input bits may be added to the register all at once. */
  lemma {:induction false} AbsorbIsShift(r: Reg, w: seq<bool>)
    requires |w| <= 32
    ensures AbsorbBits(r, w) == Shift(XorFront(r, w), |w|)
    decreases |w|
  {
    hide Step;
    if |w| == 0 {
      assert XorFront(r, w) == r;
    } else {
      FalsesStep(|w|);
      StepFront(r, w);
      AbsorbIsShift(Step(r, w[0]), w[1..]);
    }
  }

  lemma {:induction false} ShiftXor(a: Reg, b: Reg, k: nat)
    ensures Shift(XorBits(a, b), k) == XorBits(Shift(a, k), Shift(b, k))
    decreases k
  {
    hide Step;
    if k > 0 {
      FalsesStep(k);
      StepXor(a, b);
      ShiftXor(Step(a, false), Step(b, false), k - 1);
    }
  }

  lemma {:induction false} ShiftZeros(y: seq<bool>, k: nat)
    requires k + |y| == 32
    ensures Shift(Falses(k) + y, k) == y + Falses(k)
    decreases k
  {
    if k > 0 {
      FalsesStep(k);
      assert Step(Falses(k) + y, false) == Falses(k - 1) + (y + [false]);
      ShiftZeros(y + [false], k - 1);
      assert y + [false] + Falses(k - 1) == y + Falses(k);
    } else {
      assert Falses(0) + y == y + Falses(0);
    }
  }

  /** One table lookup does the work of eight register steps. */
  lemma TableStep(r: Reg, w: seq<bool>)
    requires |w| == 8
    ensures AbsorbBits(r, w)
            == XorBits(Shift(XorFront(r, w)[..8] + Falses(24), 8), r[8..] + Falses(8))
  {
    var x := XorFront(r, w);
    AbsorbIsShift(r, w);
    assert x == XorBits(x[..8] + Falses(24), Falses(8) + r[8..]);
    ShiftXor(x[..8] + Falses(24), Falses(8) + r[8..], 8);
    ShiftZeros(r[8..], 8);
  }

  ghost predicate IsEntry(n: nat, word: u32) {
    BitsOf(word, 32) == Shift(BitsOf(n, 32), 8)
  }

  method BuildTable() returns (table: array<u32>)
    ensures fresh(table) && table.Length == 256
    ensures forall n :: 0 <= n < 256 ==> IsEntry(n, table[n])
  {
    table := new u32[256](_ => 0);
    for n := 0 to 256
      invariant forall m :: 0 <= m < n ==> IsEntry(m, table[m])
    {
      var c: u32 := n;
      for k := 0 to 8
        invariant Shift(BitsOf(c, 32), 8 - k) == Shift(BitsOf(n, 32), 8)
        invariant forall m :: 0 <= m < n ==> IsEntry(m, table[m])
      {
        WordStep(c, 8 - k);
        c := if c % 2 == 1 then XorWord(POLYNOMIAL_REFLECTED, c / 2) else c / 2;
      }
      table[n] := c;
    }
  }

  lemma WordStep(c: u32, k: nat)
    requires k > 0
    ensures var d := if c % 2 == 1 then XorWord(POLYNOMIAL_REFLECTED, c / 2) else c / 2;
            Shift(BitsOf(c, 32), k) == Shift(BitsOf(d, 32), k - 1)
  {
    FalsesStep(k);
    BitsOfHalved(c, 1);
    assert Halve(c, 1) == c / 2;
    assert BitsOf(c, 32)[0] == (c % 2 == 1);
    assert Falses(1) == [false];
  }

  /** What one turn of the loop does to the word. */
  lemma LookupStep(crc: u32, b: Byte, entry: u32)
    requires IsEntry(XorWord(crc, b) % 256, entry)
    ensures BitsOf(XorWord(entry, crc / 256), 32) == AbsorbBits(BitsOf(crc, 32), BitsOf(b, 8))
  {
    hide BitsOf, Shift, AbsorbBits, XorWord;
    Pow2Values();
    var r, w, n := BitsOf(crc, 32), BitsOf(b, 8), XorWord(crc, b);
    BitsOfSmall(b, 8, 24);
    assert BitsOf(n, 32) == XorFront(r, w);
    BitsOfSplit(n, 8, 24);
    LowOctet(n);
    BitsOfSmall(n % 256, 8, 24);
    assert BitsOf(n % 256, 32) == XorFront(r, w)[..8] + Falses(24);
    HalveEight(crc);
    BitsOfHalved(crc, 8);
    TableStep(r, w);
  }

  /** The table-driven loop computes the checksum. */
  method ComputeCrc32c(table: array<u32>, bytes: seq<Byte>) returns (result: u32)
    requires table.Length == 256 && forall n :: 0 <= n < 256 ==> IsEntry(n, table[n])
    ensures result == Crc32c(bytes)
  {
    var crc: u32 := ALL_ONES;
    AllOnes();
    for i := 0 to |bytes|
      invariant BitsOf(crc, 32) == Absorb(Ones(), bytes[..i])
    {
      AbsorbAppend(Ones(), bytes[..i], [bytes[i]]);
      assert bytes[..i + 1] == bytes[..i] + [bytes[i]];
      assert Bits([bytes[i]]) == BitsOf(bytes[i], 8) + Bits([]);
      assert Bits([bytes[i]]) == BitsOf(bytes[i], 8);
      LookupStep(crc, bytes[i], table[XorWord(crc, bytes[i]) % 256]);
      crc := XorWord(table[XorWord(crc, bytes[i]) % 256], crc / 256);
    }
    assert bytes[..|bytes|] == bytes;
    result := XorWord(crc, ALL_ONES);
    Pow2Values();
    ValueOfBits(result, 32);
  }

  lemma AllOnes()
    ensures BitsOf(ALL_ONES, 32) == Ones()
  {
    hide BitsOf;
    WordOctets(ALL_ONES);
    OctetDigits(255);
  }

  // ---- error detection ----

  ghost predicate HighZero(a: Reg, b: Reg, k: nat) {
    forall i :: k <= i < 32 ==> a[i] == b[i]
  }

  /** The polynomial's top bit is one, so the bit that fell out can be read back. */
  lemma StepTop(r: Reg, b: bool)
    ensures Step(r, b)[31] == (r[0] != b)
  {
    PolynomialBits();
  }

  lemma StepBack(r1: Reg, b1: bool, r2: Reg, b2: bool, k: nat)
    requires k <= 31 && HighZero(Step(r1, b1), Step(r2, b2), k)
    ensures HighZero(r1, r2, k + 1)
    ensures (r1[0] != b1) == (r2[0] != b2)
  {
    StepTop(r1, b1);
    StepTop(r2, b2);
    assert Step(r1, b1)[31] == Step(r2, b2)[31];
    forall i | k + 1 <= i < 32
      ensures r1[i] == r2[i]
    {
      assert Step(r1, b1)[i - 1] == Step(r2, b2)[i - 1];
    }
  }

  /** If two bit strings of at most 32 bits lead to the same register, the registers
      they started from agree above the low bits the strings can reach. */
  lemma {:induction false} EqualEndsAgreeHigh(r1: Reg, w1: seq<bool>, r2: Reg, w2: seq<bool>)
    requires |w1| == |w2| <= 32
    requires AbsorbBits(r1, w1) == AbsorbBits(r2, w2)
    ensures HighZero(r1, r2, |w1|)
    decreases |w1|
  {
    if |w1| > 0 {
      EqualEndsAgreeHigh(Step(r1, w1[0]), w1[1..], Step(r2, w2[0]), w2[1..]);
      StepBack(r1, w1[0], r2, w2[0], |w1| - 1);
    }
  }

  /** From one register, different bit strings of at most 32 bits lead to different registers. */
  lemma {:induction false} BurstChangesRegister(r: Reg, w1: seq<bool>, w2: seq<bool>)
    requires |w1| == |w2| <= 32
    requires AbsorbBits(r, w1) == AbsorbBits(r, w2)
    ensures w1 == w2
    decreases |w1|
  {
    if |w1| > 0 {
      EqualEndsAgreeHigh(Step(r, w1[0]), w1[1..], Step(r, w2[0]), w2[1..]);
      StepBack(r, w1[0], r, w2[0], |w1| - 1);
      assert w1[0] == w2[0];
      BurstChangesRegister(Step(r, w1[0]), w1[1..], w2[1..]);
      assert w1 == [w1[0]] + w1[1..] && w2 == [w2[0]] + w2[1..];
    }
  }

  /** Every message bit string acts on registers one to one. */
  lemma {:induction false} AbsorbBitsInjective(r1: Reg, r2: Reg, w: seq<bool>)
    requires AbsorbBits(r1, w) == AbsorbBits(r2, w)
    ensures r1 == r2
    decreases |w|
  {
    if |w| > 0 {
      AbsorbBitsInjective(Step(r1, w[0]), Step(r2, w[0]), w[1..]);
      StepBack(r1, w[0], r2, w[0], 0);
    }
  }

  function OddOnes(bits: seq<bool>): bool {
    if |bits| == 0 then false else bits[0] != OddOnes(bits[1..])
  }

  lemma {:induction false} OddOnesXor(a: seq<bool>, b: seq<bool>)
    requires |a| == |b|
    ensures OddOnes(XorBits(a, b)) == (OddOnes(a) != OddOnes(b))
  {
    if |a| > 0 {
      OddOnesXor(a[1..], b[1..]);
      assert XorBits(a, b)[1..] == XorBits(a[1..], b[1..]);
    }
  }

  lemma {:induction false} OddOnesAppend(a: seq<bool>, b: seq<bool>)
    ensures OddOnes(a + b) == (OddOnes(a) != OddOnes(b))
  {
    if |a| == 0 {
      assert a + b == b;
    } else {
      OddOnesAppend(a[1..], b);
      assert (a + b)[1..] == a[1..] + b;
    }
  }

  lemma PolynomialOdd()
    ensures OddOnes(Polynomial())
  {
    PolynomialBits();
    var a := [false, false, false, true, true, true, true, false];
    var b := [true, true, false, true, true, true, false, false];
    var c := [false, true, true, false, true, true, true, true];
    var d := [false, true, false, false, false, false, false, true];
    assert !OddOnes(a) && OddOnes(b) && !OddOnes(c) && !OddOnes(d);
    OddOnesAppend(a, b);
    OddOnesAppend(a + b, c);
    OddOnesAppend(a + b + c, d);
  }

  /** The polynomial has an odd number of ones below x^32, so the register's parity
      moves with the message's parity. */
  lemma StepParity(r: Reg, b: bool)
    ensures OddOnes(Step(r, b)) == (OddOnes(r) != b)
  {
    PolynomialOdd();
    OddOnesAppend(r[1..], [false]);
    OddOnesXor(Polynomial(), ShiftOut(r));
  }

  lemma {:induction false} AbsorbParity(r: Reg, w: seq<bool>)
    ensures OddOnes(AbsorbBits(r, w)) == (OddOnes(r) != OddOnes(w))
    decreases |w|
  {
    if |w| > 0 {
      StepParity(r, w[0]);
      AbsorbParity(Step(r, w[0]), w[1..]);
    }
  }

  lemma {:induction false} BitsInjective(s: seq<Byte>, t: seq<Byte>)
    requires |s| == |t| && Bits(s) == Bits(t)
    ensures s == t
  {
    if |s| > 0 {
      assert BitsOf(s[0], 8) == Bits(s)[..8] == Bits(t)[..8] == BitsOf(t[0], 8);
      assert Bits(s[1..]) == Bits(s)[8..] == Bits(t)[8..] == Bits(t[1..]);
      Pow2Values();
      ValueOfBits(s[0], 8);
      ValueOfBits(t[0], 8);
      BitsInjective(s[1..], t[1..]);
      assert s == [s[0]] + s[1..] && t == [t[0]] + t[1..];
    }
  }

  /** The digits of the checksum are the complement of the register. */
  lemma CrcDigits(s: seq<Byte>)
    ensures BitsOf(Crc32c(s), 32) == XorBits(Absorb(Ones(), s), Ones())
  {
    BitsOfValue(XorBits(Absorb(Ones(), s), Ones()));
  }

  lemma CrcDiffers(s: seq<Byte>, t: seq<Byte>)
    requires Absorb(Ones(), s) != Absorb(Ones(), t)
    ensures Crc32c(s) != Crc32c(t)
  {
    CrcDigits(s);
    CrcDigits(t);
    var a, b := Absorb(Ones(), s), Absorb(Ones(), t);
    var i :| 0 <= i < 32 && a[i] != b[i];
    assert XorBits(a, Ones())[i] != XorBits(b, Ones())[i];
  }

  /** Two messages whose bits differ only inside a window of at most 32 bits, at any
      alignment, have different checksums. */
  lemma BurstDetected(s: seq<Byte>, t: seq<Byte>, p: seq<bool>, w1: seq<bool>, w2: seq<bool>, q: seq<bool>)
    requires Bits(s) == p + w1 + q && Bits(t) == p + w2 + q
    requires |w1| == |w2| <= 32 && w1 != w2
    ensures Crc32c(s) != Crc32c(t)
  {
    var r := AbsorbBits(Ones(), p);
    AbsorbBitsAppend(Ones(), p + w1, q);
    AbsorbBitsAppend(Ones(), p, w1);
    AbsorbBitsAppend(Ones(), p + w2, q);
    AbsorbBitsAppend(Ones(), p, w2);
    if Absorb(Ones(), s) == Absorb(Ones(), t) {
      AbsorbBitsInjective(AbsorbBits(r, w1), AbsorbBits(r, w2), q);
      BurstChangesRegister(r, w1, w2);
      assert false;
    }
    CrcDiffers(s, t);
  }

  /** In particular any change confined to four consecutive bytes is seen. */
  lemma WindowDetected(p: seq<Byte>, w1: seq<Byte>, w2: seq<Byte>, q: seq<Byte>)
    requires |w1| == |w2| <= 4 && w1 != w2
    ensures Crc32c(p + w1 + q) != Crc32c(p + w2 + q)
  {
    BitsAppend(p + w1, q);
    BitsAppend(p, w1);
    BitsAppend(p + w2, q);
    BitsAppend(p, w2);
    if Bits(w1) == Bits(w2) {
      BitsInjective(w1, w2);
      assert false;
    }
    BurstDetected(p + w1 + q, p + w2 + q, Bits(p), Bits(w1), Bits(w2), Bits(q));
  }

  lemma {:induction false} OddOnesTrues(k: nat)
    ensures OddOnes(seq(k, _ => true)) == (k % 2 == 1)
  {
    if k > 0 {
      OddOnesTrues(k - 1);
      assert seq(k, _ => true)[1..] == seq(k - 1, _ => true);
    }
  }

  /** The checksum has as many ones as the message, modulo two. */
  lemma CrcParity(s: seq<Byte>)
    ensures OddOnes(BitsOf(Crc32c(s), 32)) == OddOnes(Bits(s))
  {
    CrcDigits(s);
    OddOnesTrues(32);
    OddOnesXor(Absorb(Ones(), s), Ones());
    AbsorbParity(Ones(), Bits(s));
  }

  /** Flipping any odd number of message bits, anywhere, changes the checksum. */
  lemma OddFlipsDetected(s: seq<Byte>, t: seq<Byte>)
    requires |s| == |t| && OddOnes(XorBits(Bits(s), Bits(t)))
    ensures Crc32c(s) != Crc32c(t)
  {
    OddOnesXor(Bits(s), Bits(t));
    CrcParity(s);
    CrcParity(t);
  }

  // ---- polynomial division (RFC 3720, section 12.1) ----

  /** 0x11EDC6F41: the coefficients of the generator, x^32 first.  The non-zero ones are those of
      32; 28 27 26 25; 23 22 20 19 18; 14 13 11 10 9 8; 6 and 0. */
  function Generator(): (g: seq<bool>)
    ensures |g| == 33
  {
    [true]
    + ([false, false, false, true, true, true, true, false]
       + [true, true, false, true, true, true, false, false]
       + [false, true, true, false, true, true, true, true]
       + [false, true, false, false, false, false, false, true])
  }

  /** Schoolbook long division by the generator, highest power first. */
  function Remainder(d: seq<bool>): (r: seq<bool>)
    requires |d| >= 32
    ensures |r| == 32
    decreases |d|
  {
    if |d| == 32 then d
    else Remainder(DivisionStep(d))
  }

  lemma GeneratorIsPolynomial()
    ensures Generator() == [true] + Polynomial()
  {
    PolynomialBits();
  }

  /** One step of the division: subtract the generator if the leading coefficient is one,
      then drop that coefficient. */
  function DivisionStep(d: seq<bool>): (e: seq<bool>)
    requires |d| >= 33
    ensures |e| == |d| - 1
  {
    (if d[0] then XorFront(d, Generator()) else d)[1..]
  }

  lemma DivisionStepAt(d: seq<bool>, i: nat)
    requires |d| >= 33 && i < |d| - 1
    ensures DivisionStep(d)[i] == (d[i + 1] != (d[0] && i < 32 && Polynomial()[i]))
  {
    hide Polynomial, Generator;
    GeneratorIsPolynomial();
  }

  lemma DivisionStepIsStep(r: Reg, b: bool, m: seq<bool>)
    ensures DivisionStep(XorFront([b] + m + Falses(32), r)) == XorFront(m + Falses(32), Step(r, b))
  {
    hide Polynomial, Generator, Step, DivisionStep;
    var d := XorFront([b] + m + Falses(32), r);
    var f := XorFront(m + Falses(32), Step(r, b));
    forall i | 0 <= i < |f|
      ensures DivisionStep(d)[i] == f[i]
    {
      DivisionStepAt(d, i);
      assert d[i + 1] == ((m + Falses(32))[i] != (i + 1 < 32 && r[i + 1]));
      if i < 32 { StepAt(r, b, i); }
    }
  }

  /** The register after a message is the remainder of the message, extended by 32 zeros
      and with the starting register added to its front, divided by the generator. */
  lemma {:induction false} RegisterIsRemainder(r: Reg, m: seq<bool>)
    ensures AbsorbBits(r, m) == Remainder(XorFront(m + Falses(32), r))
    decreases |m|
  {
    if |m| == 0 {
      assert XorFront(m + Falses(32), r) == r;
    } else {
      DivisionStepIsStep(r, m[0], m[1..]);
      assert [m[0]] + m[1..] == m;
      RegisterIsRemainder(Step(r, m[0]), m[1..]);
    }
  }

  /** CRC32C as RFC 3720 defines it: complement the first 32 bits of the message extended
      by 32 zeros, divide by the generator, complement the remainder. */
  lemma CrcIsPolynomialRemainder(s: seq<Byte>)
    ensures BitsOf(Crc32c(s), 32)
            == XorBits(Remainder(XorFront(Bits(s) + Falses(32), Ones())), Ones())
  {
    CrcDigits(s);
    RegisterIsRemainder(Ones(), Bits(s));
  }
}
