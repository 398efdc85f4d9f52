/**
 What the two checksums buy: no corrupted frame is accepted, and none makes the reader
 wait for bytes that will not come.
 */
module FrameErrors {
  import opened Bytes
  import opened Wrappers
  import opened FrameCodec
  import Crc = Crc32c

  /** The error a frame is refused with when its byte `i` was replaced by `v`. */
  function Refusal(i: nat, v: Byte): FrameError {
    if i < 4 then BadMagic
    else if i == 4 then BadVersion(v)
    else if i == 19 || 24 <= i < 32 || (i == 7 && v % 32 != 0) then ReservedNonZero
    else if i < 32 then BadHeaderCrc
    else BadPayloadCrc
  }

  lemma FromBEInjective(s: seq<Byte>, t: seq<Byte>)
    requires |s| == |t| && FromBE(s) == FromBE(t)
    ensures s == t
  {
    ToFromBE(s);
    ToFromBE(t);
  }

  /** The covered bytes of a header whose byte `i`, outside the checksum field, changed. */
  lemma HeaderCrcChanges(h: seq<Byte>, i: nat, v: Byte)
    requires |h| == HEADER_SIZE && (i < 8 || 12 <= i < HEADER_SIZE) && v != h[i]
    ensures HeaderCrc(h[i := v]) != HeaderCrc(h)
  {
    hide Crc.Crc32c;
    var c := h[..8] + h[12..];
    var j := if i < 8 then i else i - 4;
    assert c == c[..j] + [h[i]] + c[j + 1..];
    var g := h[i := v];
    assert g[..8] + g[12..] == c[..j] + [v] + c[j + 1..];
    Crc.WindowDetected(c[..j], [h[i]], [v], c[j + 1..]);
  }

  lemma CorruptedHeader(f: Frame, i: nat, v: Byte)
    requires f.Fits() && f.FlagsDefined() && i < HEADER_SIZE && v != Header(f)[i]
    ensures HeaderVerdict(Header(f)[i := v]) == Some(Refusal(i, v))
  {
    hide Crc.Crc32c, ToBE, FromBE, HeaderCrc, Header;
    var h := Header(f);
    var g := h[i := v];
    HeaderLayout(f);
    HeaderFields(f);
    FieldWidths(g);
    if i < 4 {
      assert g[..4][i] != h[..4][i];
    } else {
      assert g[..4] == h[..4];
      if 24 <= i {
        assert g[24..][i - 24] == v && h[24..][i - 24] == h[i];
      } else if i >= 5 {
        assert g[24..] == h[24..];
        if 8 <= i < 12 {
          CorruptedChecksumField(h, i, v);
        } else {
          assert g[8..12] == h[8..12];
          HeaderCrcChanges(h, i, v);
        }
      }
    }
  }

  lemma CorruptedChecksumField(h: seq<Byte>, i: nat, v: Byte)
    requires |h| == HEADER_SIZE && 8 <= i < 12 && v != h[i]
    ensures HeaderCrc(h[i := v]) == HeaderCrc(h)
    ensures FromBE(h[i := v][8..12]) != FromBE(h[8..12])
  {
    hide Crc.Crc32c, FromBE;
    var g := h[i := v];
    assert g[..8] == h[..8] && g[12..] == h[12..];
    assert g[8..12][i - 8] != h[8..12][i - 8];
    if FromBE(g[8..12]) == FromBE(h[8..12]) {
      FromBEInjective(g[8..12], h[8..12]);
      assert false;
    }
  }

  lemma SliceOfTail(x: seq<Byte>, q: seq<Byte>, k: nat)
    requires k + 4 <= |q|
    ensures (x + q)[|x| + k..|x| + k + 4] == q[k..k + 4]
  {}

  /** The covered bytes of a header changed within a window that does not touch the checksum field. */
  lemma WindowChangesCrc(p: seq<Byte>, w1: seq<Byte>, w2: seq<Byte>, q: seq<Byte>)
    requires |p| + |w1| + |q| == HEADER_SIZE && |w1| == |w2| <= 4 && w1 != w2
    requires |p| + |w1| <= 8 || |p| >= 12
    ensures HeaderCrc(p + w1 + q) != HeaderCrc(p + w2 + q)
    ensures (p + w1 + q)[8..12] == (p + w2 + q)[8..12]
  {
    hide Crc.Crc32c;
    var h, g := p + w1 + q, p + w2 + q;
    if |p| >= 12 {
      assert h[..8] + h[12..] == (p[..8] + p[12..]) + w1 + q && g[..8] + g[12..] == (p[..8] + p[12..]) + w2 + q;
      Crc.WindowDetected(p[..8] + p[12..], w1, w2, q);
      assert h[8..12] == p[8..12] == g[8..12];
    } else {
      var k := 8 - |p| - |w1|;
      assert h[..8] + h[12..] == p + w1 + (q[..k] + q[k + 4..]) && g[..8] + g[12..] == p + w2 + (q[..k] + q[k + 4..]);
      Crc.WindowDetected(p, w1, w2, q[..k] + q[k + 4..]);
      SliceOfTail(p + w1, q, k);
      SliceOfTail(p + w2, q, k);
    }
  }

  /** A window inside the checksum field changes what is stored and not what is covered. */
  lemma WindowChangesStored(p: seq<Byte>, w1: seq<Byte>, w2: seq<Byte>, q: seq<Byte>)
    requires |p| + |w1| + |q| == HEADER_SIZE && |w1| == |w2| && w1 != w2 && 8 <= |p| && |p| + |w1| <= 12
    ensures HeaderCrc(p + w1 + q) == HeaderCrc(p + w2 + q)
    ensures FromBE((p + w1 + q)[8..12]) != FromBE((p + w2 + q)[8..12])
  {
    hide Crc.Crc32c, FromBE;
    var h, g := p + w1 + q, p + w2 + q;
    assert h[..8] == p[..8] == g[..8] && h[12..] == g[12..];
    var i :| 0 <= i < |w1| && w1[i] != w2[i];
    var j := |p| + i - 8;
    assert h[8..12][j] == w1[i] && g[8..12][j] == w2[i];
    assert h[8..12] != g[8..12];
    if FromBE(g[8..12]) == FromBE(h[8..12]) {
      FromBEInjective(g[8..12], h[8..12]);
    }
  }

  /** Any change confined to four consecutive header bytes, all covered by the header checksum or all in
      its field, is refused on the header alone: never accepted, and never taken for a short frame. */
  lemma CorruptedHeaderWindow(f: Frame, p: seq<Byte>, w1: seq<Byte>, w2: seq<Byte>, q: seq<Byte>, t: seq<Byte>)
    requires f.Fits() && f.FlagsDefined() && Header(f) == p + w1 + q
    requires |w1| == |w2| <= 4 && w1 != w2
    requires |p| + |w1| <= 8 || |p| >= 12 || (8 <= |p| && |p| + |w1| <= 12)
    ensures HeaderVerdict(p + w2 + q).Some?
    ensures Decode(p + w2 + q + t) == Err(HeaderVerdict(p + w2 + q).value)
    ensures !HeaderVerdict(p + w2 + q).value.Truncated?
  {
    hide Crc.Crc32c, ToBE, FromBE, HeaderCrc, Header;
    HeaderFields(f);
    if |p| + |w1| <= 8 || |p| >= 12 {
      WindowChangesCrc(p, w1, w2, q);
    } else {
      WindowChangesStored(p, w1, w2, q);
    }
    var g := p + w2 + q;
    assert (g + t)[..HEADER_SIZE] == g;
  }

  /** A payload of the right length and the wrong checksum is refused as such. */
  lemma WrongPayload(f: Frame, payload: seq<Byte>, t: seq<Byte>)
    requires f.Fits() && f.FlagsDefined() && |payload| == |f.payload|
    requires Crc.Crc32c(payload) != Crc.Crc32c(f.payload)
    ensures Decode(Header(f) + payload + t) == Err(BadPayloadCrc)
  {
    hide Crc.Crc32c, ToBE, FromBE, Header, HeaderVerdict;
    var b := Header(f) + payload + t;
    HeaderFields(f);
    assert b[..HEADER_SIZE] == Header(f);
    assert b[HEADER_SIZE..HEADER_SIZE + |payload|] == payload;
  }

  /** Changing any single byte of an encoded frame, header or payload, whatever follows it,
      is refused, and the position decides with which error. */
  lemma CorruptedByte(f: Frame, t: seq<Byte>, i: nat, v: Byte)
    requires f.Fits() && f.FlagsDefined()
    requires i < |EncodeBytes(f)| && v != EncodeBytes(f)[i]
    ensures Decode(EncodeBytes(f)[i := v] + t) == Err(Refusal(i, v))
  {
    hide Crc.Crc32c, Header, HeaderVerdict;
    var b := EncodeBytes(f)[i := v] + t;
    if i < HEADER_SIZE {
      assert b[..HEADER_SIZE] == Header(f)[i := v];
      CorruptedHeader(f, i, v);
    } else {
      var j := i - HEADER_SIZE;
      var p, q := f.payload[..j], f.payload[j + 1..];
      assert f.payload == p + [f.payload[j]] + q;
      Crc.WindowDetected(p, [f.payload[j]], [v], q);
      WrongPayload(f, p + [v] + q, t);
      assert b == Header(f) + (p + [v] + q) + t;
    }
  }

  /** Any change confined to four consecutive payload bytes is a payload checksum error. */
  lemma CorruptedWindow(f: Frame, p: seq<Byte>, w1: seq<Byte>, w2: seq<Byte>, q: seq<Byte>, t: seq<Byte>)
    requires f.Fits() && f.FlagsDefined() && f.payload == p + w1 + q
    requires |w1| == |w2| <= 4 && w1 != w2
    ensures Decode(Header(f) + (p + w2 + q) + t) == Err(BadPayloadCrc)
  {
    Crc.WindowDetected(p, w1, w2, q);
    WrongPayload(f, p + w2 + q, t);
  }

  /** So is flipping any odd number of payload bits, wherever they are. */
  lemma OddPayloadFlips(f: Frame, payload: seq<Byte>, t: seq<Byte>)
    requires f.Fits() && f.FlagsDefined() && |payload| == |f.payload|
    requires Crc.OddOnes(XorBits(Crc.Bits(payload), Crc.Bits(f.payload)))
    ensures Decode(Header(f) + payload + t) == Err(BadPayloadCrc)
  {
    Crc.OddFlipsDetected(payload, f.payload);
    WrongPayload(f, payload, t);
  }

  lemma BitsOfFour(a: Byte, b: Byte, c: Byte, d: Byte)
    ensures Crc.Bits([a, b, c, d]) == BitsOf(a, 8) + BitsOf(b, 8) + BitsOf(c, 8) + BitsOf(d, 8)
  {
    hide BitsOf;
    assert [a, b, c, d][1..] == [b, c, d] && [b, c, d][1..] == [c, d] && [c, d][1..] == [d];
    assert Crc.Bits([d]) == BitsOf(d, 8) + Crc.Bits([]);
    assert Crc.Bits([c, d]) == BitsOf(c, 8) + Crc.Bits([d]);
    assert Crc.Bits([b, c, d]) == BitsOf(b, 8) + Crc.Bits([c, d]);
  }

  lemma FourBytes(s: seq<Byte>)
    requires |s| == 4
    ensures FromBE(s) == s[0] as int * 16777216 + s[1] as int * 65536 + s[2] as int * 256 + s[3] as int
  {
    assert s[..3][..2] == s[..2] && s[..2][..1] == s[..1];
    assert FromBE(s[..1]) == s[0];
    assert FromBE(s[..2]) == s[0] as int * 256 + s[1] as int;
    assert FromBE(s[..3]) == FromBE(s[..2]) * 256 + s[2] as int;
  }

  lemma DigitsOfFour(n: int, a: Byte, b: Byte, c: Byte, d: Byte)
    requires n == a as int * 16777216 + b as int * 65536 + c as int * 256 + d as int
    ensures n % 256 == d && n / 256 % 256 == c && n / 65536 % 256 == b && n / 16777216 == a
  {
    Digit(a as int * 65536 + b as int * 256 + c as int, d, n);
    Digit(a as int * 256 + b as int, c, n / 256);
    Digit(a as int, b, n / 65536);
  }

  lemma Digit(q: nat, d: Byte, n: nat)
    requires n == q * 256 + d as int
    ensures n % 256 == d && n / 256 == q && n / 65536 == q / 256 && n / 16777216 == q / 65536
  {}

  lemma OddOnesReverse(w: seq<bool>, x: seq<bool>, y: seq<bool>, z: seq<bool>)
    ensures Crc.OddOnes(w + x + y + z) == Crc.OddOnes(z + y + x + w)
  {
    hide Crc.OddOnes;
    Crc.OddOnesAppend(w, x);
    Crc.OddOnesAppend(w + x, y);
    Crc.OddOnesAppend(w + x + y, z);
    Crc.OddOnesAppend(z, y);
    Crc.OddOnesAppend(z + y, x);
    Crc.OddOnesAppend(z + y + x, w);
  }

  lemma WordParity(s: seq<Byte>)
    requires |s| == 4
    ensures Crc.OddOnes(Crc.Bits(s)) == Crc.OddOnes(BitsOf(FromBE(s), 32))
  {
    hide BitsOf, Crc.OddOnes, Crc.Bits, FromBE;
    assert s == [s[0], s[1], s[2], s[3]];
    FourBytes(s);
    DigitsOfFour(FromBE(s), s[0], s[1], s[2], s[3]);
    BitsOfFour(s[0], s[1], s[2], s[3]);
    WordOctets(FromBE(s));
    OddOnesReverse(BitsOf(s[0], 8), BitsOf(s[1], 8), BitsOf(s[2], 8), BitsOf(s[3], 8));
  }

  /** Every accepted header has an even number of one bits. */
  lemma AcceptedHeaderIsEven(h: seq<Byte>)
    requires |h| == HEADER_SIZE && HeaderVerdict(h).None?
    ensures !Crc.OddOnes(Crc.Bits(h))
  {
    hide BitsOf, Crc.OddOnes, Crc.Bits, Crc.Crc32c, FromBE;
    var a, c, b := h[..8], h[8..12], h[12..];
    assert h == a + c + b;
    Crc.BitsAppend(a + c, b);
    Crc.BitsAppend(a, c);
    Crc.BitsAppend(a, b);
    Crc.OddOnesAppend(Crc.Bits(a) + Crc.Bits(c), Crc.Bits(b));
    Crc.OddOnesAppend(Crc.Bits(a), Crc.Bits(c));
    Crc.OddOnesAppend(Crc.Bits(a), Crc.Bits(b));
    WordParity(c);
    Crc.CrcParity(a + b);
  }

  /** So flipping an odd number of header bits, the checksum field included, is refused on
      the header alone: the corrupted length field is never believed. */
  lemma OddHeaderFlips(f: Frame, h: seq<Byte>, t: seq<Byte>)
    requires f.Fits() && f.FlagsDefined() && |h| == HEADER_SIZE
    requires Crc.OddOnes(XorBits(Crc.Bits(h), Crc.Bits(Header(f))))
    ensures HeaderVerdict(h).Some? && Decode(h + t) == Err(HeaderVerdict(h).value)
    ensures !Decode(h + t).error.Truncated?
  {
    hide HeaderVerdict, Header;
    HeaderFields(f);
    AcceptedHeaderIsEven(Header(f));
    Crc.OddOnesXor(Crc.Bits(h), Crc.Bits(Header(f)));
    if HeaderVerdict(h).None? {
      AcceptedHeaderIsEven(h);
      assert false;
    }
    assert (h + t)[..HEADER_SIZE] == h;
    VerdictNeverTruncated(h);
  }

  lemma VerdictNeverTruncated(h: seq<Byte>)
    requires |h| == HEADER_SIZE
    ensures HeaderVerdict(h).Some? ==> !HeaderVerdict(h).value.Truncated?
  {}
}
