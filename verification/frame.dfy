/**
 The BRN0 frame codec: a 32-byte header with two CRC32C fields, then the payload.

 `Decode` is the source's branch-by-branch parser; `EncodeBytes` says what the in-place
 `Encode` leaves in its buffer.  The lemmas make them inverse in both directions, fix the
 verdict on every strict prefix and under appended bytes, and say exactly which error a
 corrupted frame is refused with.
 */
module FrameCodec {
  import opened Bytes
  import opened Wrappers
  import Crc32c

  const MAGIC: seq<Byte> := [0x42, 0x52, 0x4e, 0x30]
  const WIRE_VERSION: Byte := 1
  const HEADER_SIZE: nat := 32
  const FLAG_EOS: Byte := 0x80
  const MAX_PAYLOAD_BYTES: nat := 0xff_ffff

  datatype Frame = Frame(opcode: u16, flags: Byte, streamId: u32, payload: seq<Byte>)
  {
    /** Only EOS, MPL and CMP (the top three bits) are defined. */
    predicate FlagsDefined() { flags % 32 == 0 }

    predicate Eos() { flags / 128 % 2 == 1 }

    predicate Fits() { |payload| <= MAX_PAYLOAD_BYTES }
  }

  /** The flag bits are the top three: EOS 0x80, MPL 0x40 and CMP 0x20. */
  lemma FlagsMean(f: Frame)
    ensures f.Eos() <==> f.flags >= 0x80
    ensures f.FlagsDefined() <==> f.flags in {0, 0x20, 0x40, 0x60, 0x80, 0xa0, 0xc0, 0xe0}
  {}

  datatype FrameError =
    | BadMagic
    | BadVersion(got: Byte)
    | BadHeaderCrc
    | BadPayloadCrc
    | OversizePayload(len: nat, max: nat)
    | ReservedNonZero
    | Truncated(have: nat, need: nat)

  datatype Decoded = Ok(frame: Frame, rest: seq<Byte>) | Err(error: FrameError)

  datatype Encoded = Wire(bytes: seq<Byte>) | EncodeErr(error: FrameError)

  function Zeros(k: nat): (s: seq<Byte>)
    ensures |s| == k
  {
    seq(k, _ => 0)
  }

  // ---- the header checksum ----

  /** CRC32C of the header without its own checksum field. */
  function HeaderCrc(header: seq<Byte>): u32
    requires |header| == HEADER_SIZE
  {
    Crc32c.Crc32c(header[..8] + header[12..])
  }

  method CopyInto(a: array<Byte>, at: nat, s: seq<Byte>)
    requires at + |s| <= a.Length
    modifies a
    ensures a[at..at + |s|] == s
    ensures forall i :: 0 <= i < at || at + |s| <= i < a.Length ==> a[i] == old(a[i])
  {
    for i := 0 to |s|
      invariant a[at..at + i] == s[..i]
      invariant forall j :: 0 <= j < at || at + i <= j < a.Length ==> a[j] == old(a[j])
    {
      a[at + i] := s[i];
    }
  }

  method ComputeHeaderCrc(header: seq<Byte>) returns (crc: u32)
    requires |header| == HEADER_SIZE
    ensures crc == HeaderCrc(header)
  {
    var buf := new Byte[HEADER_SIZE - 4](_ => 0);
    CopyInto(buf, 0, header[..8]);
    CopyInto(buf, 8, header[12..]);
    assert buf[..] == buf[0..8] + buf[8..28];
    assert buf[0..8] == header[..8];
    crc := Crc32c.Crc32c(buf[..]);
  }

  // ---- encoding ----

  function HeaderFront(f: Frame): (s: seq<Byte>)
    ensures |s| == 8
  {
    MAGIC + [WIRE_VERSION] + ToBE(f.opcode, 2) + [f.flags]
  }

  function HeaderBack(f: Frame): (s: seq<Byte>)
    ensures |s| == 20
  {
    ToBE(f.streamId, 4) + ToBE(|f.payload|, 3) + [0] + ToBE(Crc32c.Crc32c(f.payload), 4) + Zeros(8)
  }

  function Header(f: Frame): (s: seq<Byte>)
    ensures |s| == HEADER_SIZE
  {
    HeaderFront(f) + ToBE(Crc32c.Crc32c(HeaderFront(f) + HeaderBack(f)), 4) + HeaderBack(f)
  }

  /** A frame opens with "BRN0" and version 1, then the opcode, high byte first, and the flags. */
  lemma OpensWith(f: Frame)
    ensures Header(f)[..8] == [0x42, 0x52, 0x4e, 0x30, 1, f.opcode / 256, f.opcode % 256, f.flags]
  {
    hide Crc32c.Crc32c;
    assert ToBE(f.opcode, 2) == ToBE(f.opcode / 256, 1) + [f.opcode % 256];
    assert ToBE(f.opcode / 256, 1) == ToBE(0, 0) + [f.opcode / 256];
    assert Header(f)[..8] == HeaderFront(f)[..8];
  }

  function EncodeBytes(f: Frame): (s: seq<Byte>)
    ensures |s| == HEADER_SIZE + |f.payload|
  {
    Header(f) + f.payload
  }

  method Encode(f: Frame) returns (r: Encoded)
    ensures f.Fits() ==> r == Wire(EncodeBytes(f))
    ensures !f.Fits() ==> r == EncodeErr(OversizePayload(|f.payload| % 0x1_0000_0000, MAX_PAYLOAD_BYTES))
  {
    if |f.payload| > MAX_PAYLOAD_BYTES {
      return EncodeErr(OversizePayload(|f.payload| % 0x1_0000_0000, MAX_PAYLOAD_BYTES));
    }
    var out := new Byte[HEADER_SIZE + |f.payload|](_ => 0);
    FillHeader(out, f);
    CopyInto(out, HEADER_SIZE, f.payload);
    assert out[..HEADER_SIZE] == Header(f);
    assert out[..] == out[..HEADER_SIZE] + out[HEADER_SIZE..];
    r := Wire(out[..]);
  }

  method FillHeader(out: array<Byte>, f: Frame)
    requires out.Length >= HEADER_SIZE && f.Fits()
    requires forall i :: 0 <= i < HEADER_SIZE ==> out[i] == 0
    modifies out
    ensures out[..HEADER_SIZE] == Header(f)
    ensures forall i :: HEADER_SIZE <= i < out.Length ==> out[i] == old(out[i])
  {
    hide ToBE, Crc32c.Crc32c, HeaderBack;
    CopyInto(out, 0, MAGIC);
    out[4] := WIRE_VERSION;
    CopyInto(out, 5, ToBE(f.opcode, 2));
    out[7] := f.flags;
    assert out[..8] == HeaderFront(f) by {
      assert out[..8] == out[0..4] + [out[4]] + out[5..7] + [out[7]];
    }
    FillHeaderBack(out, f);
    assert out[..HEADER_SIZE][..8] + out[..HEADER_SIZE][12..] == HeaderFront(f) + HeaderBack(f);
    var headerCrc := ComputeHeaderCrc(out[..HEADER_SIZE]);
    CopyInto(out, 8, ToBE(headerCrc, 4));
    assert out[8..12] == ToBE(headerCrc, 4);
    assert out[..8] == HeaderFront(f);
    assert out[12..HEADER_SIZE] == HeaderBack(f);
    assert out[..HEADER_SIZE] == out[..8] + out[8..12] + out[12..HEADER_SIZE];
  }

  method FillHeaderBack(out: array<Byte>, f: Frame)
    requires out.Length >= HEADER_SIZE && f.Fits()
    requires forall i :: 12 <= i < HEADER_SIZE ==> out[i] == 0
    modifies out
    ensures out[12..HEADER_SIZE] == HeaderBack(f)
    ensures forall i :: 0 <= i < 12 || HEADER_SIZE <= i < out.Length ==> out[i] == old(out[i])
  {
    hide ToBE, Crc32c.Crc32c;
    CopyInto(out, 12, ToBE(f.streamId, 4));
    CopyInto(out, 16, ToBE(|f.payload|, 3));
    CopyInto(out, 20, ToBE(Crc32c.Crc32c(f.payload), 4));
    assert out[12..16] == ToBE(f.streamId, 4);
    assert out[16..19] == ToBE(|f.payload|, 3);
    assert out[24..32] == Zeros(8);
    assert out[12..32] == out[12..16] + out[16..19] + [out[19]] + out[20..24] + out[24..32];
  }

  // ---- decoding ----

  /** The checks `Decode` makes on the header alone, in the source's order. */
  function HeaderVerdict(header: seq<Byte>): Option<FrameError>
    requires |header| == HEADER_SIZE
  {
    if header[..4] != MAGIC then Some(BadMagic)
    else if header[4] != WIRE_VERSION then Some(BadVersion(header[4]))
    else if header[19] != 0 || header[24..] != Zeros(8) then Some(ReservedNonZero)
    else if header[7] % 32 != 0 then Some(ReservedNonZero)
    else if FromBE(header[8..12]) != HeaderCrc(header) then Some(BadHeaderCrc)
    else if FromBE(header[16..19]) > MAX_PAYLOAD_BYTES
    then Some(OversizePayload(FromBE(header[16..19]), MAX_PAYLOAD_BYTES))
    else None
  }

  function Decode(bytes: seq<Byte>): Decoded {
    if |bytes| < HEADER_SIZE then Err(Truncated(|bytes|, HEADER_SIZE))
    else
      var header := bytes[..HEADER_SIZE];
      var verdict := HeaderVerdict(header);
      if verdict.Some? then Err(verdict.value)
      else
        var need := HEADER_SIZE + FromBE(header[16..19]);
        if |bytes| < need then Err(Truncated(|bytes|, need))
        else
          var payload := bytes[HEADER_SIZE..need];
          if FromBE(header[20..24]) != Crc32c.Crc32c(payload) then Err(BadPayloadCrc)
          else
            FieldWidths(header);
            Ok(Frame(FromBE(header[5..7]), header[7], FromBE(header[12..16]), payload), bytes[need..])
  }

  lemma FieldWidths(header: seq<Byte>)
    requires |header| == HEADER_SIZE
    ensures FromBE(header[5..7]) < 0x1_0000
    ensures FromBE(header[12..16]) < 0x1_0000_0000
    ensures FromBE(header[16..19]) <= MAX_PAYLOAD_BYTES
  {
    ToFromBE(header[5..7]);
    ToFromBE(header[12..16]);
    ToFromBE(header[16..19]);
    Pow256Values();
  }

  /** The length field has three bytes, so the oversize check never fires. */
  lemma NeverOversize(bytes: seq<Byte>)
    ensures Decode(bytes).Err? ==> !Decode(bytes).error.OversizePayload?
  {
    if |bytes| >= HEADER_SIZE { FieldWidths(bytes[..HEADER_SIZE]); }
  }

  // ---- encode, then decode ----

  lemma HeaderLayout(f: Frame)
    requires f.Fits()
    ensures var h := Header(f);
            && h[..4] == MAGIC && h[4] == WIRE_VERSION && h[5..7] == ToBE(f.opcode, 2) && h[7] == f.flags
            && h[..8] == HeaderFront(f) && h[12..] == HeaderBack(f)
            && h[8..12] == ToBE(Crc32c.Crc32c(HeaderFront(f) + HeaderBack(f)), 4)
            && h[12..16] == ToBE(f.streamId, 4) && h[16..19] == ToBE(|f.payload|, 3) && h[19] == 0
            && h[20..24] == ToBE(Crc32c.Crc32c(f.payload), 4) && h[24..] == Zeros(8)
  {
    hide ToBE, Crc32c.Crc32c;
    var h := Header(f);
    assert h[12..16] == HeaderBack(f)[..4] && h[16..19] == HeaderBack(f)[4..7];
    assert h[20..24] == HeaderBack(f)[8..12] && h[24..] == HeaderBack(f)[12..];
    assert h[5..7] == HeaderFront(f)[5..7] && h[..4] == HeaderFront(f)[..4];
  }

  lemma HeaderFields(f: Frame)
    requires f.Fits()
    ensures var h := Header(f);
            && FromBE(h[5..7]) == f.opcode && FromBE(h[12..16]) == f.streamId
            && FromBE(h[16..19]) == |f.payload| && FromBE(h[20..24]) == Crc32c.Crc32c(f.payload)
            && FromBE(h[8..12]) == HeaderCrc(h)
    ensures HeaderVerdict(Header(f)) == if f.FlagsDefined() then None else Some(ReservedNonZero)
  {
    HeaderLayout(f);
    Pow256Values();
    FromToBE(f.opcode, 2);
    FromToBE(f.streamId, 4);
    FromToBE(|f.payload|, 3);
    FromToBE(Crc32c.Crc32c(f.payload), 4);
    FromToBE(Crc32c.Crc32c(HeaderFront(f) + HeaderBack(f)), 4);
  }

  /** Decoding an encoded frame gives the frame and the bytes after it back exactly when
      its flags are defined ones. */
  lemma DecodeEncoded(f: Frame, t: seq<Byte>)
    requires f.Fits()
    ensures Decode(EncodeBytes(f) + t)
            == if f.FlagsDefined() then Ok(f, t) else Err(ReservedNonZero)
  {
    var b := EncodeBytes(f) + t;
    HeaderFields(f);
    HeaderLayout(f);
    assert b[..HEADER_SIZE] == Header(f);
    var need := HEADER_SIZE + |f.payload|;
    assert b[HEADER_SIZE..need] == f.payload;
    assert b[need..] == t;
  }

  /** `Decode` accepts only what `Encode` writes. */
  lemma EncodeDecoded(b: seq<Byte>)
    requires Decode(b).Ok?
    ensures var d := Decode(b);
            d.frame.Fits() && d.frame.FlagsDefined() && EncodeBytes(d.frame) + d.rest == b
  {
    hide ToBE, FromBE, Pow256, Crc32c.Crc32c;
    var h, f := b[..HEADER_SIZE], Decode(b).frame;
    FieldWidths(h);
    ToFromBE(h[5..7]);
    ToFromBE(h[8..12]);
    ToFromBE(h[12..16]);
    ToFromBE(h[16..19]);
    ToFromBE(h[20..24]);
    assert h[..8] == HeaderFront(f) by {
      assert h[..8] == h[..4] + [h[4]] + h[5..7] + [h[7]];
    }
    assert h[12..] == HeaderBack(f) by {
      assert h[12..] == h[12..16] + h[16..19] + [h[19]] + h[20..24] + h[24..];
    }
    assert h == h[..8] + h[8..12] + h[12..];
  }

  /** No two frames share an encoding, not even as prefixes of longer streams. */
  lemma EncodeInjective(f: Frame, s: seq<Byte>, g: Frame, t: seq<Byte>)
    requires f.Fits() && g.Fits() && f.FlagsDefined() && EncodeBytes(f) + s == EncodeBytes(g) + t
    ensures f == g && s == t
  {
    DecodeEncoded(f, s);
    DecodeEncoded(g, t);
  }

  /** Every strict prefix of a frame asks for more bytes, and says how many. */
  lemma PrefixTruncated(f: Frame, n: nat)
    requires f.Fits() && f.FlagsDefined() && n < |EncodeBytes(f)|
    ensures Decode(EncodeBytes(f)[..n])
            == Err(Truncated(n, if n < HEADER_SIZE then HEADER_SIZE else |EncodeBytes(f)|))
  {
    hide Crc32c.Crc32c, Header;
    var b := EncodeBytes(f)[..n];
    if n >= HEADER_SIZE {
      HeaderFields(f);
      assert b[..HEADER_SIZE] == Header(f);
    }
  }

  /** A verdict other than `Truncated` does not change when more bytes arrive. */
  lemma DecodeAppend(b: seq<Byte>, t: seq<Byte>)
    ensures var d := Decode(b);
            && (d.Ok? ==> Decode(b + t) == Ok(d.frame, d.rest + t))
            && (d.Err? && !d.error.Truncated? ==> Decode(b + t) == d)
  {
    var d := Decode(b);
    if |b| >= HEADER_SIZE {
      assert (b + t)[..HEADER_SIZE] == b[..HEADER_SIZE];
      var need := HEADER_SIZE + FromBE(b[..HEADER_SIZE][16..19]);
      if |b| >= need {
        assert (b + t)[HEADER_SIZE..need] == b[HEADER_SIZE..need];
        assert (b + t)[need..] == b[need..] + t;
      }
    }
  }
}
