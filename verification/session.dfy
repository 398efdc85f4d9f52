/**
 A Rust connection's inbound side from the first byte: the inline handshake, the hand-over
 of the bytes buffered past AUTH_OK, and the reader task that reads on until the end.
 */
module Session {
  import opened Bytes
  import opened Wrappers
  import opened FrameCodec
  import opened FrameStream

  const OP_WELCOME: u16 := 0x0081
  const OP_AUTH_OK: u16 := 0x0082
  const OP_ERROR: u16 := 0x00ff

  datatype HandshakeError =
    | Transport(reason: ReadError)
    | ServerError(frame: Frame)
    | Unexpected(expected: u16, got: u16)
    | Undecodable(frame: Frame)
    | VersionMismatch(welcome: Frame)

  /** The CBOR bodies a handshake reads: the version WELCOME chose if its body decodes, and whether an
      AUTH_OK or an ERROR body does. */
  datatype Bodies = Bodies(chosen: seq<Byte> -> Option<Byte>, authOk: seq<Byte> -> bool, error: seq<Byte> -> bool)

  datatype Reply = Accepted(frame: Frame) | Refused(error: HandshakeError)

  /** The reply a handshake step must get out of the bytes ahead, and the bytes after it. */
  function ReplySpec(b: seq<Byte>, ending: Ending, bodies: Bodies, expected: u16): (Reply, seq<Byte>) {
    var (r, rest) := ReadSpec(b, ending);
    if r.Failed? then (Refused(Transport(r.reason)), rest)
    else if r.frame.opcode == OP_ERROR then
      (Refused(if bodies.error(r.frame.payload) then ServerError(r.frame) else Undecodable(r.frame)), rest)
    else if r.frame.opcode != expected then (Refused(Unexpected(expected, r.frame.opcode)), rest)
    else (Accepted(r.frame), rest)
  }

  method ReadHandshakeReply(reader: PullReader, bodies: Bodies, expected: u16) returns (r: Reply)
    modifies reader, reader.stream
    ensures r == ReplySpec(old(reader.Ahead()), reader.stream.ending, bodies, expected).0
    ensures r.Accepted? ==> reader.Ahead() == ReplySpec(old(reader.Ahead()), reader.stream.ending, bodies, expected).1
  {
    hide Decode;
    var got := reader.ReadFrameRust();
    if got.Failed? { return Refused(Transport(got.reason)); }
    var frame := got.frame;
    if frame.opcode == OP_ERROR {
      if !bodies.error(frame.payload) { return Refused(Undecodable(frame)); }
      return Refused(ServerError(frame));
    }
    if frame.opcode != expected { return Refused(Unexpected(expected, frame.opcode)); }
    r := Accepted(frame);
  }

  datatype Handshake = Connected(welcome: Frame, authOk: Frame) | NotConnected(error: HandshakeError)

  /** The handshake as a function of the whole inbound stream. */
  function HandshakeSpec(b: seq<Byte>, ending: Ending, bodies: Bodies, offered: seq<Byte>): (Handshake, seq<Byte>) {
    var (w, rest) := ReplySpec(b, ending, bodies, OP_WELCOME);
    if w.Refused? then (NotConnected(w.error), rest)
    else if bodies.chosen(w.frame.payload).None? then (NotConnected(Undecodable(w.frame)), rest)
    else if bodies.chosen(w.frame.payload).value !in offered then (NotConnected(VersionMismatch(w.frame)), rest)
    else
      var (a, rest') := ReplySpec(rest, ending, bodies, OP_AUTH_OK);
      if a.Refused? then (NotConnected(a.error), rest')
      else if !bodies.authOk(a.frame.payload) then (NotConnected(Undecodable(a.frame)), rest')
      else (Connected(w.frame, a.frame), rest')
  }

  /** Read WELCOME and AUTH_OK inline, then give the leftover buffer to the reader task. */
  method DoHandshake(stream: Stream, bodies: Bodies, offered: seq<Byte>)
    returns (h: Handshake, reader: PullReader)
    modifies stream
    ensures h == HandshakeSpec(old(stream.left), stream.ending, bodies, offered).0
    ensures fresh(reader) && reader.stream == stream
    ensures h.Connected? ==>
              reader.Ahead() == HandshakeSpec(old(stream.left), stream.ending, bodies, offered).1
  {
    hide Decode;
    var inlineReader := new PullReader([], stream);
    assert inlineReader.Ahead() == old(stream.left);
    reader := inlineReader;
    var w := ReadHandshakeReply(inlineReader, bodies, OP_WELCOME);
    if w.Refused? { return NotConnected(w.error), reader; }
    var chosen := bodies.chosen(w.frame.payload);
    if chosen.None? { return NotConnected(Undecodable(w.frame)), reader; }
    if chosen.value !in offered { return NotConnected(VersionMismatch(w.frame)), reader; }
    var a := ReadHandshakeReply(inlineReader, bodies, OP_AUTH_OK);
    if a.Refused? { return NotConnected(a.error), reader; }
    if !bodies.authOk(a.frame.payload) { return NotConnected(Undecodable(a.frame)), reader; }
    reader := new PullReader(inlineReader.buf, stream);
    h := Connected(w.frame, a.frame);
  }

  /** Why a reader that has read everything stops. */
  function FinalReason(p: Parsed, ending: Ending): ReadError {
    if p.fatal.Some? then Codec(p.fatal.value) else EndError(ending)
  }

  /** The reader task's loop: whatever the splits, it delivers the stream's frames in order
      and stops for the reason the bytes dictate. */
  method ReadAll(reader: PullReader) returns (frames: seq<Frame>, reason: ReadError)
    modifies reader, reader.stream
    ensures frames == ParseAll(old(reader.Ahead())).frames
    ensures reason == FinalReason(ParseAll(old(reader.Ahead())), reader.stream.ending)
  {
    hide Decode, ParseAll;
    ghost var all := ParseAll(reader.Ahead());
    frames := [];
    while true
      invariant frames + ParseAll(reader.Ahead()).frames == all.frames
      invariant ParseAll(reader.Ahead()).fatal == all.fatal
      decreases |reader.Ahead()|
    {
      ghost var b := reader.Ahead();
      var r := reader.ReadFrameRust();
      if r.Failed? {
        ParseErr(b);
        return frames, r.reason;
      }
      ParseOk(b, r.frame, reader.Ahead());
      frames := frames + [r.frame];
    }
  }

  /** An accepted handshake is the first two frames of the stream, and nothing after them is lost. */
  lemma HandshakeIsPrefix(b: seq<Byte>, ending: Ending, bodies: Bodies, offered: seq<Byte>)
    ensures var (h, rest) := HandshakeSpec(b, ending, bodies, offered);
            h.Connected? ==>
              && ParseAll(b).frames == [h.welcome, h.authOk] + ParseAll(rest).frames
              && ParseAll(b).rest == ParseAll(rest).rest && ParseAll(b).fatal == ParseAll(rest).fatal
              && h.welcome.opcode == OP_WELCOME && h.authOk.opcode == OP_AUTH_OK
              && bodies.chosen(h.welcome.payload).Some? && bodies.chosen(h.welcome.payload).value in offered
              && bodies.authOk(h.authOk.payload)
  {
    hide Decode;
    var (w, rest) := ReplySpec(b, ending, bodies, OP_WELCOME);
    if w.Accepted? {
      var (a, rest') := ReplySpec(rest, ending, bodies, OP_AUTH_OK);
      if a.Accepted? {
        ParseOk(b, w.frame, rest);
        ParseOk(rest, a.frame, rest');
        assert ParseAll(b).frames == [w.frame, a.frame] + ParseAll(rest').frames;
      }
    }
  }

  /** The first frame is a WELCOME that can be accepted. */
  predicate Welcomes(f: Frame, bodies: Bodies, offered: seq<Byte>) {
    && f.opcode == 0x0081 && bodies.chosen(f.payload).Some? && bodies.chosen(f.payload).value in offered
  }

  /** When the handshake succeeds: exactly when the stream's first two frames are a WELCOME that chooses an
      offered version and an AUTH_OK, and both bodies decode. */
  lemma ConnectsIff(b: seq<Byte>, ending: Ending, bodies: Bodies, offered: seq<Byte>, w: Frame, a: Frame)
    ensures HandshakeSpec(b, ending, bodies, offered).0 == Connected(w, a) <==>
            var fs := ParseAll(b).frames;
            && |fs| >= 2 && w == fs[0] && a == fs[1]
            && Welcomes(w, bodies, offered) && a.opcode == 0x0082 && bodies.authOk(a.payload)
  {
    hide Decode;
    ReadsFirst(b, ending);
    if Decode(b).Ok? { ReadsFirst(Decode(b).rest, ending); }
  }

  /** One read in terms of the whole parse. */
  lemma ReadsFirst(b: seq<Byte>, ending: Ending)
    ensures var fs, (r, rest) := ParseAll(b).frames, ReadSpec(b, ending);
            && (|fs| == 0 ==> r == Failed(FinalReason(ParseAll(b), ending)))
            && (|fs| > 0 ==>
                  && Decode(b) == Ok(fs[0], rest) && r == Got(fs[0]) && fs[1..] == ParseAll(rest).frames
                  && FinalReason(ParseAll(rest), ending) == FinalReason(ParseAll(b), ending))
  {
    hide Decode;
    if Decode(b).Ok? { ParseOk(b, Decode(b).frame, Decode(b).rest); } else { ParseErr(b); }
  }

  /** Why a frame is not the reply that was waited for, if it is not. */
  function Refusal(f: Frame, expected: u16, bodies: Bodies): Option<HandshakeError> {
    if f.opcode == 0x00ff then Some(if bodies.error(f.payload) then ServerError(f) else Undecodable(f))
    else if f.opcode != expected then Some(Unexpected(expected, f.opcode))
    else None
  }

  /** And which refusal every other stream gets, in the order the handshake meets them: a stream that ends
      or breaks before the frame, an ERROR or another opcode, a body that does not decode, a version
      that was not offered. */
  lemma RefusesBecause(b: seq<Byte>, ending: Ending, bodies: Bodies, offered: seq<Byte>)
    ensures var h, fs := HandshakeSpec(b, ending, bodies, offered).0, ParseAll(b).frames;
            var final := FinalReason(ParseAll(b), ending);
            && (|fs| == 0 ==> h == NotConnected(Transport(final)))
            && (|fs| > 0 && Refusal(fs[0], 0x0081, bodies).Some? ==>
                  h == NotConnected(Refusal(fs[0], 0x0081, bodies).value))
            && (|fs| > 0 && fs[0].opcode == 0x0081 && bodies.chosen(fs[0].payload).None? ==>
                  h == NotConnected(Undecodable(fs[0])))
            && (|fs| > 0 && fs[0].opcode == 0x0081 && bodies.chosen(fs[0].payload).Some?
                && bodies.chosen(fs[0].payload).value !in offered ==>
                  h == NotConnected(VersionMismatch(fs[0])))
            && (|fs| == 1 && Welcomes(fs[0], bodies, offered) ==> h == NotConnected(Transport(final)))
            && (|fs| > 1 && Welcomes(fs[0], bodies, offered) && Refusal(fs[1], 0x0082, bodies).Some? ==>
                  h == NotConnected(Refusal(fs[1], 0x0082, bodies).value))
            && (|fs| > 1 && Welcomes(fs[0], bodies, offered) && fs[1].opcode == 0x0082 && !bodies.authOk(fs[1].payload) ==>
                  h == NotConnected(Undecodable(fs[1])))
  {
    hide Decode, ParseAll;
    ReadsFirst(b, ending);
    if Decode(b).Ok? { ReadsFirst(Decode(b).rest, ending); }
  }

  /** The seam: for every split of the inbound bytes, the handshake's frames followed by the
      reader task's are the stream's frames, and the verdict is the stream's. */
  method Run(stream: Stream, bodies: Bodies, offered: seq<Byte>)
    returns (h: Handshake, frames: seq<Frame>, reason: ReadError)
    modifies stream
    ensures h == HandshakeSpec(old(stream.left), stream.ending, bodies, offered).0
    ensures h.Connected? ==>
              && [h.welcome, h.authOk] + frames == ParseAll(old(stream.left)).frames
              && reason == FinalReason(ParseAll(old(stream.left)), stream.ending)
  {
    hide Decode, ParseAll, HandshakeSpec;
    HandshakeIsPrefix(stream.left, stream.ending, bodies, offered);
    var reader;
    h, reader := DoHandshake(stream, bodies, offered);
    frames, reason := [], Closed;
    if h.Connected? {
      frames, reason := ReadAll(reader);
    }
  }
}
