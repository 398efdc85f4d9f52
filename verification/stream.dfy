/**
 The byte stream as frames.

 `ParseAll` is the ideal reading of a whole stream: decode until the bytes run out or do
 not decode.  The pull readers below (Rust and Python) compute it from a socket that may
 split the bytes anywhere.
 */
module FrameStream {
  import opened Bytes
  import opened Wrappers
  import opened FrameCodec
  import opened FrameErrors

  /** Frames in order, the bytes left over, and the error if those bytes are not just short. */
  datatype Parsed = Parsed(frames: seq<Frame>, rest: seq<Byte>, fatal: Option<FrameError>)

  lemma DecodeShrinks(b: seq<Byte>)
    ensures Decode(b).Ok? ==> |Decode(b).rest| < |b|
  {}

  function ParseAll(b: seq<Byte>): Parsed
    decreases |b|
  {
    DecodeShrinks(b);
    match Decode(b)
    case Ok(f, rest) =>
      var p := ParseAll(rest);
      Parsed([f] + p.frames, p.rest, p.fatal)
    case Err(e) =>
      Parsed([], b, if e.Truncated? then None else Some(e))
  }

  lemma ParseOk(b: seq<Byte>, f: Frame, rest: seq<Byte>)
    requires Decode(b) == Ok(f, rest)
    ensures |rest| < |b|
    ensures ParseAll(b) == Parsed([f] + ParseAll(rest).frames, ParseAll(rest).rest, ParseAll(rest).fatal)
  {
    DecodeShrinks(b);
  }

  lemma ParseErr(b: seq<Byte>)
    requires Decode(b).Err?
    ensures ParseAll(b) == Parsed([], b, if Decode(b).error.Truncated? then None else Some(Decode(b).error))
  {}

  lemma EmptyParse()
    ensures ParseAll([]) == Parsed([], [], None)
  {}

  /** The frames' encodings, one after another. */
  function WireOf(fs: seq<Frame>): seq<Byte> {
    if |fs| == 0 then [] else EncodeBytes(fs[0]) + WireOf(fs[1..])
  }

  ghost predicate Sendable(fs: seq<Frame>) {
    forall i :: 0 <= i < |fs| ==> fs[i].Fits() && fs[i].FlagsDefined()
  }

  lemma OneMoreFrame(f: Frame, fs: seq<Frame>, t: seq<Byte>)
    requires Sendable(fs) && f.Fits() && f.FlagsDefined()
    ensures Sendable([f] + fs) && WireOf([f] + fs) + t == EncodeBytes(f) + (WireOf(fs) + t)
  {
    hide EncodeBytes;
    assert ([f] + fs)[1..] == fs;
  }

  lemma NothingToSend()
    ensures Sendable([])
  {}

  /** Parsing loses nothing: the stream is the frames' encodings and the bytes left over. */
  lemma {:induction false} ParseSound(b: seq<Byte>)
    ensures var p := ParseAll(b);
            && Sendable(p.frames) && b == WireOf(p.frames) + p.rest
            && Decode(p.rest).Err?
            && (p.fatal.None? ==> Decode(p.rest).error.Truncated?)
            && (p.fatal.Some? ==> Decode(p.rest) == Err(p.fatal.value) && !p.fatal.value.Truncated?)
    decreases |b|
  {
    hide Decode, EncodeBytes, ParseAll, Sendable;
    if Decode(b).Ok? {
      var f, rest := Decode(b).frame, Decode(b).rest;
      ParseOk(b, f, rest);
      EncodeDecoded(b);
      ParseSound(rest);
      OneMoreFrame(f, ParseAll(rest).frames, ParseAll(rest).rest);
    } else {
      ParseErr(b);
      assert Sendable([]) by { NothingToSend(); }
      assert WireOf([]) + b == b;
    }
  }

  /** Reading can stop anywhere and go on when more bytes are there. */
  lemma {:induction false} ParseAppend(a: seq<Byte>, t: seq<Byte>)
    ensures var p := ParseAll(a);
            var q := ParseAll(p.rest + t);
            ParseAll(a + t) ==
            if p.fatal.Some? then Parsed(p.frames, p.rest + t, p.fatal)
            else Parsed(p.frames + q.frames, q.rest, q.fatal)
    decreases |a|
  {
    hide Decode;
    DecodeAppend(a, t);
    if Decode(a).Ok? {
      var f, rest := Decode(a).frame, Decode(a).rest;
      ParseOk(a, f, rest);
      ParseOk(a + t, f, rest + t);
      ParseAppend(rest, t);
    }
  }

  /** A stream of encoded frames parses to the frames, then goes on with what follows. */
  lemma {:induction false} ParseWire(fs: seq<Frame>, t: seq<Byte>)
    requires Sendable(fs)
    ensures var q := ParseAll(t);
            ParseAll(WireOf(fs) + t) == Parsed(fs + q.frames, q.rest, q.fatal)
  {
    hide Decode, EncodeBytes, ParseAll, Frame.Fits, Frame.FlagsDefined;
    if |fs| == 0 {
      assert WireOf(fs) + t == t;
      assert fs + ParseAll(t).frames == ParseAll(t).frames;
    } else {
      var u := WireOf(fs[1..]) + t;
      DecodeEncoded(fs[0], u);
      assert WireOf(fs) + t == EncodeBytes(fs[0]) + u;
      ParseOk(WireOf(fs) + t, fs[0], u);
      ParseWire(fs[1..], t);
      assert fs == [fs[0]] + fs[1..];
    }
  }

  /** A write that stopped part way through a frame leaves a stream that still parses to
      the frames before it, with no error. */
  lemma ParseTornWrite(fs: seq<Frame>, f: Frame, n: nat)
    requires Sendable(fs) && f.Fits() && f.FlagsDefined() && n < |EncodeBytes(f)|
    ensures ParseAll(WireOf(fs) + EncodeBytes(f)[..n]) == Parsed(fs, EncodeBytes(f)[..n], None)
  {
    hide Decode, EncodeBytes;
    ParseWire(fs, EncodeBytes(f)[..n]);
    PrefixTruncated(f, n);
  }

  lemma {:induction false} WireAppend(a: seq<Frame>, b: seq<Frame>)
    ensures WireOf(a + b) == WireOf(a) + WireOf(b)
  {
    hide EncodeBytes;
    if |a| == 0 {
      assert a + b == b;
    } else {
      assert (a + b)[1..] == a[1..] + b;
      WireAppend(a[1..], b);
    }
  }

  lemma CorruptedNotShort(i: nat, v: Byte)
    ensures !Refusal(i, v).Truncated?
  {}

  /** One corrupted byte in a stream of frames: exactly the frames before the damaged one are
      read, and then the stream fails.  Nothing wrong is ever delivered. */
  lemma CorruptedStream(before: seq<Frame>, f: Frame, after: seq<Byte>, i: nat, v: Byte)
    requires Sendable(before) && f.Fits() && f.FlagsDefined()
    requires i < |EncodeBytes(f)| && v != EncodeBytes(f)[i]
    ensures var p := ParseAll(WireOf(before) + EncodeBytes(f)[i := v] + after);
            p.frames == before && p.fatal == Some(Refusal(i, v))
  {
    hide Decode, EncodeBytes, Refusal, Frame.Fits, Frame.FlagsDefined;
    var t := EncodeBytes(f)[i := v] + after;
    assert !Refusal(i, v).Truncated? by { CorruptedNotShort(i, v); }
    ParseWire(before, t);
    CorruptedByte(f, after, i, v);
    assert WireOf(before) + EncodeBytes(f)[i := v] + after == WireOf(before) + t;
  }

  // ---- a socket ----

  const READ_CHUNK: nat := 16 * 1024

  /** How the peer's byte stream ends. */
  datatype Ending = Eof | IoError

  datatype ReadError = Codec(error: FrameError) | Closed | Io

  datatype ReadResult = Got(frame: Frame) | Failed(reason: ReadError)

  function EndError(ending: Ending): ReadError {
    if ending.Eof? then Closed else Io
  }

  /** A byte stream that hands out what is left of it in pieces of its own choosing. */
  class Stream {
    var left: seq<Byte>
    const ending: Ending

    constructor (left: seq<Byte>, ending: Ending)
      ensures this.left == left && this.ending == ending
    {
      this.left, this.ending := left, ending;
    }

    /** `None` is an I/O error; `Some([])` is end of stream; any other piece is non-empty. */
    method Read(max: nat) returns (r: Option<seq<Byte>>)
      requires max > 0
      modifies this
      ensures r.Some? ==> old(left) == r.value + left && |r.value| <= max
      ensures r.Some? && r.value == [] ==> left == [] && ending.Eof?
      ensures r.None? ==> old(left) == left == [] && ending.IoError?
    {
      if left == [] {
        return if ending.Eof? then Some([]) else None;
      }
      var n: nat :| 1 <= n <= |left| && n <= max;
      r := Some(left[..n]);
      left := left[n..];
    }
  }

  /** What one `read_frame` must return, and what it must leave to read, given everything
      still to come. */
  function ReadSpec(b: seq<Byte>, ending: Ending): (ReadResult, seq<Byte>) {
    match Decode(b)
    case Ok(f, rest) => (Got(f), rest)
    case Err(e) => (Failed(if e.Truncated? then EndError(ending) else Codec(e)), b)
  }

  /** A stream too short for a frame ends as the peer ended it: closed at end of stream, an I/O error
      otherwise, and nothing of it is used up. */
  lemma ShortStreamEnds(b: seq<Byte>, ending: Ending)
    requires ParseAll(b).frames == [] && ParseAll(b).fatal.None?
    ensures ReadSpec(b, ending) == (Failed(if ending == Eof then Closed else Io), b)
  {
    hide Decode;
    assert Decode(b).Err?;
    ParseErr(b);
  }

  /** The buffer a pull reader keeps between calls, and the stream it reads from. */
  class PullReader {
    var buf: seq<Byte>
    const stream: Stream

    constructor (buf: seq<Byte>, stream: Stream)
      ensures this.buf == buf && this.stream == stream
    {
      this.buf, this.stream := buf, stream;
    }

    /** Buffered bytes, then the bytes still in the socket. */
    function Ahead(): seq<Byte>
      reads this, stream
    {
      buf + stream.left
    }

    /** The Rust loop: decode, or extend the buffer by a zeroed chunk, read into it and cut
        it back to what arrived.  An I/O error leaves the zeroes behind what was buffered. */
    method ReadFrameRust() returns (r: ReadResult)
      modifies this, stream
      ensures r == ReadSpec(old(Ahead()), stream.ending).0
      ensures r != Failed(Io) ==> Ahead() == ReadSpec(old(Ahead()), stream.ending).1
      ensures r == Failed(Io) ==> buf == old(Ahead()) + Zeros(READ_CHUNK) && stream.left == []
    {
      hide Decode, Zeros;
      while true
        invariant Ahead() == old(Ahead())
        decreases |stream.left|
      {
        DecodeAppend(buf, stream.left);
        match Decode(buf) {
          case Ok(f, rest) =>
            DecodeTail(buf);
            var consumed := |buf| - |rest|;
            buf := buf[consumed..];
            return Got(f);
          case Err(e) =>
            if !e.Truncated? { return Failed(Codec(e)); }
        }
        ghost var held := buf;
        var start := |buf|;
        buf := buf + Zeros(READ_CHUNK);
        var got := stream.Read(READ_CHUNK);
        if got.None? {
          assert old(Ahead()) == buf[..start];
          return Failed(Io);
        }
        var n := |got.value|;
        buf := buf[..start] + got.value + buf[start + n..];
        buf := buf[..start + n];
        assert buf + stream.left == old(Ahead());
        if n == 0 {
          assert buf == held == old(Ahead());
          return Failed(Closed);
        }
      }
    }

    /** The Python loop: on a short frame receive a chunk and extend, else delete the frame. */
    method ReadFramePython() returns (r: ReadResult)
      modifies this, stream
      ensures r == ReadSpec(old(Ahead()), stream.ending).0
      ensures Ahead() == ReadSpec(old(Ahead()), stream.ending).1
    {
      hide Decode, Zeros;
      while true
        invariant Ahead() == old(Ahead())
        decreases |stream.left|
      {
        DecodeAppend(buf, stream.left);
        var d := Decode(buf);
        if d.Ok? {
          DecodeTail(buf);
          buf := buf[|buf| - |d.rest|..];
          return Got(d.frame);
        }
        if !d.error.Truncated? {
          return Failed(Codec(d.error));
        }
        var chunk := stream.Read(READ_CHUNK);
        if chunk.None? {
          assert buf == old(Ahead());
          return Failed(Io);
        }
        if chunk.value == [] {
          assert buf == old(Ahead());
          return Failed(Closed);
        }
        buf := buf + chunk.value;
        assert buf + stream.left == old(Ahead());
      }
    }
  }

  lemma DecodeTail(b: seq<Byte>)
    requires Decode(b).Ok?
    ensures |Decode(b).rest| <= |b| && b[|b| - |Decode(b).rest|..] == Decode(b).rest
  {}
}
