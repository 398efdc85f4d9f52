/**
 The TypeScript connection's `data` pump: one growing buffer per chunk, a read offset that
 advances frame by frame, one compaction at the end.
 */
module FramePump {
  import opened Bytes
  import opened Wrappers
  import opened FrameCodec
  import opened FrameStream

  const OP_SERVER_PING: u16 := 0x0091

  /** `routed` are the frames offered to the route table while it could have routes, and
      `answered` the SERVER_PING frames replied to. */
  datatype PumpState = PumpState(buf: seq<Byte>, routed: seq<Frame>, answered: seq<Frame>, closed: bool)

  const EMPTY := PumpState([], [], [], false)

  function Select(fs: seq<Frame>, pings: bool): seq<Frame> {
    if |fs| == 0 then []
    else if (fs[0].opcode == OP_SERVER_PING) == pings then [fs[0]] + Select(fs[1..], pings)
    else Select(fs[1..], pings)
  }

  lemma {:induction false} SelectAppend(a: seq<Frame>, b: seq<Frame>, pings: bool)
    ensures Select(a + b, pings) == Select(a, pings) + Select(b, pings)
  {
    if |a| == 0 {
      assert a + b == b;
    } else {
      assert (a + b)[1..] == a[1..] + b;
      SelectAppend(a[1..], b, pings);
    }
  }

  lemma SelectEmpty()
    ensures Select([], false) == [] && Select([], true) == []
  {}

  lemma SelectOne()
    ensures forall f: Frame, pings :: Select([f], pings) == if (f.opcode == OP_SERVER_PING) == pings then [f] else []
  {}

  /** What one `data` event must do, in terms of the ideal parse of the merged buffer. */
  function PumpStep(s: PumpState, chunk: seq<Byte>): PumpState {
    var p := ParseAll(s.buf + chunk);
    PumpState(if p.fatal.Some? then s.buf + chunk else p.rest,
              s.routed + (if s.closed then [] else Select(p.frames, false)),
              s.answered + Select(p.frames, true),
              s.closed || p.fatal.Some?)
  }

  class Pump {
    var buf: seq<Byte>
    var routed: seq<Frame>
    var answered: seq<Frame>
    var closed: bool

    constructor ()
      ensures View() == EMPTY
    {
      buf, routed, answered, closed := [], [], [], false;
    }

    function View(): PumpState
      reads this
    {
      PumpState(buf, routed, answered, closed)
    }

    /** Fail every route: the table stays empty from here on. */
    method FailAll()
      modifies this
      ensures View() == old(View()).(closed := true)
    {
      closed := true;
    }

    method OnData(chunk: seq<Byte>)
      modifies this
      ensures View() == PumpStep(old(View()), chunk)
    {
      hide Decode, ParseAll, Select;
      SelectEmpty();
      SelectOne();
      buf := buf + chunk;
      ghost var all := ParseAll(buf);
      ghost var done: seq<Frame> := [];
      var offset := 0;
      while true
        invariant 0 <= offset <= |buf| && buf == old(buf) + chunk && closed == old(closed)
        invariant all.frames == done + ParseAll(buf[offset..]).frames
        invariant all.rest == ParseAll(buf[offset..]).rest && all.fatal == ParseAll(buf[offset..]).fatal
        invariant routed == old(routed) + (if closed then [] else Select(done, false))
        invariant answered == old(answered) + Select(done, true)
        decreases |buf| - offset
      {
        var d := Decode(buf[offset..]);
        if d.Err? {
          ParseErr(buf[offset..]);
          assert done == all.frames;
          if d.error.Truncated? { break; }
          FailAll();
          return;
        }
        ParseOk(buf[offset..], d.frame, d.rest);
        DecodeTail(buf[offset..]);
        SelectAppend(done, [d.frame], true);
        SelectAppend(done, [d.frame], false);
        offset := offset + (|buf| - offset - |d.rest|);
        assert buf[offset..] == d.rest;
        if d.frame.opcode == OP_SERVER_PING {
          answered := answered + [d.frame];
        } else if !closed {
          routed := routed + [d.frame];
        }
        done := done + [d.frame];
      }
      buf := if offset == 0 then buf else buf[offset..];
    }
  }

  // ---- whole runs ----

  datatype Event = Chunk(bytes: seq<Byte>) | SocketFailed

  function Step(s: PumpState, e: Event): PumpState {
    match e
    case Chunk(c) => PumpStep(s, c)
    case SocketFailed => s.(closed := true)
  }

  function Run(es: seq<Event>): PumpState {
    if |es| == 0 then EMPTY else Step(Run(es[..|es| - 1]), es[|es| - 1])
  }

  /** The bytes that arrived before the socket failed. */
  function Data(es: seq<Event>): seq<Byte> {
    if |es| == 0 then []
    else
      var d := Data(es[..|es| - 1]);
      if es[|es| - 1].Chunk? && SocketFailed !in es[..|es| - 1] then d + es[|es| - 1].bytes else d
  }

  ghost predicate Explained(s: PumpState, p: Parsed, failed: bool) {
    && s.routed == Select(p.frames, false)
    && (s.closed <==> p.fatal.Some? || failed)
    && (!s.closed ==> s.buf == p.rest && s.answered == Select(p.frames, true))
  }

  lemma ChunkExplained(s: PumpState, d: seq<Byte>, c: seq<Byte>)
    requires Explained(s, ParseAll(d), false)
    ensures Explained(PumpStep(s, c), ParseAll(d + c), false)
  {
    hide ParseAll, Select;
    var p := ParseAll(d);
    ParseAppend(d, c);
    var q := ParseAll(p.rest + c);
    SelectAppend(p.frames, q.frames, false);
    SelectAppend(p.frames, q.frames, true);
  }

  /** Whatever the chunks, what reaches the routes is the ideal parse of the concatenated
      bytes: all its frames but the heartbeats, in order, and nothing after a fatal error. */
  lemma {:induction false} RoutedIsParse(es: seq<Event>)
    ensures Explained(Run(es), ParseAll(Data(es)), SocketFailed in es)
  {
    hide ParseAll, Select;
    if |es| == 0 {
      EmptyParse();
      assert Select([], false) == [] && Select([], true) == [] by { SelectEmpty(); }
    } else {
      var e, before := es[|es| - 1], es[..|es| - 1];
      RoutedIsParse(before);
      assert es == before + [e];
      if e.Chunk? && SocketFailed !in before {
        ChunkExplained(Run(before), Data(before), e.bytes);
      }
    }
  }

  /** Frames that were sent arrive: whatever the chunks, every one that is not a heartbeat is routed, and
      every heartbeat answered, in order and once. */
  lemma RoutesWhatWasSent(es: seq<Event>, fs: seq<Frame>)
    requires Sendable(fs) && Data(es) == WireOf(fs) && SocketFailed !in es
    ensures Run(es) == PumpState([], Select(fs, false), Select(fs, true), false)
    ensures (forall f <- fs :: f.opcode != 0x0091) ==> Run(es).routed == fs
  {
    hide ParseAll, Select, Run, Sendable;
    RoutedIsParse(es);
    ParseWire(fs, []);
    EmptyParse();
    assert WireOf(fs) + [] == WireOf(fs) && fs + [] == fs;
    if forall f <- fs :: f.opcode != 0x0091 { SelectsAll(fs); }
  }

  lemma {:induction false} SelectsAll(fs: seq<Frame>)
    requires forall f <- fs :: f.opcode != 0x0091
    ensures Select(fs, false) == fs && Select(fs, true) == []
  {
    if fs != [] {
      SelectsAll(fs[1..]);
      assert fs == [fs[0]] + fs[1..];
    }
  }

  /** So two runs that saw the same bytes routed the same frames and agree on being closed. */
  lemma ChunkIndependence(es: seq<Event>, fs: seq<Event>)
    requires Data(es) == Data(fs) && (SocketFailed in es <==> SocketFailed in fs)
    ensures Run(es).routed == Run(fs).routed && Run(es).closed == Run(fs).closed
    ensures !Run(es).closed ==> Run(es) == Run(fs)
  {
    RoutedIsParse(es);
    RoutedIsParse(fs);
  }

  // ---- heartbeats after a fatal error ----

  function Repeat(x: seq<Frame>, n: nat): (r: seq<Frame>)
    ensures |r| == n * |x|
  {
    if n == 0 then [] else Repeat(x, n - 1) + x
  }

  ghost predicate AllChunks(es: seq<Event>) {
    forall i :: 0 <= i < |es| ==> es[i].Chunk?
  }

  lemma RunPush(es: seq<Event>, e: Event)
    ensures Run(es + [e]) == Step(Run(es), e)
  {
    assert (es + [e])[..|es|] == es;
  }

  /** A chunk behind a buffer that already failed. */
  lemma ReplayStep(s: PumpState, c: seq<Byte>)
    requires ParseAll(s.buf).fatal.Some?
    ensures var t := PumpStep(s, c);
            && t.answered == s.answered + Select(ParseAll(s.buf).frames, true)
            && ParseAll(t.buf).frames == ParseAll(s.buf).frames && ParseAll(t.buf).fatal == ParseAll(s.buf).fatal
  {
    hide ParseAll, Select;
    ParseAppend(s.buf, c);
  }

  /** After a fatal error the buffer is not compacted, so every later chunk decodes the frames
      in front of the bad bytes again and answers their heartbeats again. */
  lemma {:induction false} HeartbeatsReplayed(es: seq<Event>, c: seq<Byte>, later: seq<Event>)
    requires AllChunks(es) && AllChunks(later) && !Run(es).closed && Run(es + [Chunk(c)]).closed
    ensures var last := ParseAll(Run(es).buf + c);
            var s := Run(es + [Chunk(c)] + later);
            && last.fatal.Some?
            && s.answered == Select(ParseAll(Data(es) + c).frames, true)
                             + Repeat(Select(last.frames, true), |later|)
            && ParseAll(s.buf).frames == last.frames && ParseAll(s.buf).fatal == last.fatal
    decreases |later|
  {
    hide ParseAll, Select;
    var first := es + [Chunk(c)];
    assert first[..|first| - 1] == es;
    if |later| == 0 {
      RoutedIsParse(es);
      var p := ParseAll(Data(es));
      ParseAppend(Data(es), c);
      SelectAppend(p.frames, ParseAll(p.rest + c).frames, true);
      assert first + later == first;
    } else {
      var n := |later| - 1;
      HeartbeatsReplayed(es, c, later[..n]);
      RunPush(first + later[..n], later[n]);
      assert first + later == first + later[..n] + [later[n]];
      ReplayStep(Run(first + later[..n]), later[n].bytes);
      hide Run;
    }
  }

  /** Each heartbeat is answered exactly once when no chunk follows the fatal one, or the
      buffer that failed held no heartbeat; and only then. */
  lemma AnsweredOnceIff(es: seq<Event>, c: seq<Byte>, later: seq<Event>)
    requires AllChunks(es) && AllChunks(later) && !Run(es).closed && Run(es + [Chunk(c)]).closed
    ensures Run(es + [Chunk(c)] + later).answered == Select(ParseAll(Data(es) + c).frames, true)
            <==> later == [] || Select(ParseAll(Run(es).buf + c).frames, true) == []
  {
    hide ParseAll, Select;
    HeartbeatsReplayed(es, c, later);
    var once, again := Select(ParseAll(Data(es) + c).frames, true),
                       Select(ParseAll(Run(es).buf + c).frames, true);
    if later != [] && again != [] {
      assert |Repeat(again, |later|)| == |later| * |again| > 0;
      assert |once + Repeat(again, |later|)| > |once|;
    } else {
      assert Repeat(again, |later|) == [];
      assert once + [] == once;
    }
  }

  lemma ZerosAreBad()
    ensures Decode(Zeros(32)) == Err(BadMagic)
  {
    assert Zeros(32)[..4][0] != MAGIC[0];
  }

  lemma PingThenGarbage(ping: Frame)
    requires ping.Fits() && ping.FlagsDefined()
    ensures ParseAll(EncodeBytes(ping) + Zeros(32)) == Parsed([ping], Zeros(32), Some(BadMagic))
  {
    hide Decode, EncodeBytes, Zeros;
    ZerosAreBad();
    ParseErr(Zeros(32));
    DecodeEncoded(ping, Zeros(32));
    ParseOk(EncodeBytes(ping) + Zeros(32), ping, Zeros(32));
  }

  /** An input on which a heartbeat is answered twice: a chunk with one SERVER_PING and a bad
      header, then one more chunk. */
  lemma AnsweredTwice(ping: Frame, c: seq<Byte>)
    requires ping.Fits() && ping.FlagsDefined() && ping.opcode == OP_SERVER_PING
    ensures Run([Chunk(EncodeBytes(ping) + Zeros(32)), Chunk(c)]).answered == [ping, ping]
  {
    hide ParseAll, Select, Decode, EncodeBytes, Zeros;
    var bad := EncodeBytes(ping) + Zeros(32);
    PingThenGarbage(ping);
    SelectOne();
    var es: seq<Event> := [];
    assert Run(es) == EMPTY && Data(es) == [];
    assert EMPTY.buf + bad == bad && Data(es) + bad == bad;
    assert (es + [Chunk(bad)])[..0] == es;
    HeartbeatsReplayed(es, bad, [Chunk(c)]);
    assert [Chunk(bad), Chunk(c)] == es + [Chunk(bad)] + [Chunk(c)];
    assert Repeat([ping], 1) == Repeat([ping], 0) + [ping];
  }
}
