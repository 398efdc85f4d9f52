/** The multiplexer's two ends of the socket: what it writes, and what its answers are in bytes. */
module MuxWire {
  import opened Bytes
  import opened Wrappers
  import opened FrameCodec
  import opened FrameStream
  import opened Answers
  import opened Mux
  import opened MuxInvariant
  import opened MuxTheorems

  function FramesOf(out: seq<Sent>): (fs: seq<Frame>)
    ensures |fs| == |out|
  {
    seq(|out|, i requires 0 <= i < |out| => out[i].frame)
  }

  /** Every frame written is one whole EOS frame within the limits, belongs to the client it was
      written for, and is the only one written for it. */
  ghost predicate OutboundOk(cfg: Config, s: State) {
    && (forall i :: 0 <= i < |s.outbound| ==> SentOk(cfg, s, s.outbound[i]))
    && (forall i, j :: 0 <= i < j < |s.outbound| && s.outbound[i].sender.Some? ==>
          s.outbound[i].sender != s.outbound[j].sender)
  }

  ghost predicate SentOk(cfg: Config, s: State, x: Sent) {
    && |x.frame.payload| <= MAX_PAYLOAD_BYTES && x.frame.flags == FLAG_EOS && x.frame.Eos()
    && (x.sender.Some? ==>
          && x.sender.value in s.clients
          && (cfg.advertised == 0 || |x.frame.payload| <= cfg.advertised)
          && var c := s.clients[x.sender.value];
             x.frame.streamId == c.id && x.frame.opcode == c.opcode && x.frame.payload == c.payload)
    && (x.sender.None? ==> x.frame.streamId == HANDSHAKE_STREAM_ID && x.frame.opcode == OP_CLIENT_PONG)
  }

  /** A client's id, opcode and payload never change. */
  ghost predicate SameRequests(s: State, t: State) {
    forall r :: r in s.clients ==>
      r in t.clients && t.clients[r].id == s.clients[r].id && t.clients[r].opcode == s.clients[r].opcode
      && t.clients[r].payload == s.clients[r].payload
  }

  lemma StepKeepsRequests(cfg: Config, s: State, e: Event)
    ensures SameRequests(s, Step(cfg, s, e))
  {
    if !e.Start? {
      hide Step;
      StepKeepsIdentities(cfg, s, e);
    }
  }

  /** What a step adds to the outbound log: nothing, a client's frame, or a heartbeat reply. */
  lemma OutboundGrows(cfg: Config, s: State, e: Event)
    ensures var t := Step(cfg, s, e);
            || t.outbound == s.outbound
            || (exists x :: t.outbound == s.outbound + [x] && SentOk(cfg, t, x)
                            && (x.sender.Some? ==> x.sender.value in s.clients
                                                   && s.clients[x.sender.value].phase.Registered?))
  {
    hide DoReceive, DoCleanup, DoFail, DoTimeout, DoCancel;
    var t := Step(cfg, s, e);
    if e.Receive? || e.Cleanup? || e.ReaderFails? || e.Timeout? || e.Cancel? {
      OutboundQuiet(cfg, s, e);
    } else if t.outbound != s.outbound {
      var x := t.outbound[|s.outbound|];
      assert t.outbound == s.outbound + [x] && SentOk(cfg, t, x);
    }
  }

  lemma OutboundQuiet(cfg: Config, s: State, e: Event)
    requires e.Receive? || e.Cleanup? || e.ReaderFails? || e.Timeout? || e.Cancel?
    ensures Step(cfg, s, e).outbound == s.outbound
  {}

  lemma StepKeepsOutbound(cfg: Config, s: State, e: Event)
    requires OutboundOk(cfg, s) && Basic(s)
    ensures OutboundOk(cfg, Step(cfg, s, e))
  {
    hide Step;
    var t := Step(cfg, s, e);
    StepKeepsRequests(cfg, s, e);
    OutboundGrows(cfg, s, e);
    forall i | 0 <= i < |s.outbound|
      ensures SentOk(cfg, t, s.outbound[i])
    {
      assert SentOk(cfg, s, s.outbound[i]);
    }
  }

  lemma {:induction false} RunKeepsOutbound(cfg: Config, es: seq<Event>)
    ensures OutboundOk(cfg, Run(cfg, es))
    decreases |es|
  {
    hide Step;
    if |es| > 0 {
      var before := es[..|es| - 1];
      RunKeepsOutbound(cfg, before);
      RunKeepsBasic(cfg, before);
      StepKeepsOutbound(cfg, Run(cfg, before), es[|es| - 1]);
    }
  }

  /** For every interleaving of writers and heartbeat replies, the peer decodes the outbound
      bytes to exactly the frames written, in the order the lock was taken; each request frame carries
      its own client's id, opcode and payload, is the only one of that client, and exceeds neither
      the negotiated limit nor the structural one. */
  lemma OutboundDecodes(cfg: Config, es: seq<Event>)
    ensures var out := Run(cfg, es).outbound;
            && ParseAll(WireOf(FramesOf(out))) == Parsed(FramesOf(out), [], None)
            && (forall i :: 0 <= i < |out| ==> SentOk(cfg, Run(cfg, es), out[i]))
            && (forall i, j :: 0 <= i < j < |out| && out[i].sender.Some? ==> out[i].sender != out[j].sender)
  {
    hide Run, ParseAll, EncodeBytes;
    RunKeepsOutbound(cfg, es);
    var out := Run(cfg, es).outbound;
    var fs := FramesOf(out);
    forall i | 0 <= i < |fs|
      ensures fs[i].Fits() && fs[i].FlagsDefined()
    {
      assert SentOk(cfg, Run(cfg, es), out[i]);
    }
    ParseWire(fs, []);
    EmptyParse();
    assert WireOf(fs) + [] == WireOf(fs) && fs + ParseAll([]).frames == fs;
  }

  // ---- inbound ----

  function Failed(es: seq<Event>): bool { exists i :: 0 <= i < |es| && es[i].ReaderFails? }

  /** The frames the reader delivered before it failed. */
  function Delivered(es: seq<Event>): seq<Frame> {
    if |es| == 0 then []
    else
      var e, before := es[|es| - 1], es[..|es| - 1];
      if e.Deliver? && !Failed(before) then Delivered(before) + [e.frame] else Delivered(before)
  }

  lemma LogStep(cfg: Config, s: State, e: Event)
    ensures var t := Step(cfg, s, e);
            && t.inbound == (if e.Deliver? && s.closed.None? then s.inbound + [e.frame] else s.inbound)
            && (t.closed.Some? <==> s.closed.Some? || e.ReaderFails?)
  {}

  lemma {:induction false} InboundIsDelivered(cfg: Config, es: seq<Event>)
    ensures Run(cfg, es).inbound == Delivered(es)
    ensures Run(cfg, es).closed.Some? <==> Failed(es)
    decreases |es|
  {
    hide Step;
    if |es| > 0 {
      var before, e := es[..|es| - 1], es[|es| - 1];
      InboundIsDelivered(cfg, before);
      LogStep(cfg, Run(cfg, before), e);
      assert forall i :: 0 <= i < |before| ==> before[i] == es[i];
      assert Failed(es) <==> Failed(before) || e.ReaderFails?;
    }
  }

  /** From bytes to responses: in every run in which the reader delivered the ideal parse of the inbound
      bytes, a returned response is read off that parse. */
  lemma ResponseFromBytes(cfg: Config, es: seq<Event>, b: seq<Byte>, r: ClientId, fs: seq<Frame>)
    requires Delivered(es) == ParseAll(b).frames
    requires r in Run(cfg, es).clients && Run(cfg, es).clients[r].phase == Done(Frames(fs))
    ensures var c := Run(cfg, es).clients[r];
            c.since <= |ParseAll(b).frames|
            && var stream := OnStream(ParseAll(b).frames[c.since..], c.id);
               HasEos(stream) && fs == Cut(stream) && !HasError(fs)
  {
    hide Run, ParseAll, OnStream, HasEos, HasError, Cut;
    InboundIsDelivered(cfg, es);
    ResponseIsTheStream(cfg, es, r, fs);
    RunKeeps(cfg, es);
    InvClient(cfg, Run(cfg, es), r);
  }
}
