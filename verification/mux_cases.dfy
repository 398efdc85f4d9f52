/**
 Runs in which a request gets less than its own stream would have given it, because another one on
 the same id was in the way.
 */
module MuxCases {
  import opened Bytes
  import opened Wrappers
  import opened FrameCodec
  import opened Answers
  import opened Mux
  import opened MuxRoutes

  const PING: u16 := 0x0010

  /** Two pings, the second started before the first is answered. */
  const BOTH: seq<Event> := [Start(0, ConnectionRequest, PING, []), Register(0), Write(0, true),
                             Start(1, ConnectionRequest, PING, []), Register(1), Write(1, true)]

  function Waiter(queue: seq<Frame>): Client {
    Client(ConnectionRequest, HANDSHAKE_STREAM_ID, None, PING, [], Waiting, 0, queue, [], false)
  }

  function Ping(r: ClientId): Sent { Sent(Some(r), Frame(PING, FLAG_EOS, HANDSHAKE_STREAM_ID, [])) }

  function BothWait(): State {
    State(1, 0, map[HANDSHAKE_STREAM_ID := 1], None, map[0 := Waiter([]), 1 := Waiter([])], [], [Ping(0), Ping(1)])
  }

  function RunFrom(cfg: Config, s: State, es: seq<Event>): State
    decreases |es|
  {
    if |es| == 0 then s else RunFrom(cfg, Step(cfg, s, es[0]), es[1..])
  }

  lemma {:induction false} RunFromIsRun(cfg: Config, a: seq<Event>, b: seq<Event>)
    ensures Run(cfg, a + b) == RunFrom(cfg, Run(cfg, a), b)
    decreases |b|
  {
    hide Step;
    if |b| == 0 {
      assert a + b == a;
    } else {
      assert a + b == (a + [b[0]]) + b[1..];
      RunPush(cfg, a, b[0]);
      RunFromIsRun(cfg, a + [b[0]], b[1..]);
    }
  }

  /** The steps of one request that gets as far as waiting. */
  lemma OnePing(cfg: Config, s: State, r: ClientId)
    requires r !in s.clients && s.closed.None? && s.inbound == []
    ensures RunFrom(cfg, s, [Start(r, ConnectionRequest, PING, []), Register(r), Write(r, true)]) ==
            s.(routes := s.routes[HANDSHAKE_STREAM_ID := r], clients := s.clients[r := Waiter([])],
               outbound := s.outbound + [Ping(r)])
  {
    var es := [Start(r, ConnectionRequest, PING, []), Register(r), Write(r, true)];
    assert es[1..] == [Register(r), Write(r, true)] && es[1..][1..] == [Write(r, true)] && es[1..][1..][1..] == [];
    var s1 := Step(cfg, s, es[0]);
    var s2 := Step(cfg, s1, Register(r));
    var s3 := Step(cfg, s2, Write(r, true));
    assert RunFrom(cfg, s, es) == RunFrom(cfg, s1, es[1..]) == RunFrom(cfg, s2, es[1..][1..]) == s3;
  }

  lemma BothStarted(cfg: Config)
    ensures Run(cfg, BOTH) == BothWait()
  {
    hide RunFrom, Step;
    var one := [Start(0, ConnectionRequest, PING, []), Register(0), Write(0, true)];
    var two := [Start(1, ConnectionRequest, PING, []), Register(1), Write(1, true)];
    assert [] + one == one && one + two == BOTH;
    assert Run(cfg, []) == INITIAL;
    RunFromIsRun(cfg, [], one);
    OnePing(cfg, INITIAL, 0);
    RunFromIsRun(cfg, one, two);
    OnePing(cfg, Run(cfg, one), 1);
    assert [] + [Ping(0)] + [Ping(1)] == [Ping(0), Ping(1)];
  }

  predicate IsReply(f: Frame) {
    f.streamId == HANDSHAKE_STREAM_ID && f.Eos() && f.opcode != OP_SERVER_PING && f.opcode != OP_ERROR
  }

  /** The second ping takes the first one's route, and with it the one reply that came after both.  The
      first Rust ping is told the connection closed, on a connection that is open; the first Python
      or TypeScript ping waits on. */
  lemma OverlappingPings(cfg: Config, reply: Frame)
    requires IsReply(reply)
    ensures var s := Run(cfg, BOTH + [Deliver(reply, None)] + [Receive(0)] + [Receive(1)]);
            && s.closed.None? && 0 in s.clients && 1 in s.clients
            && s.clients[0].phase == (if cfg.mode.Eager? then Closing(ConnClosed(None)) else Waiting)
            && s.clients[1].phase == Closing(Frames([reply]))
  {
    BothStarted(cfg);
    RunPush(cfg, BOTH, Deliver(reply, None));
    RunPush(cfg, BOTH + [Deliver(reply, None)], Receive(0));
    RunPush(cfg, BOTH + [Deliver(reply, None)] + [Receive(0)], Receive(1));
    hide Run;
    var s1 := Step(cfg, BothWait(), Deliver(reply, None));
    assert s1.clients[0] == Waiter([]) && s1.clients[1] == Waiter([reply]);
    var s2 := Step(cfg, s1, Receive(0));
    assert s2.clients[1] == Waiter([reply]);
    assert [] + [reply] == [reply];
  }

  /** The first ping's timeout removes the second one's route, so the second reply is dropped although
      its request still waits for it: Rust tells that request the connection closed, and Python and
      TypeScript let it wait. */
  lemma TimeoutTakesRoute(cfg: Config, reply: Frame)
    requires IsReply(reply)
    ensures var s := Run(cfg, BOTH + [Timeout(0)] + [Cleanup(0)] + [Deliver(reply, None)] + [Receive(1)]);
            && s.closed.None? && s.inbound == [reply] && 1 in s.clients
            && s.clients[1].phase == (if cfg.mode.Eager? then Closing(ConnClosed(None)) else Waiting)
            && s.clients[1].queue == [] && s.clients[1].got == []
  {
    BothStarted(cfg);
    RunPush(cfg, BOTH, Timeout(0));
    RunPush(cfg, BOTH + [Timeout(0)], Cleanup(0));
    RunPush(cfg, BOTH + [Timeout(0)] + [Cleanup(0)], Deliver(reply, None));
    RunPush(cfg, BOTH + [Timeout(0)] + [Cleanup(0)] + [Deliver(reply, None)], Receive(1));
    hide Run;
    var s1 := Step(cfg, BothWait(), Timeout(0));
    assert s1.clients[1] == Waiter([]) && s1.clients[0].phase == Closing(TimedOut);
    var s2 := Step(cfg, s1, Cleanup(0));
    assert s2.clients[1] == Waiter([]) && s2.routes == map[];
    var s3 := Step(cfg, s2, Deliver(reply, None));
    assert s3.clients[1] == Waiter([]) && s3.routes == map[] && [] + [reply] == [reply];
  }

  /** A request dropped while it waits: in Rust its route stays, in Python and TypeScript `finally`
      removes it. */
  lemma DroppedFuture(cfg: Config)
    ensures var s := Run(cfg, BOTH + [Cancel(1)] + [Cleanup(1)]);
            && s.closed.None? && 1 in s.clients && s.clients[1].phase == Done(Abandoned(false))
            && (s.Routed(1) <==> cfg.mode.Eager?)
  {
    BothStarted(cfg);
    RunPush(cfg, BOTH, Cancel(1));
    RunPush(cfg, BOTH + [Cancel(1)], Cleanup(1));
    hide Run;
    var s1 := Step(cfg, BothWait(), Cancel(1));
    assert s1.clients[1].phase == Closing(Abandoned(false)) && s1.routes == map[HANDSHAKE_STREAM_ID := 1];
  }

  /** And the same request dropped and then overtaken has no route, with the connection open and its
      stream not ended: why `MuxTheorems.DroppedFutureIff` needs its last condition. */
  lemma DroppedThenOvertaken(cfg: Config)
    requires cfg.mode.Eager?
    ensures var s := Run(cfg, BOTH + [Cancel(0)] + [Cleanup(0)]);
            && s.closed.None? && s.inbound == [] && 0 in s.clients && s.clients[0].phase == Done(Abandoned(false))
            && !s.Routed(0)
  {
    BothStarted(cfg);
    RunPush(cfg, BOTH, Cancel(0));
    RunPush(cfg, BOTH + [Cancel(0)], Cleanup(0));
    hide Run;
    var s1 := Step(cfg, BothWait(), Cancel(0));
    assert s1.clients[0].phase == Closing(Abandoned(false)) && s1.routes == map[HANDSHAKE_STREAM_ID := 1];
  }

  function Asking(opcode: u16, payload: seq<Byte>): Client {
    Client(OpRequest, 1, Some(0), opcode, payload, Waiting, 0, [], [], false)
  }

  function Asked(opcode: u16, payload: seq<Byte>): State {
    State(3, 1, map[1 := 0], None, map[0 := Asking(opcode, payload)], [],
          [Sent(Some(0), Frame(opcode, 0x80, 1, payload))])
  }

  lemma GoesOut(cfg: Config, opcode: u16, payload: seq<Byte>)
    requires |payload| <= 0xff_ffff && (cfg.advertised == 0 || |payload| <= cfg.advertised)
    ensures Run(cfg, [Start(0, OpRequest, opcode, payload)] + [Register(0)] + [Write(0, true)]) == Asked(opcode, payload)
  {
    var start := Start(0, OpRequest, opcode, payload);
    assert [] + [start] == [start] && Run(cfg, []) == INITIAL;
    RunPush(cfg, [], start);
    RunPush(cfg, [start], Register(0));
    RunPush(cfg, [start] + [Register(0)], Write(0, true));
    hide Run;
    var s2 := Step(cfg, Step(cfg, INITIAL, start), Register(0));
    assert s2.clients[0] == Asking(opcode, payload).(phase := Registered) && s2.routes == map[1 := 0];
    assert [] + [Sent(Some(0), Frame(opcode, 0x80, 1, payload))] == [Sent(Some(0), Frame(opcode, 0x80, 1, payload))];
  }

  lemma ComesBack(cfg: Config, opcode: u16, payload: seq<Byte>, reply: Frame)
    requires reply.streamId == 1 && reply.flags >= 0x80 && reply.opcode != 0x00ff && reply.opcode != 0x0091
    ensures var s := Step(cfg, Step(cfg, Step(cfg, Asked(opcode, payload), Deliver(reply, None)), Receive(0)), Cleanup(0));
            && s.outbound == Asked(opcode, payload).outbound
            && 0 in s.clients && s.clients[0].phase == Done(Frames([reply])) && s.routes == map[]
  {
    FlagsMean(reply);
    var s1 := Step(cfg, Asked(opcode, payload), Deliver(reply, None));
    assert s1.clients[0] == Asking(opcode, payload).(queue := [reply]);
    assert s1.routes == if cfg.mode.Eager? then map[] else map[1 := 0];
    assert [] + [reply] == [reply];
    var s2 := Step(cfg, s1, Receive(0));
    assert s2.clients[0].phase == Closing(Frames([reply])) && s2.routes == s1.routes;
  }

  /** One request from start to end on a new connection, in every client: it goes out on stream 1, its EOS
      frame completes it, and its route is gone. */
  lemma OneRequest(cfg: Config, opcode: u16, payload: seq<Byte>, reply: Frame)
    requires |payload| <= 0xff_ffff && (cfg.advertised == 0 || |payload| <= cfg.advertised)
    requires reply.streamId == 1 && reply.flags >= 0x80 && reply.opcode != 0x00ff && reply.opcode != 0x0091
    ensures var s := Run(cfg, [Start(0, OpRequest, opcode, payload)] + [Register(0)] + [Write(0, true)]
                              + [Deliver(reply, None)] + [Receive(0)] + [Cleanup(0)]);
            && s.outbound == [Sent(Some(0), Frame(opcode, 0x80, 1, payload))]
            && 0 in s.clients && s.clients[0].phase == Done(Frames([reply])) && s.routes == map[]
  {
    hide Run, Step;
    var asked := [Start(0, OpRequest, opcode, payload)] + [Register(0)] + [Write(0, true)];
    GoesOut(cfg, opcode, payload);
    RunPush(cfg, asked, Deliver(reply, None));
    RunPush(cfg, asked + [Deliver(reply, None)], Receive(0));
    RunPush(cfg, asked + [Deliver(reply, None)] + [Receive(0)], Cleanup(0));
    ComesBack(cfg, opcode, payload, reply);
  }
}
