/**
 What each event does to the request or the connection it is for, in the source's constants: that
 requests start, go out, are answered and end, and not only that nothing wrong happens to them.
 */
module MuxEffects {
  import opened Bytes
  import opened Wrappers
  import opened FrameCodec
  import opened FrameStream
  import opened Answers
  import opened Mux
  import opened MuxInvariant
  import opened MuxRoutes
  import opened MuxTheorems

  /** Only the record of `r` changed. */
  ghost predicate OnlyClient(s: State, t: State, r: ClientId) {
    && r in t.clients && t.clients == s.clients[r := t.clients[r]]
    && t.nextId == s.nextId && t.allocs == s.allocs && t.closed == s.closed
    && t.inbound == s.inbound && t.outbound == s.outbound && t.routes == s.routes
  }

  /** A new client takes the next id of 1, 3, 5, ..., or stream 0, and holds nothing yet. */
  lemma Starts(cfg: Config, es: seq<Event>, r: ClientId, kind: Kind, opcode: u16, payload: seq<Byte>)
    requires r !in Run(cfg, es).clients
    ensures var s, t := Run(cfg, es), Run(cfg, es + [Start(r, kind, opcode, payload)]);
            && r in t.clients && t.clients == s.clients[r := t.clients[r]]
            && t.clients[r].kind == kind && t.clients[r].opcode == opcode && t.clients[r].payload == payload
            && t.clients[r].phase == Allocated && t.clients[r].got == [] && t.clients[r].queue == []
            && t.clients[r].id == (if kind.ConnectionRequest? then 0 else 1 + 2 * (s.allocs % 0x8000_0000))
            && t.allocs == s.allocs + (if kind.ConnectionRequest? then 0 else 1)
            && t.routes == s.routes && t.outbound == s.outbound && t.inbound == s.inbound && t.closed == s.closed
  {
    RunKeepsIds(cfg, es);
    RunPush(cfg, es, Start(r, kind, opcode, payload));
    hide Run;
  }

  /** Registering on an open connection makes `r` the owner of its id's entry and leaves every other
      entry; on a closed one it is refused with the reader's reason. */
  lemma Registers(cfg: Config, s: State, r: ClientId)
    requires r in s.clients && s.clients[r].phase == Allocated
    ensures var t := Step(cfg, s, Register(r));
            && r in t.clients && t.outbound == s.outbound && t.closed == s.closed
            && t.clients[r].since == |s.inbound| && t.clients[r].id == s.clients[r].id
            && (s.closed.None? ==>
                  && t.clients[r].phase == Registered
                  && t.clients[r].id in t.routes && t.routes[t.clients[r].id] == r
                  && (forall id :: id != s.clients[r].id ==> (id in t.routes <==> id in s.routes))
                  && (forall id :: id != s.clients[r].id && id in s.routes ==> t.routes[id] == s.routes[id]))
            && (s.closed.Some? ==> t.clients[r].phase == Done(ConnClosed(s.closed)) && t.routes == s.routes)
  {}

  /** What the server allows: its advertised size, where 0 means unset, and never more than 2^24 - 1. */
  predicate Sendable(cfg: Config, payload: seq<Byte>) {
    |payload| <= 0xff_ffff && (cfg.advertised == 0 || |payload| <= cfg.advertised)
  }

  /** A registered request goes out, as one EOS frame of its own behind what was written before, and
      waits, if and only if the size is allowed and the socket takes it; otherwise nothing is
      written and the write has failed. */
  lemma WritesIff(cfg: Config, s: State, r: ClientId, ok: bool)
    requires r in s.clients && s.clients[r].phase == Registered
    ensures var c, t := s.clients[r], Step(cfg, s, Write(r, ok));
            && r in t.clients && t.clients == s.clients[r := t.clients[r]] && t.routes == s.routes
            && t.outbound == (if ok && Sendable(cfg, c.payload)
                              then s.outbound + [Sent(Some(r), Frame(c.opcode, 0x80, c.id, c.payload))] else s.outbound)
            && t.clients[r] == c.(phase := if ok && Sendable(cfg, c.payload) then Waiting else Closing(WriteFailed))
  {}

  /** A frame of a routed client's stream goes to the end of its queue; an EOS takes a Rust route out. */
  lemma Delivers(cfg: Config, s: State, r: ClientId, f: Frame, pong: Option<seq<Byte>>)
    requires Inv(cfg, s) && HasRegistered(s, r) && s.Routed(r) && !s.clients[r].phase.Done?
    requires f.streamId == s.clients[r].id && f.opcode != 0x0091
    ensures var t := Step(cfg, s, Deliver(f, pong));
            && r in t.clients && t.clients[r] == s.clients[r].(queue := s.clients[r].queue + [f])
            && t.inbound == s.inbound + [f] && t.outbound == s.outbound
            && (t.Routed(r) <==> !(cfg.mode.Eager? && f.flags >= 0x80))
  {
    hide Seen, HasEos, ClientOk;
    InvRoute(cfg, s, r);
    FlagsMean(f);
  }

  /** A SERVER_PING on an open connection is answered with exactly one CLIENT_PONG on stream 0 that
      carries the reply, if the write happens and the reply is not too long; it reaches no client. */
  lemma AnswersPing(cfg: Config, s: State, f: Frame, pong: Option<seq<Byte>>)
    requires s.closed.None? && f.opcode == 0x0091
    ensures var t := Step(cfg, s, Deliver(f, pong));
            && t.clients == s.clients && t.routes == s.routes && t.inbound == s.inbound + [f]
            && t.outbound ==
               if pong.Some? && |pong.value| <= 0xff_ffff && (cfg.mode.Eager? || Sendable(cfg, pong.value))
               then s.outbound + [Sent(None, Frame(0x0011, 0x80, 0, pong.value))] else s.outbound
  {}

  /** Receiving: an ERROR frame is the outcome; any other is collected, and ends the response exactly if
      its EOS bit is set. */
  lemma Collects(cfg: Config, s: State, r: ClientId)
    requires r in s.clients && s.clients[r].phase == Waiting && s.clients[r].queue != []
    ensures var c, t := s.clients[r], Step(cfg, s, Receive(r));
            var f := c.queue[0];
            && r in t.clients && t.clients[r].queue == c.queue[1..] && t.clients == s.clients[r := t.clients[r]]
            && t.outbound == s.outbound && t.inbound == s.inbound
            && (f.opcode == 0x00ff ==> t.clients[r].phase == Closing(ServerError(f)))
            && (f.opcode != 0x00ff && f.flags >= 0x80 ==> t.clients[r].phase == Closing(Frames(c.got + [f])))
            && (f.opcode != 0x00ff && f.flags < 0x80 ==>
                  t.clients[r].phase == Waiting && t.clients[r].got == c.got + [f])
  {
    FlagsMean(s.clients[r].queue[0]);
  }

  /** The deadline ends every waiting request, whichever stream it is on. */
  lemma TimesOut(cfg: Config, s: State, r: ClientId)
    requires r in s.clients && s.clients[r].phase == Waiting && !s.clients[r].kind.Subscribe?
    ensures var t := Step(cfg, s, Timeout(r));
            OnlyClient(s, t, r) && t.clients[r] == s.clients[r].(phase := Closing(TimedOut))
  {}

  /** Who takes the entry of its id out on return: every Python and TypeScript client; in Rust a request
      that was refused, timed out or could not write, and every subscription, except one dropped
      before it had its handle. */
  predicate TakesRouteOut(cfg: Config, c: Client, o: Outcome) {
    || cfg.mode.Lazy?
    || o.ServerError? || o.TimedOut? || o.WriteFailed? || o == Abandoned(true)
    || (c.kind.Subscribe? && o != Abandoned(false))
  }

  /** Whatever a client's outcome is, returning finishes it with that, and at most its own id's entry goes. */
  lemma Finishes(cfg: Config, s: State, r: ClientId)
    requires r in s.clients && s.clients[r].phase.Closing?
    ensures var c, t := s.clients[r], Step(cfg, s, Cleanup(r));
            && t.clients == s.clients[r := c.(phase := Done(c.phase.outcome))]
            && t.routes == (if TakesRouteOut(cfg, c, c.phase.outcome) then s.routes - {c.id} else s.routes)
            && t.outbound == s.outbound && t.inbound == s.inbound && t.closed == s.closed
  {}

  /** A subscription handle that is dropped while it waits is done and its id is out of the table, in
      every client. */
  lemma DropsSubscription(cfg: Config, s: State, r: ClientId)
    requires r in s.clients && s.clients[r].phase == Waiting && s.clients[r].kind == Subscribe
    ensures var t := Step(cfg, Step(cfg, s, Cancel(r)), Cleanup(r));
            && r in t.clients && t.clients[r].phase == Done(Abandoned(true))
            && t.routes == s.routes - {s.clients[r].id}
  {}

  /** Any client without an outcome can be dropped; only a waiting subscription then removes its route in
      Rust. */
  lemma Drops(cfg: Config, s: State, r: ClientId)
    requires r in s.clients && Undecided(s.clients[r])
    ensures var c, t := s.clients[r], Step(cfg, s, Cancel(r));
            OnlyClient(s, t, r)
            && t.clients[r] == c.(phase := Closing(Abandoned(c.kind.Subscribe? && c.phase.Waiting?)))
  {}

  /** The reader's failure closes an open connection for its reason and empties the table, and in the lazy
      clients marks every queue it finds there; nobody's queue or phase changes. */
  lemma Fails(cfg: Config, s: State, reason: ReadError)
    requires s.closed.None?
    ensures var t := Step(cfg, s, ReaderFails(reason));
            && t.closed == Some(reason) && t.routes == map[] && t.inbound == s.inbound && t.outbound == s.outbound
            && t.clients.Keys == s.clients.Keys
            && (forall r :: r in s.clients ==>
                  t.clients[r] == s.clients[r].(sunk := s.clients[r].sunk || (cfg.mode.Lazy? && s.Routed(r))))
  {}

  // ---- a request whose stream has an answer gets it ----

  lemma ReceiveAnswered(cfg: Config, s: State, r: ClientId)
    requires Inv(cfg, s) && r in s.clients && s.clients[r].phase.Waiting?
    requires Read(s.clients[r].got + s.clients[r].queue) != Open
    ensures var c, t := s.clients[r], DoReceive(cfg, s, r);
            && c.queue != [] && r in t.clients
            && (if t.clients[r].phase.Waiting?
                then |t.clients[r].queue| < |c.queue| && t.clients[r].got + t.clients[r].queue == c.got + c.queue
                else t.clients[r].phase == Closing(Settlement(Read(c.got + c.queue), None)))
  {
    hide Read, HasEos, HasError, Seen, OnStream;
    var c := s.clients[r];
    InvClient(cfg, s, r);
    if c.queue == [] {
      assert c.got + c.queue == c.got;
      DryFacts(c.got);
    } else {
      PopFacts(c.got, c.queue, c.got + c.queue);
    }
  }

  /** Draining the queue of a waiting client that has an answer in it ends with that answer, on an open
      connection as on a closed one. */
  lemma {:induction false} DrainAnswers(cfg: Config, s: State, r: ClientId, n: nat)
    requires Inv(cfg, s) && r in s.clients && s.clients[r].phase.Waiting? && n > |s.clients[r].queue|
    requires Read(s.clients[r].got + s.clients[r].queue) != Open
    ensures var c, t := s.clients[r], Receives(cfg, s, r, n);
            r in t.clients && t.clients[r].phase == Closing(Settlement(Read(c.got + c.queue), None))
    decreases n
  {
    hide Inv, Read, Seen, HasEos, HasError;
    var t := DoReceive(cfg, s, r);
    ReceiveKeeps(cfg, s, r);
    ReceiveAnswered(cfg, s, r);
    if t.clients[r].phase.Waiting? {
      DrainAnswers(cfg, t, r, n - 1);
    } else {
      DecidedStays(cfg, t, r, n - 1);
    }
  }

  /** In every run: once the stream of a waiting request that nobody displaced holds an EOS with no ERROR
      up to it, draining the queue returns exactly those frames; if an ERROR came first, that error. */
  lemma StreamIsAnswered(cfg: Config, es: seq<Event>, r: ClientId, n: nat)
    requires var s := Run(cfg, es);
             r in s.clients && s.clients[r].phase.Waiting? && n > |s.clients[r].queue|
    requires !Displaced(cfg, es, r)
    ensures var s := Run(cfg, es);
            var seen, t := Seen(s, s.clients[r]), Receives(cfg, s, r, n);
            && (HasEos(seen) && !HasError(Cut(seen)) ==>
                  r in t.clients && t.clients[r].phase == Closing(Frames(Cut(seen))))
            && (forall i: nat, f :: FirstError(seen, i, f) ==>
                  r in t.clients && t.clients[r].phase == Closing(ServerError(f)))
  {
    hide Step, Inv, Seen, Cut, Receives, HasEos, HasError, Read, FirstError;
    var s := Run(cfg, es);
    RunKeeps(cfg, es);
    DisplacedWhileWaiting(cfg, es, r);
    UndisplacedIsWhole(cfg, es, r);
    var c := s.clients[r];
    var seen := Seen(s, c);
    ReadCut(c.got + c.queue);
    ReadCut(seen);
    CompleteMeans(seen, Cut(seen));
    if Read(seen) != Open { DrainAnswers(cfg, s, r, n); }
    forall i: nat, f | FirstError(seen, i, f)
      ensures Read(seen) == Refused(f)
    {
      FirstErrorRefuses(seen, i, f);
    }
  }

  lemma FirstErrorRefuses(x: seq<Frame>, i: nat, f: Frame)
    requires FirstError(x, i, f)
    ensures Read(x) == Refused(f)
  {
    hide HasEos, HasError, Read;
    RefusedMeans(x, f);
  }
}
