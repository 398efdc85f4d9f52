/**
 Eager and lazy route removal cannot be told apart by a request that has its stream id to itself:
 under the same schedule of callers, reader, timers and failures, it is in the same phase, with the
 same outcome, on the Rust connection and on the Python or TypeScript connection, whatever happens
 on other ids.
 */
module MuxModes {
  import opened Bytes
  import opened Wrappers
  import opened FrameCodec
  import opened FrameStream
  import opened Answers
  import opened Mux
  import opened MuxInvariant
  import opened MuxRoutes

  /** Everything but the channel. */
  function Face(c: Client): Client { c.(queue := [], sunk := false) }

  /** The two connections have taken in the same, know the same clients, and agree on those of `id`. */
  ghost predicate Same(e: State, l: State, id: u32) {
    && e.nextId == l.nextId && e.allocs == l.allocs && e.closed == l.closed && e.inbound == l.inbound
    && e.clients.Keys == l.clients.Keys
    && (forall r :: r in e.clients ==> e.clients[r].id == l.clients[r].id)
    && (forall r :: r in e.clients && e.clients[r].id == id ==> Face(e.clients[r]) == Face(l.clients[r]))
  }

  lemma SameClient(e: State, l: State, id: u32, r: ClientId)
    requires Same(e, l, id)
    ensures r in e.clients <==> r in l.clients
    ensures r in e.clients ==> e.clients[r].id == l.clients[r].id
    ensures r in e.clients && e.clients[r].id == id ==> Face(e.clients[r]) == Face(l.clients[r])
    ensures e.closed == l.closed && e.inbound == l.inbound
  {}

  lemma SameIsAlone(e: State, l: State, id: u32)
    requires Same(e, l, id) && Alone(e, id)
    ensures Alone(l, id)
  {
    forall p, q | HoldsId(l, p, id) && HoldsId(l, q, id)
      ensures p == q
    {
      SameClient(e, l, id, p);
      SameClient(e, l, id, q);
      assert HoldsId(e, p, id) && HoldsId(e, q, id);
    }
  }

  /** A waiting client finds the same next frame in both channels, or both empty, and then both
      closed or both open. */
  lemma SameHead(ecfg: Config, lcfg: Config, e: State, l: State, id: u32, r: ClientId)
    requires Same(e, l, id) && Inv(ecfg, e) && Inv(lcfg, l)
    requires r in e.clients && e.clients[r].id == id && e.clients[r].phase.Waiting? && l.clients[r].phase.Waiting?
    requires WaitOk(ecfg, e, r) && WaitOk(lcfg, l, r)
    requires InTable(ecfg, e, r, false) && InTable(lcfg, l, r, false)
    ensures e.clients[r].queue == [] <==> l.clients[r].queue == []
    ensures e.clients[r].queue != [] ==> e.clients[r].queue[0] == l.clients[r].queue[0]
    ensures e.clients[r].queue == [] ==> (ChannelClosed(ecfg, e, r) <==> ChannelClosed(lcfg, l, r))
  {
    hide OnStream, HasEos, HasError, Cut, Read, Seen, Inv, InTable, ChannelClosed;
    var c, d := e.clients[r], l.clients[r];
    SameClient(e, l, id, r);
    SeenSame(e, l, c);
    SeenOf(l, d, c);
    InvClient(ecfg, e, r);
    InvClient(lcfg, l, r);
    CutAppend(c.got, c.queue);
    CutAppend(d.got, d.queue);
    assert c.got + Cut(c.queue) == d.got + Cut(d.queue);
    SuffixSame(c.got, Cut(c.queue), Cut(d.queue));
    CutHead(c.queue);
    CutHead(d.queue);
    if c.queue == [] {
      DryChannel(ecfg, e, r);
      DryChannel(lcfg, l, r);
    }
  }

  lemma SuffixSame(g: seq<Frame>, x: seq<Frame>, y: seq<Frame>)
    requires g + x == g + y
    ensures x == y
  {
    assert x == (g + x)[|g|..] && y == (g + y)[|g|..];
  }

  lemma CutHead(x: seq<Frame>)
    ensures x == [] <==> Cut(x) == []
    ensures x != [] ==> Cut(x)[0] == x[0]
  {}

  lemma TakeSame(c: Client, d: Client)
    requires Face(c) == Face(d) && c.queue != [] && d.queue != [] && c.queue[0] == d.queue[0]
    ensures Face(Take(c)) == Face(Take(d))
  {
    assert c.got == d.got;
  }

  /** What a client of `id` needs for its receives to agree. */
  ghost predicate Ready(cfg: Config, s: State, r: ClientId)
    requires r in s.clients
  {
    s.clients[r].phase.Waiting? ==> WaitOk(cfg, s, r) && InTable(cfg, s, r, false)
  }

  lemma ReceiveSame(ecfg: Config, lcfg: Config, e: State, l: State, id: u32, r: ClientId)
    requires Same(e, l, id) && Inv(ecfg, e) && Inv(lcfg, l)
    requires r in e.clients && e.clients[r].id == id && r in l.clients && Ready(ecfg, e, r) && Ready(lcfg, l, r)
    ensures var e', l' := DoReceive(ecfg, e, r), DoReceive(lcfg, l, r);
            r in e'.clients && r in l'.clients && Face(e'.clients[r]) == Face(l'.clients[r])
  {
    hide WaitOk, InTable, ChannelClosed, Same, Inv, Take;
    SameClient(e, l, id, r);
    if e.clients[r].phase.Waiting? {
      SameHead(ecfg, lcfg, e, l, id, r);
      if e.clients[r].queue != [] { TakeSame(e.clients[r], l.clients[r]); }
    }
  }

  lemma RegisterSame(e: State, l: State, r: ClientId)
    requires r in e.clients && r in l.clients && Face(e.clients[r]) == Face(l.clients[r])
    requires e.closed == l.closed && e.inbound == l.inbound
    ensures var e', l' := DoRegister(e, r), DoRegister(l, r);
            r in e'.clients && r in l'.clients && Face(e'.clients[r]) == Face(l'.clients[r])
  {}

  lemma WriteSame(ecfg: Config, lcfg: Config, e: State, l: State, r: ClientId, ok: bool)
    requires ecfg.advertised == lcfg.advertised
    requires r in e.clients && r in l.clients && Face(e.clients[r]) == Face(l.clients[r])
    requires e.closed == l.closed && e.inbound == l.inbound
    ensures var e', l' := DoWrite(ecfg, e, r, ok), DoWrite(lcfg, l, r, ok);
            r in e'.clients && r in l'.clients && Face(e'.clients[r]) == Face(l'.clients[r])
  {}

  lemma EndingSame(e: State, l: State, r: ClientId)
    requires r in e.clients && r in l.clients && Face(e.clients[r]) == Face(l.clients[r])
    requires e.closed == l.closed && e.inbound == l.inbound
    ensures var e', l' := DoTimeout(e, r), DoTimeout(l, r);
            r in e'.clients && r in l'.clients && Face(e'.clients[r]) == Face(l'.clients[r])
    ensures var e', l' := DoCancel(e, r), DoCancel(l, r);
            r in e'.clients && r in l'.clients && Face(e'.clients[r]) == Face(l'.clients[r])
  {}

  lemma CleanupSame(ecfg: Config, lcfg: Config, e: State, l: State, r: ClientId)
    requires r in e.clients && r in l.clients && Face(e.clients[r]) == Face(l.clients[r])
    requires e.closed == l.closed && e.inbound == l.inbound
    ensures var e', l' := DoCleanup(ecfg, e, r), DoCleanup(lcfg, l, r);
            r in e'.clients && r in l'.clients && Face(e'.clients[r]) == Face(l'.clients[r])
  {
    hide RemovesRoute;
  }

  /** A client's own step, other than a receive, does the same to its face under both. */
  lemma OwnSame(ecfg: Config, lcfg: Config, e: State, l: State, id: u32, ev: Event)
    requires Same(e, l, id) && ecfg.advertised == lcfg.advertised && OfCaller(ev) && !ev.Receive?
    requires ev.r in e.clients && e.clients[ev.r].id == id
    ensures var e', l' := Step(ecfg, e, ev), Step(lcfg, l, ev);
            ev.r in e'.clients && ev.r in l'.clients && Face(e'.clients[ev.r]) == Face(l'.clients[ev.r])
  {
    SameClient(e, l, id, ev.r);
    hide Same, Face, DoRegister, DoWrite, DoTimeout, DoCancel, DoCleanup;
    match ev {
      case Register(r) => RegisterSame(e, l, r);
      case Write(r, ok) => WriteSame(ecfg, lcfg, e, l, r, ok);
      case Timeout(r) => EndingSame(e, l, r);
      case Cancel(r) => EndingSame(e, l, r);
      case Cleanup(r) => CleanupSame(ecfg, lcfg, e, l, r);
    }
  }

  /** A step by a caller leaves the shared part alone, and everybody else's record. */
  lemma CallerLeaves(cfg: Config, s: State, ev: Event)
    requires OfCaller(ev)
    ensures var t := Step(cfg, s, ev);
            && t.nextId == s.nextId && t.allocs == s.allocs && t.inbound == s.inbound && t.closed == s.closed
            && t.clients.Keys == s.clients.Keys
            && (forall r :: r in s.clients ==> t.clients[r].id == s.clients[r].id)
            && (forall r :: r in s.clients && r != ev.r ==> t.clients[r] == s.clients[r])
  {
    hide Step;
    StepKeepsIdentities(cfg, s, ev);
    CallerSees(cfg, s, ev);
    forall r | r in s.clients && r != ev.r
      ensures Step(cfg, s, ev).clients[r] == s.clients[r]
    {
      OtherKeepsRecord(cfg, s, ev, r);
    }
  }

  lemma CallerSame(ecfg: Config, lcfg: Config, e: State, l: State, id: u32, ev: Event)
    requires Same(e, l, id) && Inv(ecfg, e) && Inv(lcfg, l) && ecfg.advertised == lcfg.advertised && OfCaller(ev)
    requires ev.r in e.clients && e.clients[ev.r].id == id ==>
               ev.r in l.clients && Ready(ecfg, e, ev.r) && Ready(lcfg, l, ev.r)
    ensures Same(Step(ecfg, e, ev), Step(lcfg, l, ev), id)
  {
    hide Step, Face, Inv, Ready;
    CallerLeaves(ecfg, e, ev);
    CallerLeaves(lcfg, l, ev);
    if ev.r in e.clients && e.clients[ev.r].id == id {
      if ev.Receive? {
        ReceiveSame(ecfg, lcfg, e, l, id, ev.r);
        ReceiveIsStep(ecfg, e, ev);
        ReceiveIsStep(lcfg, l, ev);
      } else {
        OwnSame(ecfg, lcfg, e, l, id, ev);
      }
    }
  }

  lemma ReceiveIsStep(cfg: Config, s: State, ev: Event)
    requires ev.Receive?
    ensures Step(cfg, s, ev) == DoReceive(cfg, s, ev.r)
  {}

  lemma StartSame(ecfg: Config, lcfg: Config, e: State, l: State, id: u32, r: ClientId, kind: Kind, opcode: u16, payload: seq<Byte>)
    requires Same(e, l, id) && IdsOk(e)
    ensures Same(DoStart(ecfg, e, r, kind, opcode, payload), DoStart(lcfg, l, r, kind, opcode, payload), id)
  {
    hide NextId, IdOf;
    NextIdIs(ecfg.mode, e.allocs);
    NextIdIs(lcfg.mode, e.allocs);
  }

  lemma DeliverFaces(cfg: Config, s: State, f: Frame, pong: Option<seq<Byte>>)
    ensures var t := DoDeliver(cfg, s, f, pong);
            && t.nextId == s.nextId && t.allocs == s.allocs && t.closed == s.closed
            && t.inbound == (if s.closed.Some? then s.inbound else s.inbound + [f])
            && t.clients.Keys == s.clients.Keys
            && forall r :: r in s.clients ==> Face(t.clients[r]) == Face(s.clients[r]) && t.clients[r].id == s.clients[r].id
  {
    hide Pong;
  }

  lemma FailFaces(cfg: Config, s: State, reason: ReadError)
    ensures var t := DoFail(cfg, s, reason);
            && t.nextId == s.nextId && t.allocs == s.allocs && t.inbound == s.inbound
            && t.closed == (if s.closed.Some? then s.closed else Some(reason))
            && t.clients.Keys == s.clients.Keys
            && forall r :: r in s.clients ==> Face(t.clients[r]) == Face(s.clients[r]) && t.clients[r].id == s.clients[r].id
  {}

  lemma ReaderStepsSame(ecfg: Config, lcfg: Config, e: State, l: State, id: u32, f: Frame, pong: Option<seq<Byte>>, reason: ReadError)
    requires Same(e, l, id)
    ensures Same(DoDeliver(ecfg, e, f, pong), DoDeliver(lcfg, l, f, pong), id)
    ensures Same(DoFail(ecfg, e, reason), DoFail(lcfg, l, reason), id)
  {
    hide DoDeliver, DoFail, Face;
    DeliverFaces(ecfg, e, f, pong);
    DeliverFaces(lcfg, l, f, pong);
    FailFaces(ecfg, e, reason);
    FailFaces(lcfg, l, reason);
  }

  lemma StepSame(ecfg: Config, lcfg: Config, e: State, l: State, id: u32, ev: Event)
    requires ecfg.advertised == lcfg.advertised
    requires Same(e, l, id) && Inv(ecfg, e) && Inv(lcfg, l) && IdsOk(e)
    requires forall r :: r in e.clients && e.clients[r].id == id ==>
               r in l.clients && Ready(ecfg, e, r) && Ready(lcfg, l, r)
    ensures Same(Step(ecfg, e, ev), Step(lcfg, l, ev), id)
  {
    hide DoStart, DoDeliver, DoFail, Inv, Same, IdsOk, Ready;
    match ev {
      case Start(r, kind, opcode, payload) => StartSame(ecfg, lcfg, e, l, id, r, kind, opcode, payload);
      case Deliver(f, pong) => ReaderStepsSame(ecfg, lcfg, e, l, id, f, pong, Io);
      case ReaderFails(reason) => ReaderStepsSame(ecfg, lcfg, e, l, id, Frame(0, 0, 0, []), None, reason);
      case _ => hide Step; CallerSame(ecfg, lcfg, e, l, id, ev);
    }
  }

  lemma AloneIsReady(cfg: Config, es: seq<Event>, id: u32, r: ClientId)
    requires AloneRun(cfg, es, id) && r in Run(cfg, es).clients && Run(cfg, es).clients[r].id == id
    ensures Ready(cfg, Run(cfg, es), r)
  {
    hide Step, Run, WaitOk, InTable, AloneRun, DisplacedWaiting, Displaced;
    if Run(cfg, es).clients[r].phase.Waiting? {
      AloneIsUndisplaced(cfg, es, r);
      UndisplacedIsWhole(cfg, es, r);
      DisplacedWhileWaiting(cfg, es, r);
      RoutedIff(cfg, es, r);
    }
  }

  /** For every schedule in which at most one client at a time holds an id, both machines stay in step
      on it. */
  lemma {:induction false} ModesAgree(ecfg: Config, lcfg: Config, es: seq<Event>, id: u32)
    requires ecfg.mode.Eager? && lcfg.mode.Lazy? && ecfg.advertised == lcfg.advertised
    requires AloneRun(ecfg, es, id)
    ensures Same(Run(ecfg, es), Run(lcfg, es), id) && AloneRun(lcfg, es, id)
    decreases |es|
  {
    hide Step, Inv, Same, IdsOk, Alone, Ready;
    if |es| == 0 {
      assert Same(INITIAL, INITIAL, id) by { InitialSame(id); }
    } else {
      var before := es[..|es| - 1];
      ModesAgree(ecfg, lcfg, before, id);
      RunKeeps(ecfg, before);
      RunKeeps(lcfg, before);
      RunKeepsIds(ecfg, before);
      var e, l := Run(ecfg, before), Run(lcfg, before);
      forall r | r in e.clients && e.clients[r].id == id
        ensures r in l.clients && Ready(ecfg, e, r) && Ready(lcfg, l, r)
      {
        SameClient(e, l, id, r);
        AloneIsReady(ecfg, before, id, r);
        AloneIsReady(lcfg, before, id, r);
      }
      StepSame(ecfg, lcfg, e, l, id, es[|es| - 1]);
    }
    SameIsAlone(Run(ecfg, es), Run(lcfg, es), id);
  }

  lemma InitialSame(id: u32)
    ensures Same(INITIAL, INITIAL, id)
  {}

  /** So each request with an id to itself ends the same way, in the same place, under both. */
  lemma SameOutcomes(ecfg: Config, lcfg: Config, es: seq<Event>, r: ClientId)
    requires ecfg.mode.Eager? && lcfg.mode.Lazy? && ecfg.advertised == lcfg.advertised
    requires r in Run(ecfg, es).clients && AloneRun(ecfg, es, Run(ecfg, es).clients[r].id)
    ensures r in Run(lcfg, es).clients
    ensures Run(ecfg, es).clients[r].phase == Run(lcfg, es).clients[r].phase
    ensures Run(ecfg, es).clients[r].id == Run(lcfg, es).clients[r].id
    ensures Run(ecfg, es).clients[r].got == Run(lcfg, es).clients[r].got
  {
    hide Step, Run, AloneRun, Same;
    var id := Run(ecfg, es).clients[r].id;
    ModesAgree(ecfg, lcfg, es, id);
    SameClient(Run(ecfg, es), Run(lcfg, es), id, r);
  }
}
