/** What every step of the multiplexer keeps. */
module MuxInvariant {
  import opened Bytes
  import opened Wrappers
  import opened FrameCodec
  import opened FrameStream
  import opened Answers
  import opened Mux

  /** The k-th allocated stream id. */
  function IdOf(k: nat): u32 { 1 + 2 * (k % 0x8000_0000) }

  /** The frames of a client's stream since it registered. */
  function Seen(s: State, c: Client): seq<Frame> {
    if c.since <= |s.inbound| then OnStream(s.inbound[c.since..], c.id) else []
  }

  predicate Undecided(c: Client) { c.phase.Registered? || c.phase.Waiting? }

  /** What an outcome says about the stream.  Only the failure mark of a lazy reader makes `closed`
      an answer about it; an eager channel also closes when its route goes away. */
  ghost predicate OutcomeOk(cfg: Config, s: State, o: Outcome, seen: seq<Frame>) {
    match o
    case Frames(fs) => Read(seen) == Complete(fs)
    case ServerError(f) => Read(seen) == Refused(f)
    case ConnClosed(reason) =>
      && (reason.Some? ==> reason == s.closed)
      && (cfg.mode.Lazy? ==> reason.Some? && Read(seen) == Open)
    case _ => true
  }

  /** A client that is not done has a prefix of its stream in hand or queued, and all of it while it
      is in the table or when a failing reader marked its queue. */
  ghost predicate HandOk(cfg: Config, s: State, r: ClientId)
    requires r in s.clients
  {
    var c := s.clients[r];
    && !HasEos(c.got) && !HasError(c.got)
    && c.got + c.queue <= Seen(s, c)
    && (s.Routed(r) || c.sunk ==> c.got + c.queue == Seen(s, c))
    && (c.sunk ==> cfg.mode.Lazy? && s.closed.Some?)
  }

  ghost predicate ClientOk(cfg: Config, s: State, r: ClientId)
    requires r in s.clients
  {
    var c := s.clients[r];
    && c.since <= |s.inbound|
    && (c.phase.Allocated? ==> c.got == [] && c.queue == [] && !c.sunk)
    && (Undecided(c) ==> HandOk(cfg, s, r))
    && (c.Decided() ==> OutcomeOk(cfg, s, c.phase.outcome, Seen(s, c)))
  }

  /** A route belongs to a client that holds its id, or (Rust only) to a request whose future was
      dropped, and to nobody who was told the connection is closed; no eager route outlives the EOS
      of its stream. */
  ghost predicate RouteOk(cfg: Config, s: State, id: u32)
    requires id in s.routes
  {
    var r := s.routes[id];
    && r in s.clients && s.clients[r].id == id && !s.clients[r].phase.Allocated?
    && (s.clients[r].phase.Done? ==> cfg.mode.Eager? && s.clients[r].phase.outcome == Abandoned(false))
    && (s.clients[r].Decided() ==> !s.clients[r].phase.outcome.ConnClosed?)
    && (cfg.mode.Eager? ==> !HasEos(Seen(s, s.clients[r])))
  }

  ghost predicate IdsOk(s: State) {
    && s.nextId == IdOf(s.allocs)
    && (forall r :: r in s.clients ==>
          var c := s.clients[r];
          if c.kind.ConnectionRequest? then c.ticket.None? && c.id == HANDSHAKE_STREAM_ID
          else c.ticket.Some? && c.ticket.value < s.allocs && c.id == IdOf(c.ticket.value))
    && (forall p, q ::
          p in s.clients && q in s.clients && s.clients[p].ticket.Some? && p != q
          ==> s.clients[p].ticket != s.clients[q].ticket)
  }

  ghost predicate Inv(cfg: Config, s: State) {
    && (forall r :: r in s.clients ==> ClientOk(cfg, s, r))
    && (forall id :: id in s.routes ==> RouteOk(cfg, s, id))
    && (s.closed.Some? ==> s.routes == map[])
  }

  // ---- one lemma per step: identities ----

  lemma NextIdIs(mode: Mode, k: nat)
    ensures NextId(mode, IdOf(k)) == IdOf(k + 1)
  {}

  ghost predicate SameIdentities(s: State, t: State) {
    && t.clients.Keys == s.clients.Keys && t.nextId == s.nextId && t.allocs == s.allocs
    && forall r :: r in s.clients ==>
         t.clients[r].kind == s.clients[r].kind && t.clients[r].id == s.clients[r].id
         && t.clients[r].ticket == s.clients[r].ticket && t.clients[r].opcode == s.clients[r].opcode
         && t.clients[r].payload == s.clients[r].payload
  }

  lemma RegisterKeepsIdentities(s: State, r: ClientId)
    ensures SameIdentities(s, DoRegister(s, r))
  {}

  lemma WriteKeepsIdentities(cfg: Config, s: State, r: ClientId, ok: bool)
    ensures SameIdentities(s, DoWrite(cfg, s, r, ok))
  {}

  lemma ReceiveKeepsIdentities(cfg: Config, s: State, r: ClientId)
    ensures SameIdentities(s, DoReceive(cfg, s, r))
  {}

  lemma TimeoutKeepsIdentities(s: State, r: ClientId)
    ensures SameIdentities(s, DoTimeout(s, r))
  {}

  lemma CancelKeepsIdentities(s: State, r: ClientId)
    ensures SameIdentities(s, DoCancel(s, r))
  {}

  lemma CleanupKeepsIdentities(cfg: Config, s: State, r: ClientId)
    ensures SameIdentities(s, DoCleanup(cfg, s, r))
  {}

  lemma DeliverKeepsIdentities(cfg: Config, s: State, f: Frame, pong: Option<seq<Byte>>)
    ensures SameIdentities(s, DoDeliver(cfg, s, f, pong))
  {}

  lemma FailKeepsIdentities(cfg: Config, s: State, reason: ReadError)
    ensures SameIdentities(s, DoFail(cfg, s, reason))
  {}

  lemma StepKeepsIdentities(cfg: Config, s: State, e: Event)
    requires !e.Start?
    ensures SameIdentities(s, Step(cfg, s, e))
  {
    hide DoRegister, DoWrite, DoReceive, DoTimeout, DoCancel, DoCleanup, DoDeliver, DoFail, SameIdentities;
    match e {
      case Register(r) => RegisterKeepsIdentities(s, r);
      case Write(r, ok) => WriteKeepsIdentities(cfg, s, r, ok);
      case Receive(r) => ReceiveKeepsIdentities(cfg, s, r);
      case Timeout(r) => TimeoutKeepsIdentities(s, r);
      case Cancel(r) => CancelKeepsIdentities(s, r);
      case Cleanup(r) => CleanupKeepsIdentities(cfg, s, r);
      case Deliver(f, pong) => DeliverKeepsIdentities(cfg, s, f, pong);
      case ReaderFails(reason) => FailKeepsIdentities(cfg, s, reason);
    }
  }

  lemma StartKeepsIds(cfg: Config, s: State, r: ClientId, kind: Kind, opcode: u16, payload: seq<Byte>)
    requires IdsOk(s)
    ensures IdsOk(DoStart(cfg, s, r, kind, opcode, payload))
  {
    hide IdOf, NextId;
    NextIdIs(cfg.mode, s.allocs);
  }

  /** The three allocators produce 1, 3, 5, ... and wrap together, so every client's id is
      decided by its ticket. */
  lemma StepKeepsIds(cfg: Config, s: State, e: Event)
    requires IdsOk(s)
    ensures IdsOk(Step(cfg, s, e))
  {
    hide DoRegister, DoWrite, DoReceive, DoTimeout, DoCancel, DoCleanup, DoDeliver, DoFail, DoStart, IdOf;
    if e.Start? {
      StartKeepsIds(cfg, s, e.r, e.kind, e.opcode, e.payload);
    } else {
      StepKeepsIdentities(cfg, s, e);
      var t := Step(cfg, s, e);
      forall p, q | p in t.clients && q in t.clients && t.clients[p].ticket.Some? && p != q
        ensures t.clients[p].ticket != t.clients[q].ticket
      {
        assert s.clients[p].ticket != s.clients[q].ticket;
      }
    }
  }

  // ---- one lemma per step: the invariant ----

  /** A step that leaves a client and the inbound log alone, and gives it no route, keeps it right. */
  lemma Untouched(cfg: Config, s: State, t: State, p: ClientId)
    requires p in s.clients && p in t.clients && t.clients[p] == s.clients[p]
    requires t.inbound == s.inbound && t.closed == s.closed && (t.Routed(p) ==> s.Routed(p))
    requires ClientOk(cfg, s, p)
    ensures ClientOk(cfg, t, p)
  {
    hide OnStream, HasEos, HasError, Read;
  }

  lemma StartKeeps(cfg: Config, s: State, r: ClientId, kind: Kind, opcode: u16, payload: seq<Byte>)
    requires Inv(cfg, s)
    ensures Inv(cfg, DoStart(cfg, s, r, kind, opcode, payload))
  {
    hide OnStream, HasEos, HasError, Read, HandOk, OutcomeOk;
    var t := DoStart(cfg, s, r, kind, opcode, payload);
    if r !in s.clients {
      forall p | p in t.clients
        ensures ClientOk(cfg, t, p)
      {
        if p != r { Untouched(cfg, s, t, p); }
      }
      forall id | id in t.routes
        ensures RouteOk(cfg, t, id)
      {
        assert RouteOk(cfg, s, id);
      }
    }
  }

  lemma NothingSeen(s: State, c: Client)
    requires c.since == |s.inbound|
    ensures Seen(s, c) == [] && Read([]) == Open
  {}

  lemma SeenSame(s: State, t: State, c: Client)
    requires t.inbound == s.inbound
    ensures Seen(t, c) == Seen(s, c)
  {}

  lemma SeenOf(s: State, c: Client, d: Client)
    requires c.since == d.since && c.id == d.id
    ensures Seen(s, c) == Seen(s, d)
  {}

  lemma RegisterKeeps(cfg: Config, s: State, r: ClientId)
    requires Inv(cfg, s)
    ensures Inv(cfg, DoRegister(s, r))
  {
    hide OnStream, HasEos, HasError, Read, Seen;
    var t := DoRegister(s, r);
    if r in s.clients && s.clients[r].phase.Allocated? {
      NothingSeen(t, t.clients[r]);
      NothingEnds();
      assert ClientOk(cfg, s, r);
      assert t.clients[r].got + t.clients[r].queue == [];
      forall p | p in t.clients
        ensures ClientOk(cfg, t, p)
      {
        if p != r { Untouched(cfg, s, t, p); }
      }
      forall id | id in t.routes
        ensures RouteOk(cfg, t, id)
      {
        if t.routes[id] != r {
          assert RouteOk(cfg, s, id);
          SeenSame(s, t, s.clients[s.routes[id]]);
        }
      }
    }
  }

  /** `t` is `s` after a step of the client `r`, which held its id: only its own record changed,
      and at most the route of its id went away. */
  ghost predicate CallerStep(s: State, t: State, r: ClientId) {
    && r in s.clients && s.clients[r].Holds() && r in t.clients
    && t.clients == s.clients[r := t.clients[r]]
    && t.clients[r].id == s.clients[r].id && t.clients[r].since == s.clients[r].since
    && t.inbound == s.inbound && t.closed == s.closed
    && (t.routes == s.routes || t.routes == s.routes - {s.clients[r].id})
  }

  /** Such a step gives nobody a route, so it cannot spoil what another client has. */
  lemma CallerStepKeeps(cfg: Config, s: State, t: State, r: ClientId)
    requires Inv(cfg, s) && CallerStep(s, t, r) && ClientOk(cfg, t, r)
    requires t.Routed(r) ==>
               && (t.clients[r].phase.Done? ==> cfg.mode.Eager? && t.clients[r].phase.outcome == Abandoned(false))
               && (t.clients[r].Decided() ==> !t.clients[r].phase.outcome.ConnClosed?)
               && !t.clients[r].phase.Allocated?
    ensures Inv(cfg, t)
  {
    hide HandOk, OutcomeOk, Seen, HasEos;
    forall p | p in t.clients
      ensures ClientOk(cfg, t, p)
    {
      if p != r { Untouched(cfg, s, t, p); }
    }
    forall id | id in t.routes
      ensures RouteOk(cfg, t, id)
    {
      assert RouteOk(cfg, s, id);
      var q := s.routes[id];
      SeenSame(s, t, s.clients[q]);
      assert Seen(t, t.clients[q]) == Seen(s, s.clients[q]) by { SeenOf(t, t.clients[q], s.clients[q]); }
    }
  }

  lemma InvClient(cfg: Config, s: State, r: ClientId)
    requires Inv(cfg, s) && r in s.clients
    ensures ClientOk(cfg, s, r)
  {}

  lemma InvRoute(cfg: Config, s: State, r: ClientId)
    requires Inv(cfg, s) && r in s.clients && s.Routed(r)
    ensures RouteOk(cfg, s, s.clients[r].id) && s.closed.None?
  {}

  lemma WriteKeeps(cfg: Config, s: State, r: ClientId, ok: bool)
    requires Inv(cfg, s)
    ensures Inv(cfg, DoWrite(cfg, s, r, ok))
  {
    hide OnStream, HasEos, HasError, Read, Inv;
    var t := DoWrite(cfg, s, r, ok);
    if r in s.clients && s.clients[r].phase.Registered? {
      InvClient(cfg, s, r);
      SeenSame(s, t, s.clients[r]);
      SeenOf(t, t.clients[r], s.clients[r]);
      CallerStepKeeps(cfg, s, t, r);
    }
  }

  lemma EndingKeeps(cfg: Config, s: State, r: ClientId)
    requires Inv(cfg, s)
    ensures Inv(cfg, DoTimeout(s, r)) && Inv(cfg, DoCancel(s, r))
  {
    hide OnStream, HasEos, HasError, Read, Inv, Seen, HandOk;
    if r in s.clients {
      InvClient(cfg, s, r);
      if Undecided(s.clients[r]) {
        CallerStepKeeps(cfg, s, DoCancel(s, r), r);
        if s.clients[r].phase.Waiting? && !s.clients[r].kind.Subscribe? {
          CallerStepKeeps(cfg, s, DoTimeout(s, r), r);
        }
      }
    }
  }

  /** What an eager reader has already taken out of the table. */
  lemma NotRouted(cfg: Config, s: State, r: ClientId)
    requires Inv(cfg, s) && r in s.clients && s.clients[r].Decided() && cfg.mode.Eager?
    requires s.clients[r].phase.outcome.Frames? || s.clients[r].phase.outcome.ConnClosed?
    ensures !s.Routed(r)
  {
    hide OnStream, HasEos, HasError, Cut, Read, Inv;
    InvClient(cfg, s, r);
    if s.Routed(r) {
      InvRoute(cfg, s, r);
      var o := s.clients[r].phase.outcome;
      if o.Frames? { CompleteMeans(Seen(s, s.clients[r]), o.frames); }
      assert false;
    }
  }

  lemma CleanupKeeps(cfg: Config, s: State, r: ClientId)
    requires Inv(cfg, s)
    ensures Inv(cfg, DoCleanup(cfg, s, r))
  {
    hide OnStream, HasEos, HasError, Read, Inv;
    if r in s.clients && s.clients[r].phase.Closing? {
      var t := DoCleanup(cfg, s, r);
      InvClient(cfg, s, r);
      SeenSame(s, t, s.clients[r]);
      SeenOf(t, t.clients[r], s.clients[r]);
      if cfg.mode.Eager? && (s.clients[r].phase.outcome.Frames? || s.clients[r].phase.outcome.ConnClosed?) {
        NotRouted(cfg, s, r);
      }
      CallerStepKeeps(cfg, s, t, r);
    }
  }

  /** Taking the head of the channel. */
  lemma PopFacts(got: seq<Frame>, queue: seq<Frame>, seen: seq<Frame>)
    requires !HasEos(got) && !HasError(got) && queue != [] && got + queue <= seen
    ensures var f := queue[0];
            && (f.opcode == OP_ERROR ==> Read(seen) == Refused(f))
            && (f.opcode != OP_ERROR && f.Eos() ==> Read(seen) == Complete(got + [f]))
            && (f.opcode != OP_ERROR && !f.Eos() ==> !HasEos(got + [f]) && !HasError(got + [f]))
            && got + [f] + queue[1..] == got + queue
  {
    hide HasEos, HasError;
    var f, rest := queue[0], seen[|got|..];
    assert seen == got + rest && rest[0] == f;
    ReadPrefix(got, rest);
    HasEosAppend(got, [f]);
    HasEosStep([f]);
    assert [f][1..] == [];
    NothingEnds();
  }

  lemma DryFacts(got: seq<Frame>)
    requires !HasEos(got) && !HasError(got)
    ensures Read(got) == Open
  {
    hide HasEos, HasError;
    ReadPrefix(got, []);
    assert got + [] == got;
  }

  lemma ReceiveKeeps(cfg: Config, s: State, r: ClientId)
    requires Inv(cfg, s)
    ensures Inv(cfg, DoReceive(cfg, s, r))
  {
    hide OnStream, HasEos, HasError, Read, Inv;
    if r in s.clients && s.clients[r].phase.Waiting? {
      var t, c := DoReceive(cfg, s, r), s.clients[r];
      InvClient(cfg, s, r);
      var seen := Seen(s, c);
      SeenSame(s, t, c);
      SeenOf(t, t.clients[r], c);
      if c.queue == [] {
        DryFacts(c.got);
        assert c.got + c.queue == c.got;
        if s.Routed(r) { InvRoute(cfg, s, r); }
      } else {
        PopFacts(c.got, c.queue, seen);
      }
      if t != s {
        CallerStepKeeps(cfg, s, t, r);
      }
    }
  }

  lemma SeenPush(s: State, t: State, c: Client, f: Frame)
    requires t.inbound == s.inbound + [f] && c.since <= |s.inbound|
    ensures Seen(t, c) == if f.opcode != OP_SERVER_PING && f.streamId == c.id then Seen(s, c) + [f] else Seen(s, c)
  {
    OnStreamPush(s.inbound[c.since..], f, c.id);
    assert t.inbound[c.since..] == s.inbound[c.since..] + [f];
  }

  lemma OutcomeStable(cfg: Config, s: State, t: State, o: Outcome, seen: seq<Frame>, more: seq<Frame>)
    requires OutcomeOk(cfg, s, o, seen) && s.closed.None?
    ensures OutcomeOk(cfg, t, o, seen + more)
  {
    if Read(seen) != Open { ReadStable(seen, more); }
  }

  /** Only the route's owner gets a frame, and only of its own stream. */
  lemma DeliverTo(cfg: Config, s: State, f: Frame, pong: Option<seq<Byte>>, p: ClientId)
    requires Inv(cfg, s) && s.closed.None? && p in s.clients
    ensures var t := DoDeliver(cfg, s, f, pong);
            && p in t.clients
            && t.clients[p] == (if f.opcode != OP_SERVER_PING && f.streamId == s.clients[p].id && s.Routed(p)
                                then Push(s.clients[p], f) else s.clients[p])
            && t.Routed(p) ==
               (s.Routed(p) && !(cfg.mode.Eager? && f.Eos() && f.opcode != OP_SERVER_PING && f.streamId == s.clients[p].id))
  {
    hide HasEos, Seen, Pong, ClientOk;
    if f.opcode != OP_SERVER_PING && f.streamId in s.routes { assert RouteOk(cfg, s, f.streamId); }
  }

  lemma DeliverClient(cfg: Config, s: State, f: Frame, pong: Option<seq<Byte>>, p: ClientId)
    requires Inv(cfg, s) && s.closed.None? && p in s.clients
    ensures p in DoDeliver(cfg, s, f, pong).clients && ClientOk(cfg, DoDeliver(cfg, s, f, pong), p)
  {
    hide OnStream, HasEos, HasError, Read, Seen, Inv, OutcomeOk;
    var t, c := DoDeliver(cfg, s, f, pong), s.clients[p];
    InvClient(cfg, s, p);
    DeliverTo(cfg, s, f, pong, p);
    if s.Routed(p) { InvRoute(cfg, s, p); }
    assert t.inbound == s.inbound + [f] && t.closed == s.closed;
    hide DoDeliver;
    SeenPush(s, t, c, f);
    SeenOf(t, t.clients[p], c);
    var seen := Seen(s, c);
    assert c.got + (c.queue + [f]) == c.got + c.queue + [f];
    if c.Decided() {
      OutcomeStable(cfg, s, t, c.phase.outcome, seen, [f]);
      OutcomeStable(cfg, s, t, c.phase.outcome, seen, []);
      assert seen + [] == seen;
    }
  }

  lemma DeliverRoutes(cfg: Config, s: State, f: Frame, pong: Option<seq<Byte>>, id: u32)
    requires Inv(cfg, s) && s.closed.None? && id in DoDeliver(cfg, s, f, pong).routes
    ensures RouteOk(cfg, DoDeliver(cfg, s, f, pong), id)
  {
    hide OnStream, HasEos, HasError, Read, Pong, Seen;
    var t := DoDeliver(cfg, s, f, pong);
    assert RouteOk(cfg, s, id);
    if f.opcode != OP_SERVER_PING && f.streamId in s.routes { assert RouteOk(cfg, s, f.streamId); }
    var r := s.routes[id];
    assert ClientOk(cfg, s, r);
    SeenPush(s, t, s.clients[r], f);
    SeenOf(t, t.clients[r], s.clients[r]);
    HasEosAppend(Seen(s, s.clients[r]), [f]);
    HasEosStep([f]);
    assert [f][1..] == [];
    NothingEnds();
  }

  lemma DeliverKeeps(cfg: Config, s: State, f: Frame, pong: Option<seq<Byte>>)
    requires Inv(cfg, s)
    ensures Inv(cfg, DoDeliver(cfg, s, f, pong))
  {
    hide ClientOk, RouteOk;
    var t := DoDeliver(cfg, s, f, pong);
    if s.closed.None? {
      forall p | p in t.clients
        ensures ClientOk(cfg, t, p)
      {
        DeliverClient(cfg, s, f, pong, p);
      }
      forall id | id in t.routes
        ensures RouteOk(cfg, t, id)
      {
        DeliverRoutes(cfg, s, f, pong, id);
      }
    }
  }

  lemma FailKeeps(cfg: Config, s: State, reason: ReadError)
    requires Inv(cfg, s)
    ensures Inv(cfg, DoFail(cfg, s, reason))
  {
    hide OnStream, HasEos, HasError, Read, Seen;
    var t := DoFail(cfg, s, reason);
    if s.closed.None? {
      forall p | p in t.clients
        ensures ClientOk(cfg, t, p)
      {
        assert ClientOk(cfg, s, p);
        SeenSame(s, t, s.clients[p]);
        SeenOf(t, t.clients[p], s.clients[p]);
      }
    }
  }

  lemma StepKeeps(cfg: Config, s: State, e: Event)
    requires Inv(cfg, s)
    ensures Inv(cfg, Step(cfg, s, e))
  {
    hide DoStart, DoRegister, DoWrite, DoReceive, DoTimeout, DoCancel, DoCleanup, DoDeliver, DoFail, Inv;
    match e {
      case Start(r, kind, opcode, payload) => StartKeeps(cfg, s, r, kind, opcode, payload);
      case Register(r) => RegisterKeeps(cfg, s, r);
      case Write(r, ok) => WriteKeeps(cfg, s, r, ok);
      case Receive(r) => ReceiveKeeps(cfg, s, r);
      case Timeout(r) => EndingKeeps(cfg, s, r);
      case Cancel(r) => EndingKeeps(cfg, s, r);
      case Cleanup(r) => CleanupKeeps(cfg, s, r);
      case Deliver(f, pong) => DeliverKeeps(cfg, s, f, pong);
      case ReaderFails(reason) => FailKeeps(cfg, s, reason);
    }
  }

  /** The invariant holds in every state of every run. */
  lemma {:induction false} RunKeeps(cfg: Config, es: seq<Event>)
    ensures Inv(cfg, Run(cfg, es))
    decreases |es|
  {
    hide Inv, Step;
    if |es| == 0 {
      assert Inv(cfg, INITIAL) by { InitialInv(cfg); }
    } else {
      RunKeeps(cfg, es[..|es| - 1]);
      StepKeeps(cfg, Run(cfg, es[..|es| - 1]), es[|es| - 1]);
    }
  }

  lemma InitialInv(cfg: Config)
    ensures Inv(cfg, INITIAL)
  {}

  /** In every run the k-th allocated id is `IdOf(k)`, whichever client allocated it. */
  lemma {:induction false} RunKeepsIds(cfg: Config, es: seq<Event>)
    ensures IdsOk(Run(cfg, es))
    decreases |es|
  {
    hide Step;
    if |es| > 0 {
      RunKeepsIds(cfg, es[..|es| - 1]);
      StepKeepsIds(cfg, Run(cfg, es[..|es| - 1]), es[|es| - 1]);
    }
  }
}
