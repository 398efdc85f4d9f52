/**
 Who is in the route table: a client keeps its route until its stream ends, the connection does, or
 another client takes or removes the entry of the same id.
 */
module MuxRoutes {
  import opened Bytes
  import opened Wrappers
  import opened FrameCodec
  import opened FrameStream
  import opened Answers
  import opened Mux
  import opened MuxInvariant

  lemma RunPush(cfg: Config, es: seq<Event>, e: Event)
    ensures Run(cfg, es + [e]) == Step(cfg, Run(cfg, es), e)
  {
    hide Step;
    assert (es + [e])[..|es|] == es;
  }

  // ---- clients only move forward ----

  /** A registered client keeps its id, its kind and its starting point, and an outcome once it has
      one; who has decided stays decided. */
  predicate SameRecord(c: Client, d: Client) {
    && d.id == c.id && d.kind == c.kind && d.since == c.since && !d.phase.Allocated?
    && (c.Decided() ==> d.Decided() && d.phase.outcome == c.phase.outcome)
    && (c.phase.Done? ==> d.phase.Done?)
  }

  /** An event of one caller, rather than of the reader or a newcomer. */
  predicate OfCaller(e: Event) { !e.Deliver? && !e.ReaderFails? && !e.Start? }

  lemma StepKeepsRecord(cfg: Config, s: State, e: Event, r: ClientId)
    requires r in s.clients && !s.clients[r].phase.Allocated?
    ensures var t := Step(cfg, s, e);
            r in t.clients && SameRecord(s.clients[r], t.clients[r])
  {
    match e {
      case Deliver(f, pong) => DeliverKeepsRecord(cfg, s, f, pong, r);
      case ReaderFails(reason) =>
      case Start(_, _, _, _) =>
      case _ =>
        if e.r != r {
          OtherKeepsRecord(cfg, s, e, r);
        } else {
          hide Step;
          OwnKeepsRecord(cfg, s, e, r);
        }
    }
  }

  lemma DeliverKeepsRecord(cfg: Config, s: State, f: Frame, pong: Option<seq<Byte>>, r: ClientId)
    requires r in s.clients
    ensures var t := DoDeliver(cfg, s, f, pong);
            && r in t.clients
            && t.clients[r] == s.clients[r].(queue := t.clients[r].queue)
  {}

  lemma OtherKeepsRecord(cfg: Config, s: State, e: Event, r: ClientId)
    requires r in s.clients && OfCaller(e) && e.r != r
    ensures var t := Step(cfg, s, e); r in t.clients && t.clients[r] == s.clients[r]
  {}

  lemma OwnKeepsRecord(cfg: Config, s: State, e: Event, r: ClientId)
    requires r in s.clients && !s.clients[r].phase.Allocated? && OfCaller(e) && e.r == r
    ensures var t := Step(cfg, s, e);
            r in t.clients && SameRecord(s.clients[r], t.clients[r])
  {}

  /** Over any run: once a client has registered, the point it counts its stream from is fixed, and
      once it has an outcome, that is. */
  lemma {:induction false} RecordIsFixed(cfg: Config, es: seq<Event>, more: seq<Event>, r: ClientId)
    requires r in Run(cfg, es).clients && !Run(cfg, es).clients[r].phase.Allocated?
    ensures r in Run(cfg, es + more).clients
    ensures SameRecord(Run(cfg, es).clients[r], Run(cfg, es + more).clients[r])
    decreases |more|
  {
    hide Step;
    if |more| == 0 {
      assert es + more == es;
    } else {
      var before, e := more[..|more| - 1], more[|more| - 1];
      RecordIsFixed(cfg, es, before, r);
      assert es + more == (es + before) + [e];
      RunPush(cfg, es + before, e);
      hide Run;
      StepKeepsRecord(cfg, Run(cfg, es + before), e, r);
    }
  }

  // ---- losing a route to somebody else ----

  /** A lazy subscription that drops its route as it reads its last frame. */
  predicate EndsSubscription(cfg: Config, s: State, q: ClientId) {
    && cfg.mode.Lazy? && q in s.clients && s.clients[q].kind.Subscribe? && s.clients[q].phase.Waiting?
    && DoReceive(cfg, s, q).clients[q].phase.Closing?
  }

  /** Another client registers on the id of `r`, or removes that id. */
  predicate Disturbs(cfg: Config, s: State, e: Event, r: ClientId)
    requires r in s.clients
  {
    match e
    case Register(q) =>
      q != r && q in s.clients && s.clients[q].id == s.clients[r].id
      && s.clients[q].phase.Allocated? && s.closed.None?
    case Cleanup(q) =>
      q != r && q in s.clients && s.clients[q].id == s.clients[r].id
      && s.clients[q].phase.Closing? && RemovesRoute(cfg, s.clients[q], s.clients[q].phase.outcome)
    case Receive(q) =>
      q != r && q in s.clients && s.clients[q].id == s.clients[r].id && EndsSubscription(cfg, s, q)
    case _ => false
  }

  predicate HasRegistered(s: State, r: ClientId) { r in s.clients && !s.clients[r].phase.Allocated? }

  /** Some event since `r` registered did that. */
  predicate Displaced(cfg: Config, es: seq<Event>, r: ClientId)
    decreases |es|
  {
    |es| > 0
    && var before, e := es[..|es| - 1], es[|es| - 1];
       var s := Run(cfg, before);
       HasRegistered(s, r) && (Displaced(cfg, before, r) || Disturbs(cfg, s, e, r))
  }

  /** Some event did that while `r` had no outcome yet. */
  predicate DisplacedWaiting(cfg: Config, es: seq<Event>, r: ClientId)
    decreases |es|
  {
    |es| > 0
    && var before, e := es[..|es| - 1], es[|es| - 1];
       var s := Run(cfg, before);
       HasRegistered(s, r)
       && (DisplacedWaiting(cfg, before, r) || (Undecided(s.clients[r]) && Disturbs(cfg, s, e, r)))
  }

  /** While a client has no outcome the two are the same. */
  lemma {:induction false} DisplacedWhileWaiting(cfg: Config, es: seq<Event>, r: ClientId)
    ensures DisplacedWaiting(cfg, es, r) ==> Displaced(cfg, es, r)
    ensures HasRegistered(Run(cfg, es), r) && Undecided(Run(cfg, es).clients[r]) && Displaced(cfg, es, r)
            ==> DisplacedWaiting(cfg, es, r)
    decreases |es|
  {
    hide Step, Disturbs;
    if |es| > 0 {
      var before, e := es[..|es| - 1], es[|es| - 1];
      DisplacedWhileWaiting(cfg, before, r);
      var s := Run(cfg, before);
      if HasRegistered(s, r) { StepKeepsRecord(cfg, s, e, r); }
    }
  }

  // ---- the exact condition for having a route ----

  /** A client that has not itself removed the route of its id. */
  predicate KeepsRoute(cfg: Config, c: Client) {
    || Undecided(c)
    || (cfg.mode.Eager? && c.phase.Closing?)
    || (cfg.mode.Eager? && c.phase.Done? && !RemovesRoute(cfg, c, c.phase.outcome))
  }

  ghost predicate InTable(cfg: Config, s: State, r: ClientId, displaced: bool)
    requires r in s.clients
  {
    s.Routed(r) <==> s.closed.None? && (cfg.mode.Eager? ==> !HasEos(Seen(s, s.clients[r]))) && !displaced
  }

  /** The first step after which a client counts: its registration, or the refusal. */
  lemma Fresh(cfg: Config, s: State, e: Event, r: ClientId)
    requires Inv(cfg, s) && !HasRegistered(s, r) && HasRegistered(Step(cfg, s, e), r)
    ensures e == Register(r) && InTable(cfg, Step(cfg, s, e), r, false)
  {
    hide OnStream, HasEos, HasError, Read, ClientOk, RouteOk;
    var t := Step(cfg, s, e);
    if OfCaller(e) && r in s.clients && e.r != r { OtherKeepsRecord(cfg, s, e, r); }
    if e.Deliver? && r in s.clients { DeliverKeepsRecord(cfg, s, e.frame, e.pong, r); }
    if e == Register(r) {
      NothingSeen(t, t.clients[r]);
      NothingEnds();
    }
  }

  lemma ReceiveRoute(cfg: Config, s: State, q: ClientId, r: ClientId)
    requires HasRegistered(s, r) && KeepsRoute(cfg, DoReceive(cfg, s, q).clients[r])
    ensures var t := DoReceive(cfg, s, q);
            && t.Routed(r) == (s.Routed(r) && !Disturbs(cfg, s, Receive(q), r))
            && KeepsRoute(cfg, s.clients[r]) && t.inbound == s.inbound && t.closed == s.closed
  {
    hide RemovesRoute, ChannelClosed;
  }

  /** Steps of callers move only their own id's entry. */
  lemma CallerRoute(cfg: Config, s: State, e: Event, r: ClientId)
    requires HasRegistered(s, r) && OfCaller(e)
    requires r in Step(cfg, s, e).clients && KeepsRoute(cfg, Step(cfg, s, e).clients[r])
    ensures Step(cfg, s, e).Routed(r) == (s.Routed(r) && !Disturbs(cfg, s, e, r))
    ensures KeepsRoute(cfg, s.clients[r])
    ensures var t := Step(cfg, s, e); t.inbound == s.inbound && t.closed == s.closed
  {
    hide ChannelClosed, DoReceive;
    match e {
      case Register(q) =>
      case Write(q, ok) =>
      case Receive(q) => ReceiveRoute(cfg, s, q, r);
      case Timeout(q) =>
      case Cancel(q) =>
      case Cleanup(q) =>
    }
  }

  lemma DeliverRoute(cfg: Config, s: State, f: Frame, pong: Option<seq<Byte>>, r: ClientId, d: bool)
    requires Inv(cfg, s) && HasRegistered(s, r) && InTable(cfg, s, r, d)
    ensures var t := DoDeliver(cfg, s, f, pong); r in t.clients && InTable(cfg, t, r, d)
  {
    hide OnStream, HasEos, HasError, Read, Seen, Pong, Inv;
    var t, c := DoDeliver(cfg, s, f, pong), s.clients[r];
    DeliverKeepsRecord(cfg, s, f, pong, r);
    if s.closed.None? {
      InvClient(cfg, s, r);
      DeliverTo(cfg, s, f, pong, r);
      SeenPush(s, t, c, f);
      SeenOf(t, t.clients[r], c);
      HasEosAppend(Seen(s, c), [f]);
      HasEosStep([f]);
      assert [f][1..] == [];
      NothingEnds();
    }
  }

  /** One step moves a client in or out of the table as the condition says. */
  lemma StepRoute(cfg: Config, s: State, e: Event, r: ClientId, d: bool)
    requires Inv(cfg, s) && HasRegistered(s, r) && (KeepsRoute(cfg, s.clients[r]) ==> InTable(cfg, s, r, d))
    requires r in Step(cfg, s, e).clients && KeepsRoute(cfg, Step(cfg, s, e).clients[r])
    ensures InTable(cfg, Step(cfg, s, e), r, d || Disturbs(cfg, s, e, r))
  {
    hide OnStream, HasEos, HasError, Read, Seen, Inv, DoReceive, DoDeliver;
    var t := Step(cfg, s, e);
    StepKeepsRecord(cfg, s, e, r);
    if OfCaller(e) {
      CallerRoute(cfg, s, e, r);
      hide Step, Disturbs;
      SeenSame(s, t, s.clients[r]);
      SeenOf(t, t.clients[r], s.clients[r]);
    } else if e.Deliver? {
      DeliverKeepsRecord(cfg, s, e.frame, e.pong, r);
      DeliverRoute(cfg, s, e.frame, e.pong, r, d);
    } else {
      SeenSame(s, t, s.clients[r]);
      SeenOf(t, t.clients[r], s.clients[r]);
    }
  }

  /** In every run, a client that has not itself removed its route is in the table exactly while the
      connection is open, its stream has not ended (Rust), and nobody else has registered on its id
      or removed that id since it registered. */
  lemma {:induction false} RoutedIff(cfg: Config, es: seq<Event>, r: ClientId)
    requires HasRegistered(Run(cfg, es), r) && KeepsRoute(cfg, Run(cfg, es).clients[r])
    ensures InTable(cfg, Run(cfg, es), r, Displaced(cfg, es, r))
    decreases |es|
  {
    hide Step, Inv, InTable, Disturbs, KeepsRoute;
    var before, e := es[..|es| - 1], es[|es| - 1];
    var s := Run(cfg, before);
    RunKeeps(cfg, before);
    if HasRegistered(s, r) {
      if KeepsRoute(cfg, s.clients[r]) { RoutedIff(cfg, before, r); }
      StepRoute(cfg, s, e, r, Displaced(cfg, before, r));
    } else {
      Fresh(cfg, s, e, r);
    }
  }

  // ---- what an undisturbed client has ----

  /** A waiting client has its stream's frames, up to EOS, in hand or queued; and (lazy) its queue is
      marked exactly when the connection closed. */
  ghost predicate WaitOk(cfg: Config, s: State, r: ClientId)
    requires r in s.clients
  {
    var c := s.clients[r];
    && Cut(c.got + c.queue) == Cut(Seen(s, c))
    && (cfg.mode.Lazy? ==> (c.sunk <==> s.closed.Some?))
  }

  /** And `closed` was told only about a connection that closed before the stream gave an answer. */
  ghost predicate WholeOk(cfg: Config, s: State, r: ClientId)
    requires r in s.clients
  {
    var c := s.clients[r];
    && (Undecided(c) ==> WaitOk(cfg, s, r))
    && (c.Decided() && c.phase.outcome.ConnClosed? ==>
          s.closed.Some? && c.phase.outcome.reason == s.closed && Read(Seen(s, c)) == Open)
  }

  lemma FreshIsWhole(cfg: Config, s: State, e: Event, r: ClientId)
    requires Inv(cfg, s) && !HasRegistered(s, r) && HasRegistered(Step(cfg, s, e), r)
    ensures WholeOk(cfg, Step(cfg, s, e), r)
  {
    hide OnStream, HasEos, HasError, Read, HandOk, RouteOk, Cut;
    Fresh(cfg, s, e, r);
    var t := Step(cfg, s, e);
    InvClient(cfg, s, r);
    NothingSeen(t, t.clients[r]);
    assert t.clients[r].got + t.clients[r].queue == [];
  }

  /** The channel ran dry and is closed: then the connection is, and the stream gave no answer. */
  lemma DryChannel(cfg: Config, s: State, r: ClientId)
    requires Inv(cfg, s) && r in s.clients && s.clients[r].phase.Waiting? && s.clients[r].queue == []
    requires WaitOk(cfg, s, r) && InTable(cfg, s, r, false)
    ensures Read(Seen(s, s.clients[r])) == Open && !HasEos(Seen(s, s.clients[r]))
    ensures ChannelClosed(cfg, s, r) <==> s.closed.Some?
  {
    hide OnStream, HasEos, HasError, Read, Cut, Seen, Inv;
    var c := s.clients[r];
    InvClient(cfg, s, r);
    assert c.got + c.queue == c.got;
    DryFacts(c.got);
    ReadCut(c.got);
    ReadCut(Seen(s, c));
    CutEnds(c.got);
    CutEnds(Seen(s, c));
  }

  lemma ReceiveWhole(cfg: Config, s: State, r: ClientId)
    requires Inv(cfg, s) && r in s.clients && s.clients[r].phase.Waiting?
    requires WaitOk(cfg, s, r) && InTable(cfg, s, r, false)
    ensures r in DoReceive(cfg, s, r).clients && WholeOk(cfg, DoReceive(cfg, s, r), r)
  {
    hide OnStream, HasEos, HasError, Read, Cut, Seen, Inv, InTable, ChannelClosed;
    var t, c := DoReceive(cfg, s, r), s.clients[r];
    SeenSame(s, t, c);
    SeenOf(t, t.clients[r], c);
    if c.queue == [] {
      DryChannel(cfg, s, r);
    } else {
      assert c.got + [c.queue[0]] + c.queue[1..] == c.got + c.queue;
    }
  }

  lemma DeliverWhole(cfg: Config, s: State, f: Frame, pong: Option<seq<Byte>>, r: ClientId)
    requires Inv(cfg, s) && HasRegistered(s, r) && WholeOk(cfg, s, r)
    requires Undecided(s.clients[r]) ==> InTable(cfg, s, r, false)
    ensures r in DoDeliver(cfg, s, f, pong).clients && WholeOk(cfg, DoDeliver(cfg, s, f, pong), r)
  {
    hide OnStream, HasEos, HasError, Read, Cut, Seen, Inv, Pong;
    var t, c := DoDeliver(cfg, s, f, pong), s.clients[r];
    DeliverKeepsRecord(cfg, s, f, pong, r);
    if s.closed.None? && Undecided(c) {
      InvClient(cfg, s, r);
      DeliverTo(cfg, s, f, pong, r);
      assert t.inbound == s.inbound + [f] && t.closed == s.closed;
      hide DoDeliver;
      SeenPush(s, t, c, f);
      SeenOf(t, t.clients[r], c);
      var seen := Seen(s, c);
      if s.Routed(r) {
        CutPush(c.got + c.queue, seen, f);
        assert c.got + (c.queue + [f]) == c.got + c.queue + [f];
      } else {
        CutAppend(seen, [f]);
      }
    }
  }

  lemma FailWhole(cfg: Config, s: State, reason: ReadError, r: ClientId)
    requires Inv(cfg, s) && HasRegistered(s, r) && WholeOk(cfg, s, r)
    requires Undecided(s.clients[r]) ==> InTable(cfg, s, r, false)
    ensures r in DoFail(cfg, s, reason).clients && WholeOk(cfg, DoFail(cfg, s, reason), r)
  {
    hide OnStream, HasEos, HasError, Read, Cut, Seen, Inv;
    var t := DoFail(cfg, s, reason);
    SeenSame(s, t, s.clients[r]);
    SeenOf(t, t.clients[r], s.clients[r]);
  }

  lemma CallerWhole(cfg: Config, s: State, e: Event, r: ClientId)
    requires Inv(cfg, s) && HasRegistered(s, r) && WholeOk(cfg, s, r) && OfCaller(e)
    requires Undecided(s.clients[r]) ==> InTable(cfg, s, r, false)
    ensures r in Step(cfg, s, e).clients && WholeOk(cfg, Step(cfg, s, e), r)
  {
    hide OnStream, HasEos, HasError, Read, Cut, Seen, Inv, InTable;
    var t := Step(cfg, s, e);
    StepKeepsRecord(cfg, s, e, r);
    if e.r != r {
      OtherKeepsRecord(cfg, s, e, r);
      CallerSees(cfg, s, e);
      hide Step;
      SeenSame(s, t, s.clients[r]);
    } else if e.Receive? && s.clients[r].phase.Waiting? {
      ReceiveWhole(cfg, s, r);
    } else {
      CallerSees(cfg, s, e);
      SeenSame(s, t, s.clients[r]);
      SeenOf(t, t.clients[r], s.clients[r]);
    }
  }

  lemma CallerSees(cfg: Config, s: State, e: Event)
    requires OfCaller(e)
    ensures var t := Step(cfg, s, e); t.inbound == s.inbound && t.closed == s.closed
  {}

  lemma StepWhole(cfg: Config, s: State, e: Event, r: ClientId)
    requires Inv(cfg, s) && HasRegistered(s, r) && WholeOk(cfg, s, r)
    requires Undecided(s.clients[r]) ==> InTable(cfg, s, r, false)
    ensures r in Step(cfg, s, e).clients && WholeOk(cfg, Step(cfg, s, e), r)
  {
    hide WholeOk, Inv, InTable;
    match e {
      case Deliver(f, pong) => DeliverWhole(cfg, s, f, pong, r);
      case ReaderFails(reason) => FailWhole(cfg, s, reason, r);
      case Start(q, kind, opcode, payload) => StartWhole(cfg, s, e, r);
      case _ => CallerWhole(cfg, s, e, r);
    }
  }

  lemma StartWhole(cfg: Config, s: State, e: Event, r: ClientId)
    requires HasRegistered(s, r) && WholeOk(cfg, s, r) && e.Start?
    ensures r in Step(cfg, s, e).clients && WholeOk(cfg, Step(cfg, s, e), r)
  {
    hide OnStream, HasEos, Read, Cut;
  }

  /** In every run a client that nobody displaced before it had an outcome has all of its stream, and
      was told `closed` only if the connection is. */
  lemma {:induction false} UndisplacedIsWhole(cfg: Config, es: seq<Event>, r: ClientId)
    requires HasRegistered(Run(cfg, es), r) && !DisplacedWaiting(cfg, es, r)
    ensures WholeOk(cfg, Run(cfg, es), r)
    decreases |es|
  {
    hide Step, Inv, InTable, Disturbs, KeepsRoute, WholeOk, Undecided;
    var before, e := es[..|es| - 1], es[|es| - 1];
    var s := Run(cfg, before);
    RunKeeps(cfg, before);
    if HasRegistered(s, r) {
      UndisplacedIsWhole(cfg, before, r);
      if Undecided(s.clients[r]) {
        DisplacedWhileWaiting(cfg, before, r);
        assert KeepsRoute(cfg, s.clients[r]) by { UndecidedKeeps(cfg, s.clients[r]); }
        RoutedIff(cfg, before, r);
      }
      StepWhole(cfg, s, e, r);
    } else {
      FreshIsWhole(cfg, s, e, r);
    }
  }

  lemma UndecidedKeeps(cfg: Config, c: Client)
    requires Undecided(c)
    ensures KeepsRoute(cfg, c)
  {}

  // ---- a condition a caller can count ----

  predicate HoldsId(s: State, p: ClientId, id: u32) {
    p in s.clients && s.clients[p].Holds() && s.clients[p].id == id
  }

  /** At most one client holds this stream id. */
  ghost predicate Alone(s: State, id: u32) {
    forall p, q :: HoldsId(s, p, id) && HoldsId(s, q, id) ==> p == q
  }

  ghost predicate AloneRun(cfg: Config, es: seq<Event>, id: u32)
    decreases |es|
  {
    Alone(Run(cfg, es), id) && (|es| > 0 ==> AloneRun(cfg, es[..|es| - 1], id))
  }

  lemma AloneStep(cfg: Config, s: State, e: Event, r: ClientId)
    requires HasRegistered(s, r) && Undecided(s.clients[r])
    requires Alone(s, s.clients[r].id) && Alone(Step(cfg, s, e), s.clients[r].id)
    ensures !Disturbs(cfg, s, e, r)
  {
    hide DoReceive, RemovesRoute;
    assert HoldsId(s, r, s.clients[r].id);
    if Disturbs(cfg, s, e, r) {
      TwoHold(cfg, s, e, r);
    }
  }

  /** Whoever disturbs a waiting client holds its id, before the step or after it. */
  lemma TwoHold(cfg: Config, s: State, e: Event, r: ClientId)
    requires HasRegistered(s, r) && Undecided(s.clients[r]) && Disturbs(cfg, s, e, r)
    ensures e.r != r
    ensures HoldsId(s, e.r, s.clients[r].id)
            || (HoldsId(Step(cfg, s, e), e.r, s.clients[r].id) && HoldsId(Step(cfg, s, e), r, s.clients[r].id))
  {
    hide DoReceive, RemovesRoute;
  }

  /** A client whose id nobody else held meanwhile was not displaced. */
  lemma {:induction false} AloneIsUndisplaced(cfg: Config, es: seq<Event>, r: ClientId)
    requires r in Run(cfg, es).clients && AloneRun(cfg, es, Run(cfg, es).clients[r].id)
    ensures !DisplacedWaiting(cfg, es, r)
    decreases |es|
  {
    hide Step, Alone, Disturbs;
    if |es| > 0 {
      var before, e := es[..|es| - 1], es[|es| - 1];
      var s := Run(cfg, before);
      if HasRegistered(s, r) {
        StepKeepsRecord(cfg, s, e, r);
        AloneIsUndisplaced(cfg, before, r);
        if Undecided(s.clients[r]) { AloneStep(cfg, s, e, r); }
      }
    }
  }
}
