/** What the multiplexer guarantees over whole runs. */
module MuxTheorems {
  import opened Bytes
  import opened Wrappers
  import opened FrameCodec
  import opened FrameStream
  import opened Answers
  import opened Mux
  import opened MuxInvariant
  import opened MuxRoutes

  // ---- stream ids ----

  /** Any 2^31 consecutive ids are distinct, odd, and so never the handshake stream. */
  lemma IdsDistinct(j: nat, k: nat)
    requires j < k < j + 0x8000_0000
    ensures IdOf(j) != IdOf(k) && IdOf(j) % 2 == 1 && IdOf(j) != HANDSHAKE_STREAM_ID
  {}

  /** And no more than that: the next id is the first again. */
  lemma IdsRepeat(k: nat)
    ensures IdOf(k + 0x8000_0000) == IdOf(k)
  {}

  /** Fewer than 2^31 ids were allocated since that of each holder of this id, and stream 0 has at
      most one holder. */
  ghost predicate Young(s: State, id: u32) {
    && (forall r :: HoldsId(s, r, id) && s.clients[r].ticket.Some? ==>
          s.allocs - s.clients[r].ticket.value <= 0x8000_0000)
    && (id == HANDSHAKE_STREAM_ID ==> Alone(s, id))
  }

  lemma YoungIsAlone(s: State, id: u32)
    requires IdsOk(s) && Young(s, id)
    ensures Alone(s, id)
  {
    hide IdOf;
    forall p, q | HoldsId(s, p, id) && HoldsId(s, q, id) && id != HANDSHAKE_STREAM_ID
      ensures p == q
    {
      var c, d := s.clients[p], s.clients[q];
      assert p != q ==> c.ticket != d.ticket;
      if c.ticket.value < d.ticket.value {
        IdsDistinct(c.ticket.value, d.ticket.value);
      } else if d.ticket.value < c.ticket.value {
        IdsDistinct(d.ticket.value, c.ticket.value);
      }
    }
  }

  ghost predicate YoungRun(cfg: Config, es: seq<Event>, id: u32)
    decreases |es|
  {
    Young(Run(cfg, es), id) && (|es| > 0 ==> YoungRun(cfg, es[..|es| - 1], id))
  }

  /** What a caller can count, about its own id alone: no id is reused while its holder lives, because
      fewer than 2^31 ids were allocated meanwhile, and stream 0 is used by one at a time.  Then
      nobody shares the id, whatever the other streams do. */
  lemma {:induction false} YoungRunIsAlone(cfg: Config, es: seq<Event>, id: u32)
    requires YoungRun(cfg, es, id)
    ensures AloneRun(cfg, es, id)
    decreases |es|
  {
    hide Young, Alone, Step, IdsOk;
    RunKeepsIds(cfg, es);
    YoungIsAlone(Run(cfg, es), id);
    if |es| > 0 { YoungRunIsAlone(cfg, es[..|es| - 1], id); }
  }

  // ---- what a request gets ----

  /** `i` is the first ERROR frame of `x`, with no EOS before it. */
  ghost predicate FirstError(x: seq<Frame>, i: nat, f: Frame) {
    i < |x| && x[i] == f && f.opcode == OP_ERROR && !HasEos(x[..i]) && !HasError(x[..i])
  }

  /** In every run, whatever the other streams, the timers and the failures do: a request that returns
      frames returns exactly the frames of its stream since its registration, up to and including
      the first EOS; one that reports a server error reports the stream's first ERROR frame; one
      that nobody displaced reports a closed connection only when it is closed and neither had
      come, and a lazy one never reports it otherwise. */
  lemma OutcomeIsTheStream(cfg: Config, es: seq<Event>, r: ClientId)
    requires r in Run(cfg, es).clients && Run(cfg, es).clients[r].Decided()
    ensures var s := Run(cfg, es);
            var seen := Seen(s, s.clients[r]);
            match s.clients[r].phase.outcome
            case Frames(fs) => HasEos(seen) && fs == Cut(seen) && !HasError(fs)
            case ServerError(f) => exists i: nat :: FirstError(seen, i, f)
            case ConnClosed(reason) =>
              && (cfg.mode.Lazy? || !DisplacedWaiting(cfg, es, r) ==>
                    s.closed.Some? && reason == s.closed && Read(seen) == Open)
              && (reason.Some? ==> reason == s.closed)
            case _ => true
  {
    hide Step, Read, Cut, HasEos, HasError, Seen, HandOk;
    RunKeeps(cfg, es);
    var s := Run(cfg, es);
    InvClient(cfg, s, r);
    if !DisplacedWaiting(cfg, es, r) { UndisplacedIsWhole(cfg, es, r); }
    var seen := Seen(s, s.clients[r]);
    match s.clients[r].phase.outcome {
      case Frames(fs) => CompleteMeans(seen, fs);
      case ServerError(f) =>
        RefusedMeans(seen, f);
        var i :| 0 <= i < |seen| && seen[i] == f && f.opcode == OP_ERROR && !HasEos(seen[..i]) && !HasError(seen[..i]);
        assert FirstError(seen, i, f);
      case _ =>
    }
  }

  /** The first of these by itself: a response is the stream, in every run. */
  lemma ResponseIsTheStream(cfg: Config, es: seq<Event>, r: ClientId, fs: seq<Frame>)
    requires r in Run(cfg, es).clients && Run(cfg, es).clients[r].phase == Done(Frames(fs))
    ensures var seen := Seen(Run(cfg, es), Run(cfg, es).clients[r]);
            HasEos(seen) && fs == Cut(seen) && !HasError(fs)
  {
    hide Step, Run, Seen;
    OutcomeIsTheStream(cfg, es, r);
  }

  // ---- what somebody else's request can do to it ----

  /** Told `closed` on an open connection: that happens exactly to a Rust client whose id another
      client registered or removed, once what it had before is used up. */
  lemma ToldClosedIff(cfg: Config, es: seq<Event>, r: ClientId)
    requires var s := Run(cfg, es);
             r in s.clients && s.clients[r].phase.Waiting? && s.clients[r].queue == [] && s.closed.None?
    ensures var t := DoReceive(cfg, Run(cfg, es), r);
            r in t.clients && (t.clients[r].phase == Closing(ConnClosed(None)) <==> cfg.mode.Eager? && Displaced(cfg, es, r))
  {
    hide Step, Inv, Seen, HasEos, HasError, Cut, Read, WaitOk;
    var s := Run(cfg, es);
    RunKeeps(cfg, es);
    InvClient(cfg, s, r);
    RoutedIff(cfg, es, r);
    DisplacedWhileWaiting(cfg, es, r);
    if !Displaced(cfg, es, r) {
      UndisplacedIsWhole(cfg, es, r);
      DryChannel(cfg, s, r);
    }
  }

  /** And no displaced client gets another frame, in any mode: what it has in hand and queued stays as
      it is until it ends. */
  lemma {:induction false} DisplacedStarves(cfg: Config, es: seq<Event>, more: seq<Event>, r: ClientId)
    requires HasRegistered(Run(cfg, es), r) && Displaced(cfg, es, r)
    requires r in Run(cfg, es + more).clients && Undecided(Run(cfg, es + more).clients[r])
    ensures Displaced(cfg, es + more, r) && Undecided(Run(cfg, es).clients[r])
    ensures var c, d := Run(cfg, es).clients[r], Run(cfg, es + more).clients[r];
            d.got + d.queue == c.got + c.queue
    decreases |more|
  {
    hide Step, Disturbs, InTable;
    if |more| == 0 {
      assert es + more == es;
    } else {
      var before, e := more[..|more| - 1], more[|more| - 1];
      var all := es + before;
      assert es + more == all + [e] && (all + [e])[..|all|] == all;
      RecordIsFixed(cfg, es, before, r);
      var s := Run(cfg, all);
      StepKeepsRecord(cfg, s, e, r);
      DisplacedStarves(cfg, es, before, r);
      RunKeeps(cfg, all);
      RoutedIff(cfg, all, r);
      assert !s.Routed(r) by { NotInTable(cfg, s, r); }
      StarvingStep(cfg, s, e, r);
    }
  }

  lemma NotInTable(cfg: Config, s: State, r: ClientId)
    requires r in s.clients && InTable(cfg, s, r, true)
    ensures !s.Routed(r)
  {}

  lemma StarvingStep(cfg: Config, s: State, e: Event, r: ClientId)
    requires Inv(cfg, s) && HasRegistered(s, r) && !s.Routed(r)
    requires r in Step(cfg, s, e).clients && Undecided(Step(cfg, s, e).clients[r])
    ensures var c, d := s.clients[r], Step(cfg, s, e).clients[r];
            d.got + d.queue == c.got + c.queue
  {
    hide Inv, Seen, HasEos, HasError, DoDeliver;
    var c := s.clients[r];
    if OfCaller(e) && e.r != r {
      OtherKeepsRecord(cfg, s, e, r);
    } else if e.Deliver? {
      if s.closed.None? { DeliverTo(cfg, s, e.frame, e.pong, r); } else { ClosedDeliver(cfg, s, e.frame, e.pong); }
    } else if e.Receive? && c.queue != [] {
      assert c.got + [c.queue[0]] + c.queue[1..] == c.got + c.queue;
    }
  }

  lemma ClosedDeliver(cfg: Config, s: State, f: Frame, pong: Option<seq<Byte>>)
    requires s.closed.Some?
    ensures DoDeliver(cfg, s, f, pong) == s
  {}

  // ---- the reader's failure ----

  /** A closed table is empty, and every written frame has a client that has finished writing. */
  ghost predicate Basic(s: State) {
    && (s.closed.Some? ==> s.routes == map[])
    && (forall i :: 0 <= i < |s.outbound| && s.outbound[i].sender.Some? ==>
          var r := s.outbound[i].sender.value;
          r in s.clients && !s.clients[r].phase.Allocated? && !s.clients[r].phase.Registered?)
  }

  lemma StepKeepsBasic(cfg: Config, s: State, e: Event)
    requires Basic(s)
    ensures Basic(Step(cfg, s, e))
  {
    match e {
      case Deliver(f, pong) =>
      case ReaderFails(reason) =>
      case Start(_, _, _, _) =>
      case Write(_, _) =>
      case _ => CallerStepKeepsBasic(cfg, s, e);
    }
  }

  lemma CallerStepKeepsBasic(cfg: Config, s: State, e: Event)
    requires Basic(s) && OfCaller(e) && !e.Write?
    ensures Basic(Step(cfg, s, e))
  {
    var t := Step(cfg, s, e);
    assert t.outbound == s.outbound && (s.closed.Some? ==> t.routes == map[]);
    forall i | 0 <= i < |t.outbound| && t.outbound[i].sender.Some?
      ensures var r := t.outbound[i].sender.value;
              r in t.clients && !t.clients[r].phase.Allocated? && !t.clients[r].phase.Registered?
    {
      var r := s.outbound[i].sender.value;
      if r == e.r { SendersStayPast(cfg, s, e); } else { OtherKeepsRecord(cfg, s, e, r); }
    }
  }

  lemma SendersStayPast(cfg: Config, s: State, e: Event)
    requires OfCaller(e) && !e.Write?
    requires e.r in s.clients && !s.clients[e.r].phase.Allocated? && !s.clients[e.r].phase.Registered?
    ensures var t := Step(cfg, s, e);
            e.r in t.clients && !t.clients[e.r].phase.Allocated? && !t.clients[e.r].phase.Registered?
  {}

  lemma {:induction false} RunKeepsBasic(cfg: Config, es: seq<Event>)
    ensures Basic(Run(cfg, es))
    decreases |es|
  {
    hide Step;
    if |es| > 0 {
      RunKeepsBasic(cfg, es[..|es| - 1]);
      StepKeepsBasic(cfg, Run(cfg, es[..|es| - 1]), es[|es| - 1]);
    }
  }

  predicate Unregistered(s: State, r: ClientId) {
    r !in s.clients || s.clients[r].phase.Allocated?
  }

  /** `t` is some time after the closed state `s`: the table is still empty, nothing more came
      in, and a client that had not registered by then has at most been refused, having written
      nothing. */
  ghost predicate AfterClose(s: State, t: State) {
    && s.closed.Some? && t.closed == s.closed && t.routes == map[] && t.inbound == s.inbound
    && (forall r :: Unregistered(s, r) ==> Unregistered(t, r) || t.clients[r].phase == Done(ConnClosed(s.closed)))
    && (forall i :: 0 <= i < |t.outbound| && t.outbound[i].sender.Some? ==>
          !Unregistered(s, t.outbound[i].sender.value))
  }

  lemma AfterCloseStep(cfg: Config, s: State, t: State, e: Event)
    requires AfterClose(s, t)
    ensures AfterClose(s, Step(cfg, t, e))
  {
    var u := Step(cfg, t, e);
    assert u.closed == t.closed && u.routes == map[] && u.inbound == t.inbound by { ClosedStep(cfg, t, e); }
    forall r | Unregistered(s, r)
      ensures Unregistered(u, r) || u.clients[r].phase == Done(ConnClosed(s.closed))
    {
      RefusedStaysRefused(cfg, t, e, r);
    }
    ClosedOutbound(cfg, s, t, e);
  }

  lemma ClosedStep(cfg: Config, t: State, e: Event)
    requires t.closed.Some? && t.routes == map[]
    ensures var u := Step(cfg, t, e);
            u.closed == t.closed && u.routes == map[] && u.inbound == t.inbound
  {}

  lemma RefusedStaysRefused(cfg: Config, t: State, e: Event, r: ClientId)
    requires t.closed.Some?
    requires Unregistered(t, r) || t.clients[r].phase == Done(ConnClosed(t.closed))
    ensures var u := Step(cfg, t, e);
            Unregistered(u, r) || u.clients[r].phase == Done(ConnClosed(t.closed))
  {
    if OfCaller(e) && e.r != r && r in t.clients {
      OtherKeepsRecord(cfg, t, e, r);
    }
  }

  lemma ClosedOutbound(cfg: Config, s: State, t: State, e: Event)
    requires AfterClose(s, t)
    ensures var u := Step(cfg, t, e);
            forall i :: 0 <= i < |u.outbound| && u.outbound[i].sender.Some? ==>
              !Unregistered(s, u.outbound[i].sender.value)
  {}

  lemma {:induction false} ClosedForever(cfg: Config, es: seq<Event>, more: seq<Event>)
    requires Run(cfg, es).closed.Some?
    ensures AfterClose(Run(cfg, es), Run(cfg, es + more))
    decreases |more|
  {
    hide Step, AfterClose;
    if |more| == 0 {
      assert es + more == es;
      RunKeepsBasic(cfg, es);
      ClosedNow(Run(cfg, es));
    } else {
      var before, e := more[..|more| - 1], more[|more| - 1];
      ClosedForever(cfg, es, before);
      assert es + more == (es + before) + [e];
      RunPush(cfg, es + before, e);
      AfterCloseStep(cfg, Run(cfg, es), Run(cfg, es + before), e);
    }
  }

  lemma ClosedNow(s: State)
    requires Basic(s) && s.closed.Some?
    ensures AfterClose(s, s)
  {}

  /** `n` receives in a row. */
  function Receives(cfg: Config, s: State, r: ClientId, n: nat): State
    decreases n
  {
    if n == 0 then s else Receives(cfg, DoReceive(cfg, s, r), r, n - 1)
  }

  /** What an outstanding request must end with once nothing more can arrive. */
  function Settlement(a: Answer, closed: Option<ReadError>): Outcome {
    match a
    case Complete(fs) => Frames(fs)
    case Refused(f) => ServerError(f)
    case Open => ConnClosed(closed)
  }

  /** After the reader failed, draining its queue ends a waiting request by what it has: a whole
      response, a server error, or the failure.  Only a lazy client whose queue the failing reader
      did not find in the table waits on. */
  lemma {:induction false} DrainSettles(cfg: Config, s: State, r: ClientId, n: nat)
    requires Inv(cfg, s) && s.closed.Some?
    requires r in s.clients && s.clients[r].phase.Waiting? && n > |s.clients[r].queue|
    ensures var c, t := s.clients[r], Receives(cfg, s, r, n);
            && r in t.clients
            && t.clients[r].phase ==
               if Read(c.got + c.queue) == Open && cfg.mode.Lazy? && !c.sunk then Waiting
               else Closing(Settlement(Read(c.got + c.queue), s.closed))
    decreases n
  {
    hide Inv, Read, Seen, HasEos, HasError;
    var t := DoReceive(cfg, s, r);
    ReceiveKeeps(cfg, s, r);
    ReceiveAfterClose(cfg, s, r);
    if t.clients[r].phase.Waiting? && s.clients[r].queue != [] {
      DrainSettles(cfg, t, r, n - 1);
    } else if t.clients[r].phase.Waiting? {
      DryStays(cfg, s, r, n);
    } else {
      DecidedStays(cfg, t, r, n - 1);
    }
  }

  lemma ReceiveAfterClose(cfg: Config, s: State, r: ClientId)
    requires Inv(cfg, s) && s.closed.Some? && r in s.clients && s.clients[r].phase.Waiting?
    ensures var c, t := s.clients[r], DoReceive(cfg, s, r);
            && r in t.clients && t.closed == s.closed && t.clients[r].sunk == c.sunk
            && (t.clients[r].phase.Waiting? && c.queue != [] ==>
                  |t.clients[r].queue| < |c.queue|
                  && t.clients[r].got + t.clients[r].queue == c.got + c.queue)
            && (t.clients[r].phase.Waiting? && c.queue == [] ==>
                  t == s && cfg.mode.Lazy? && !c.sunk && Read(c.got + c.queue) == Open)
            && (!t.clients[r].phase.Waiting? ==>
                  t.clients[r].phase == Closing(Settlement(Read(c.got + c.queue), s.closed))
                  && !(Read(c.got + c.queue) == Open && cfg.mode.Lazy? && !c.sunk))
  {
    hide Read, HasEos, HasError, Seen, OnStream;
    var c := s.clients[r];
    InvClient(cfg, s, r);
    assert c.queue == [] ==> c.got + c.queue == c.got;
    if c.queue == [] { DryFacts(c.got); } else { PopFacts(c.got, c.queue, c.got + c.queue); }
  }

  lemma {:induction false} DryStays(cfg: Config, s: State, r: ClientId, n: nat)
    requires DoReceive(cfg, s, r) == s
    ensures Receives(cfg, s, r, n) == s
  {
    if n > 0 { DryStays(cfg, s, r, n - 1); }
  }

  lemma {:induction false} DecidedStays(cfg: Config, s: State, r: ClientId, n: nat)
    requires r in s.clients && !s.clients[r].phase.Waiting?
    ensures Receives(cfg, s, r, n) == s
  {
    if n > 0 { DecidedStays(cfg, s, r, n - 1); }
  }

  /** In every run, a request that nobody displaced is settled by its whole stream: with its response
      if the EOS frame came and no ERROR precedes it, with the server's error if that came first,
      and otherwise with the reader's failure. */
  lemma UndisplacedSettles(cfg: Config, es: seq<Event>, r: ClientId, n: nat)
    requires var s := Run(cfg, es);
             s.closed.Some? && r in s.clients && s.clients[r].phase.Waiting? && n > |s.clients[r].queue|
    requires !Displaced(cfg, es, r)
    ensures var s := Run(cfg, es);
            var t := Receives(cfg, s, r, n);
            r in t.clients && t.clients[r].phase == Closing(Settlement(Read(Seen(s, s.clients[r])), s.closed))
  {
    hide Step, Inv, Read, Seen, Cut, Receives, Settlement;
    var s := Run(cfg, es);
    RunKeeps(cfg, es);
    DisplacedWhileWaiting(cfg, es, r);
    UndisplacedIsWhole(cfg, es, r);
    DrainSettles(cfg, s, r, n);
    ReadCut(s.clients[r].got + s.clients[r].queue);
    ReadCut(Seen(s, s.clients[r]));
  }

  // ---- the route table ----

  /** Returned to its caller, in any way but by a dropped Rust future. */
  predicate LeftTidily(cfg: Config, c: Client) {
    c.phase.Done? && (cfg.mode.Lazy? || c.phase.outcome != Abandoned(false))
  }

  /** In every run: the table's keys are the ids of unfinished requests and undropped subscriptions, or
      (Rust) of requests whose future was dropped; eager routes have seen no EOS; nobody who returned
      otherwise is left in the table; and who has not returned is in it exactly while the connection
      is open, the stream has not ended (Rust), and nobody else took or removed the entry. */
  lemma RoutesAreLive(cfg: Config, es: seq<Event>)
    ensures var s := Run(cfg, es);
            && (forall id :: id in s.routes ==>
                  var r := s.routes[id];
                  && r in s.clients && s.clients[r].id == id
                  && (s.clients[r].Holds() || (cfg.mode.Eager? && s.clients[r].phase == Done(Abandoned(false))))
                  && (cfg.mode.Eager? ==> !HasEos(Seen(s, s.clients[r]))))
            && (forall r :: r in s.clients && LeftTidily(cfg, s.clients[r]) ==> !s.Routed(r))
            && (forall r :: r in s.clients && Undecided(s.clients[r]) ==> InTable(cfg, s, r, Displaced(cfg, es, r)))
  {
    hide Step, Seen, HasEos, HasError, OutcomeOk, HandOk, InTable, Displaced;
    RunKeeps(cfg, es);
    var s := Run(cfg, es);
    forall id | id in s.routes
      ensures RouteOk(cfg, s, id)
    {}
    forall r | r in s.clients && Undecided(s.clients[r])
      ensures InTable(cfg, s, r, Displaced(cfg, es, r))
    {
      RoutedIff(cfg, es, r);
    }
  }

  /** A Rust request whose future was dropped leaves its route behind exactly until its EOS, the end of
      the connection, or another request on the same id. */
  lemma DroppedFutureIff(cfg: Config, es: seq<Event>, r: ClientId)
    requires cfg.mode.Eager? && r in Run(cfg, es).clients && Run(cfg, es).clients[r].phase == Done(Abandoned(false))
    ensures var s := Run(cfg, es);
            s.Routed(r) <==> s.closed.None? && !HasEos(Seen(s, s.clients[r])) && !Displaced(cfg, es, r)
  {
    hide Step, Run, Seen, HasEos, Displaced;
    RoutedIff(cfg, es, r);
  }
}
