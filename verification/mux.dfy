/**
 The multiplexed connection as atomic steps under its locks.

 One machine describes all three clients.  In `Eager` mode (Rust) the reader drops a route
 when it routes an EOS frame and a request whose channel lost its sender is told so; in `Lazy`
 mode (Python, TypeScript) a route stays until its requester removes it in `finally`, and a
 failing reader marks every routed queue.  A run is a sequence of events; an event that is not
 enabled changes nothing, so every interleaving of callers, reader and timers is some run.
 */
module Mux {
  import opened Bytes
  import opened Wrappers
  import opened FrameCodec
  import opened FrameStream
  import opened Answers

  const OP_CLIENT_PONG: u16 := 0x0011
  const HANDSHAKE_STREAM_ID: u32 := 0

  type ClientId = nat

  datatype Mode = Eager | Lazy

  /** `advertised` is the server's WELCOME `max_payload_size`. */
  datatype Config = Config(mode: Mode, advertised: u32)
  {
    /** Zero means unset: the structural ceiling stands in. */
    function Cap(): nat { if advertised == 0 then MAX_PAYLOAD_BYTES else advertised }
  }

  /** A request on a stream of its own, a request on stream 0, or a subscription. */
  datatype Kind = OpRequest | ConnectionRequest | Subscribe

  datatype Outcome =
    | Frames(frames: seq<Frame>)
    | ServerError(frame: Frame)
    | TimedOut
    | WriteFailed
    | ConnClosed(reason: Option<ReadError>)
    /** The caller stopped waiting; `drops` when that removes the route (a dropped subscription). */
    | Abandoned(drops: bool)

  /** `Closing` is the moment between knowing the outcome and having tidied the table. */
  datatype Phase = Allocated | Registered | Waiting | Closing(outcome: Outcome) | Done(outcome: Outcome)

  /** `ticket` counts id allocations; `since` is the length of the inbound log at registration;
      `queue` is the channel; `sunk` the failure mark a lazy reader leaves in it. */
  datatype Client = Client(kind: Kind, id: u32, ticket: Option<nat>, opcode: u16, payload: seq<Byte>,
                           phase: Phase, since: nat, queue: seq<Frame>, got: seq<Frame>, sunk: bool)
  {
    /** Owns its stream id: registered, and not yet returned to its caller. */
    predicate Holds() { phase.Registered? || phase.Waiting? || phase.Closing? }

    predicate Decided() { phase.Closing? || phase.Done? }
  }

  /** A frame as it went out, and the client it was written for; heartbeat replies have none. */
  datatype Sent = Sent(sender: Option<ClientId>, frame: Frame)

  datatype State = State(nextId: u32, allocs: nat, routes: map<u32, ClientId>, closed: Option<ReadError>,
                         clients: map<ClientId, Client>, inbound: seq<Frame>, outbound: seq<Sent>)
  {
    predicate Routed(r: ClientId)
      requires r in clients
    {
      clients[r].id in routes && routes[clients[r].id] == r
    }
  }

  const INITIAL := State(1, 0, map[], None, map[], [], [])

  datatype Event =
    | Start(r: ClientId, kind: Kind, opcode: u16, payload: seq<Byte>)
    | Register(r: ClientId)
    | Write(r: ClientId, ok: bool)
    | Receive(r: ClientId)
    | Timeout(r: ClientId)
    | Cancel(r: ClientId)
    | Cleanup(r: ClientId)
    /** A frame reaches the reader; `pong` is the heartbeat reply if it gets written. */
    | Deliver(frame: Frame, pong: Option<seq<Byte>>)
    | ReaderFails(reason: ReadError)

  function NextId(mode: Mode, id: u32): u32 {
    if mode.Eager? then (id + 2) % 0x1_0000_0000
    else if id + 2 > 0xffff_ffff then 1 else id + 2
  }

  function DoStart(cfg: Config, s: State, r: ClientId, kind: Kind, opcode: u16, payload: seq<Byte>): State {
    if r in s.clients then s
    else if kind.ConnectionRequest?
    then s.(clients := s.clients[r := Client(kind, HANDSHAKE_STREAM_ID, None, opcode, payload, Allocated, 0, [], [], false)])
    else s.(nextId := NextId(cfg.mode, s.nextId), allocs := s.allocs + 1,
            clients := s.clients[r := Client(kind, s.nextId, Some(s.allocs), opcode, payload, Allocated, 0, [], [], false)])
  }

  function DoRegister(s: State, r: ClientId): State {
    if r !in s.clients || !s.clients[r].phase.Allocated? then s
    else
      var c := s.clients[r].(since := |s.inbound|);
      if s.closed.Some? then s.(clients := s.clients[r := c.(phase := Done(ConnClosed(s.closed)))])
      else s.(routes := s.routes[c.id := r], clients := s.clients[r := c.(phase := Registered)])
  }

  function DoWrite(cfg: Config, s: State, r: ClientId, ok: bool): State {
    if r !in s.clients || !s.clients[r].phase.Registered? then s
    else
      var c := s.clients[r];
      if |c.payload| > cfg.Cap() || |c.payload| > MAX_PAYLOAD_BYTES || !ok
      then s.(clients := s.clients[r := c.(phase := Closing(WriteFailed))])
      else s.(outbound := s.outbound + [Sent(Some(r), Frame(c.opcode, FLAG_EOS, c.id, c.payload))],
              clients := s.clients[r := c.(phase := Waiting)])
  }

  /** The channel is empty for good: its sender is gone, or the failure mark is next. */
  predicate ChannelClosed(cfg: Config, s: State, r: ClientId)
    requires r in s.clients
  {
    if cfg.mode.Eager? then !s.Routed(r) else s.clients[r].sunk
  }

  /** Take the next frame off the channel: an ERROR frame is the outcome, any other is
      collected, and one with EOS completes the response. */
  function Take(c: Client): Client
    requires c.queue != []
  {
    var f, d := c.queue[0], c.(queue := c.queue[1..]);
    if f.opcode == OP_ERROR then d.(phase := Closing(ServerError(f)))
    else if f.Eos() then d.(got := c.got + [f], phase := Closing(Frames(c.got + [f])))
    else d.(got := c.got + [f])
  }

  /** Give a client a new record.  A lazy subscription that just ended drops its route at once;
      everyone else leaves that to `Cleanup`. */
  function Update(cfg: Config, s: State, r: ClientId, c: Client): State {
    s.(clients := s.clients[r := c],
       routes := if cfg.mode.Lazy? && c.kind.Subscribe? && c.phase.Closing? then s.routes - {c.id} else s.routes)
  }

  function DoReceive(cfg: Config, s: State, r: ClientId): State {
    if r !in s.clients || !s.clients[r].phase.Waiting? then s
    else
      var c := s.clients[r];
      if c.queue != [] then Update(cfg, s, r, Take(c))
      else if ChannelClosed(cfg, s, r) then Update(cfg, s, r, c.(phase := Closing(ConnClosed(s.closed))))
      else s
  }

  function DoTimeout(s: State, r: ClientId): State {
    if r !in s.clients || !s.clients[r].phase.Waiting? || s.clients[r].kind.Subscribe? then s
    else s.(clients := s.clients[r := s.clients[r].(phase := Closing(TimedOut))])
  }

  function DoCancel(s: State, r: ClientId): State {
    if r !in s.clients || !(s.clients[r].phase.Registered? || s.clients[r].phase.Waiting?) then s
    else
      var c := s.clients[r];
      s.(clients := s.clients[r := c.(phase := Closing(Abandoned(c.kind.Subscribe? && c.phase.Waiting?)))])
  }

  /** Whether a client removes the route of its id on the way out.  Lazy clients always do, in
      `finally`.  A Rust request leaves it to the reader after EOS and after a closed channel,
      and leaves it behind when its future is dropped; a Rust subscription handle removes it on
      drop. */
  predicate RemovesRoute(cfg: Config, c: Client, o: Outcome) {
    if cfg.mode.Lazy? then true
    else
      match o
      case ServerError(_) => true
      case TimedOut => true
      case WriteFailed => true
      case Abandoned(drops) => drops
      case Frames(_) => c.kind.Subscribe?
      case ConnClosed(_) => c.kind.Subscribe?
  }

  function DoCleanup(cfg: Config, s: State, r: ClientId): State {
    if r !in s.clients || !s.clients[r].phase.Closing? then s
    else
      var c := s.clients[r];
      s.(clients := s.clients[r := c.(phase := Done(c.phase.outcome))],
         routes := if RemovesRoute(cfg, c, c.phase.outcome) then s.routes - {c.id} else s.routes)
  }

  /** A reply on stream 0.  Rust writes it directly; the others go through the capped write. */
  function Pong(cfg: Config, s: State, pong: Option<seq<Byte>>): seq<Sent> {
    if pong.Some? && |pong.value| <= MAX_PAYLOAD_BYTES && (cfg.mode.Eager? || |pong.value| <= cfg.Cap())
    then s.outbound + [Sent(None, Frame(OP_CLIENT_PONG, FLAG_EOS, HANDSHAKE_STREAM_ID, pong.value))]
    else s.outbound
  }

  /** A receiver that is gone makes the send fail; the frame is dropped. */
  function Push(c: Client, f: Frame): Client {
    if c.phase.Done? then c else c.(queue := c.queue + [f])
  }

  function DoDeliver(cfg: Config, s: State, f: Frame, pong: Option<seq<Byte>>): State {
    if s.closed.Some? then s
    else
      var t := s.(inbound := s.inbound + [f]);
      if f.opcode == OP_SERVER_PING then t.(outbound := Pong(cfg, s, pong))
      else if f.streamId in s.routes && s.routes[f.streamId] in s.clients then
        var r := s.routes[f.streamId];
        t.(clients := s.clients[r := Push(s.clients[r], f)],
           routes := if cfg.mode.Eager? && f.Eos() then s.routes - {f.streamId} else s.routes)
      else t
  }

  function DoFail(cfg: Config, s: State, reason: ReadError): State {
    if s.closed.Some? then s
    else s.(closed := Some(reason), routes := map[],
            clients := map r | r in s.clients ::
              if cfg.mode.Lazy? && s.Routed(r) then s.clients[r].(sunk := true) else s.clients[r])
  }

  function Step(cfg: Config, s: State, e: Event): State {
    match e
    case Start(r, kind, opcode, payload) => DoStart(cfg, s, r, kind, opcode, payload)
    case Register(r) => DoRegister(s, r)
    case Write(r, ok) => DoWrite(cfg, s, r, ok)
    case Receive(r) => DoReceive(cfg, s, r)
    case Timeout(r) => DoTimeout(s, r)
    case Cancel(r) => DoCancel(s, r)
    case Cleanup(r) => DoCleanup(cfg, s, r)
    case Deliver(f, pong) => DoDeliver(cfg, s, f, pong)
    case ReaderFails(reason) => DoFail(cfg, s, reason)
  }

  function Run(cfg: Config, es: seq<Event>): State {
    if |es| == 0 then INITIAL else Step(cfg, Run(cfg, es[..|es| - 1]), es[|es| - 1])
  }
}
