/**
 The connection object itself: the route table, the id counter and the channels as fields that
 its methods update in place.  Every method is one critical section of the source, and its
 effect on the whole state is the corresponding step of the machine.
 */
module MuxConnection {
  import opened Bytes
  import opened Wrappers
  import opened FrameCodec
  import opened FrameStream
  import opened Answers
  import opened Mux

  class Connection {
    const cfg: Config
    var nextStreamId: u32
    var allocs: nat
    var routes: map<u32, ClientId>
    var closed: Option<ReadError>
    var clients: map<ClientId, Client>
    var inbound: seq<Frame>
    var outbound: seq<Sent>

    constructor (cfg: Config)
      ensures this.cfg == cfg && View() == INITIAL
    {
      this.cfg := cfg;
      nextStreamId, allocs, routes, closed := 1, 0, map[], None;
      clients, inbound, outbound := map[], [], [];
    }

    function View(): State
      reads this
    {
      State(nextStreamId, allocs, routes, closed, clients, inbound, outbound)
    }

    /** `fetch_add(2)` on a wrapping 32-bit counter, or add two and restart at one. */
    method AllocStreamId() returns (id: u32)
      modifies this`nextStreamId, this`allocs
      ensures id == old(nextStreamId) && nextStreamId == NextId(cfg.mode, old(nextStreamId))
      ensures allocs == old(allocs) + 1
    {
      id := nextStreamId;
      if cfg.mode.Eager? {
        nextStreamId := (nextStreamId + 2) % 0x1_0000_0000;
      } else if nextStreamId + 2 > 0xffff_ffff {
        nextStreamId := 1;
      } else {
        nextStreamId := nextStreamId + 2;
      }
      allocs := allocs + 1;
    }

    method StartRequest(r: ClientId, kind: Kind, opcode: u16, payload: seq<Byte>)
      modifies this`nextStreamId, this`allocs, this`clients
      ensures View() == DoStart(cfg, old(View()), r, kind, opcode, payload)
    {
      if r in clients { return; }
      var id, ticket := HANDSHAKE_STREAM_ID, None;
      if !kind.ConnectionRequest? {
        ticket := Some(allocs);
        id := AllocStreamId();
      }
      clients := clients[r := Client(kind, id, ticket, opcode, payload, Allocated, 0, [], [], false)];
    }

    method RegisterRoute(r: ClientId)
      modifies this`routes, this`clients
      ensures View() == DoRegister(old(View()), r)
    {
      if r !in clients || !clients[r].phase.Allocated? { return; }
      var c := clients[r].(since := |inbound|);
      if closed.Some? {
        clients := clients[r := c.(phase := Done(ConnClosed(closed)))];
        return;
      }
      routes := routes[c.id := r];
      clients := clients[r := c.(phase := Registered)];
    }

    method Deregister(id: u32)
      modifies this`routes
      ensures routes == old(routes) - {id}
    {
      routes := routes - {id};
    }

    /** Write one request frame; `ok` is the socket's answer. */
    method WriteRequest(r: ClientId, ok: bool)
      modifies this`outbound, this`clients
      ensures View() == DoWrite(cfg, old(View()), r, ok)
    {
      if r !in clients || !clients[r].phase.Registered? { return; }
      var c := clients[r];
      var tooBig := |c.payload| > cfg.Cap();
      if !tooBig {
        var encoded := Encode(Frame(c.opcode, FLAG_EOS, c.id, c.payload));
        if encoded.Wire? && ok {
          outbound := outbound + [Sent(Some(r), Frame(c.opcode, FLAG_EOS, c.id, c.payload))];
          clients := clients[r := c.(phase := Waiting)];
          return;
        }
      }
      clients := clients[r := c.(phase := Closing(WriteFailed))];
    }

    /** One turn of the collecting loop: take a frame, learn that the channel closed, or wait on. */
    method ReceiveOne(r: ClientId)
      modifies this`routes, this`clients
      ensures View() == DoReceive(cfg, old(View()), r)
    {
      if r !in clients || !clients[r].phase.Waiting? { return; }
      var c := clients[r];
      if c.queue == [] {
        if ChannelClosed(cfg, View(), r) {
          c := c.(phase := Closing(ConnClosed(closed)));
        }
      } else {
        var frame := c.queue[0];
        c := c.(queue := c.queue[1..]);
        if frame.opcode == OP_ERROR {
          c := c.(phase := Closing(ServerError(frame)));
        } else {
          c := c.(got := c.got + [frame]);
          if frame.Eos() {
            c := c.(phase := Closing(Frames(c.got)));
          }
        }
      }
      if cfg.mode.Lazy? && c.kind.Subscribe? && c.phase.Closing? {
        Deregister(c.id);
      }
      clients := clients[r := c];
    }

    method TimeOut(r: ClientId)
      modifies this`clients
      ensures View() == DoTimeout(old(View()), r)
    {
      if r in clients && clients[r].phase.Waiting? && !clients[r].kind.Subscribe? {
        clients := clients[r := clients[r].(phase := Closing(TimedOut))];
      }
    }

    method Abandon(r: ClientId)
      modifies this`clients
      ensures View() == DoCancel(old(View()), r)
    {
      if r in clients && (clients[r].phase.Registered? || clients[r].phase.Waiting?) {
        var c := clients[r];
        clients := clients[r := c.(phase := Closing(Abandoned(c.kind.Subscribe? && c.phase.Waiting?)))];
      }
    }

    /** The requester's way out. */
    method Finish(r: ClientId)
      modifies this`routes, this`clients
      ensures View() == DoCleanup(cfg, old(View()), r)
    {
      if r !in clients || !clients[r].phase.Closing? { return; }
      var c := clients[r];
      if RemovesRoute(cfg, c, c.phase.outcome) {
        Deregister(c.id);
      }
      clients := clients[r := c.(phase := Done(c.phase.outcome))];
    }

    /** One turn of the reader loop. */
    method HandleFrame(frame: Frame, pong: Option<seq<Byte>>)
      modifies this`inbound, this`outbound, this`routes, this`clients
      ensures View() == DoDeliver(cfg, old(View()), frame, pong)
    {
      if closed.Some? { return; }
      inbound := inbound + [frame];
      if frame.opcode == OP_SERVER_PING {
        if pong.Some? && |pong.value| <= MAX_PAYLOAD_BYTES && (cfg.mode.Eager? || |pong.value| <= cfg.Cap()) {
          outbound := outbound + [Sent(None, Frame(OP_CLIENT_PONG, FLAG_EOS, HANDSHAKE_STREAM_ID, pong.value))];
        }
        return;
      }
      if frame.streamId in routes && routes[frame.streamId] in clients {
        var r := routes[frame.streamId];
        if !clients[r].phase.Done? {
          clients := clients[r := clients[r].(queue := clients[r].queue + [frame])];
        }
        if cfg.mode.Eager? && frame.Eos() {
          Deregister(frame.streamId);
        }
        assert clients == old(clients)[r := Push(old(clients)[r], frame)];
      }
    }

    /** The reader's end: record why, mark (lazy) or drop (eager) every routed channel, and
        empty the table. */
    method FailAll(reason: ReadError)
      modifies this`closed, this`routes, this`clients
      ensures View() == DoFail(cfg, old(View()), reason)
    {
      if closed.Some? { return; }
      closed := Some(reason);
      if cfg.mode.Lazy? {
        var keys := routes.Keys;
        while keys != {}
          invariant keys <= routes.Keys && routes == old(routes) && closed == Some(reason)
          invariant clients == map r | r in old(clients) ::
                      if old(View()).Routed(r) && old(clients)[r].id !in keys
                      then old(clients)[r].(sunk := true) else old(clients)[r]
          decreases |keys|
        {
          var id :| id in keys;
          var r := routes[id];
          if r in clients && clients[r].id == id {
            clients := clients[r := clients[r].(sunk := true)];
          }
          keys := keys - {id};
        }
      }
      routes := map[];
    }

    /** Carry out one event. */
    method Perform(e: Event)
      modifies this
      ensures View() == Step(cfg, old(View()), e)
    {
      match e {
        case Start(r, kind, opcode, payload) => StartRequest(r, kind, opcode, payload);
        case Register(r) => RegisterRoute(r);
        case Write(r, ok) => WriteRequest(r, ok);
        case Receive(r) => ReceiveOne(r);
        case Timeout(r) => TimeOut(r);
        case Cancel(r) => Abandon(r);
        case Cleanup(r) => Finish(r);
        case Deliver(f, pong) => HandleFrame(f, pong);
        case ReaderFails(reason) => FailAll(reason);
      }
    }
  }

  /** A connection driven by a schedule is in the state the machine's run says. */
  method Drive(cfg: Config, es: seq<Event>) returns (conn: Connection)
    ensures fresh(conn) && conn.cfg == cfg && conn.View() == Run(cfg, es)
  {
    hide Step;
    conn := new Connection(cfg);
    for i := 0 to |es|
      invariant fresh(conn) && conn.cfg == cfg && conn.View() == Run(cfg, es[..i])
    {
      conn.Perform(es[i]);
      assert es[..i + 1][..i] == es[..i];
    }
    assert es[..|es|] == es;
  }
}
