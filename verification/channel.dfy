/**
 The TypeScript `FrameChannel`: `read()` promises on one side, `data`, `error` and `close`
 events on the other, in any order.
 */
module FrameChannel {
  import opened Bytes
  import opened Wrappers
  import opened FrameCodec
  import opened FrameStream

  datatype Failure = Undecodable(error: FrameError) | Socket(reason: nat)

  /** What became of one `read()`. */
  datatype Promise = Pending | Resolved(frame: Frame) | Rejected(failure: Failure)

  /** `promises` are all promises handed out so far; `waiters` holds the numbers of those not yet
      settled.  `decoded` and `late` are history: the frames delivered so far, and whether one
      was delivered after some read had already been rejected. */
  datatype State = State(buf: seq<Byte>, ready: seq<Frame>, waiters: seq<nat>, failure: Option<Failure>,
                         promises: seq<Promise>, decoded: seq<Frame>, late: bool)

  const EMPTY := State([], [], [], None, [], [], false)

  predicate SomeRejected(promises: seq<Promise>) {
    exists i :: 0 <= i < |promises| && promises[i].Rejected?
  }

  function Read(s: State): State {
    if s.ready != [] then s.(ready := s.ready[1..], promises := s.promises + [Resolved(s.ready[0])])
    else if s.failure.Some? then s.(promises := s.promises + [Rejected(s.failure.value)])
    else s.(waiters := s.waiters + [|s.promises|], promises := s.promises + [Pending])
  }

  function Settle(promises: seq<Promise>, i: nat, p: Promise): (r: seq<Promise>)
    ensures |r| == |promises|
  {
    if i < |promises| then promises[i := p] else promises
  }

  function Deliver(s: State, f: Frame): State {
    var t := s.(decoded := s.decoded + [f], late := s.late || SomeRejected(s.promises));
    if s.waiters != []
    then t.(waiters := s.waiters[1..], promises := Settle(s.promises, s.waiters[0], Resolved(f)))
    else t.(ready := s.ready + [f])
  }

  function DeliverAll(s: State, fs: seq<Frame>): State
    decreases |fs|
  {
    if |fs| == 0 then s else DeliverAll(Deliver(s, fs[0]), fs[1..])
  }

  function RejectAll(promises: seq<Promise>, waiters: seq<nat>, why: Failure): (r: seq<Promise>)
    ensures |r| == |promises|
    decreases |waiters|
  {
    if |waiters| == 0 then promises
    else RejectAll(Settle(promises, waiters[0], Rejected(why)), waiters[1..], why)
  }

  function Fail(s: State, why: Failure): State {
    var first := if s.failure.Some? then s.failure.value else why;
    s.(failure := Some(first), waiters := [], promises := RejectAll(s.promises, s.waiters, first))
  }

  function OnData(s: State, chunk: seq<Byte>): State {
    var p := ParseAll(s.buf + chunk);
    var t := DeliverAll(s, p.frames).(buf := p.rest);
    if p.fatal.Some? then Fail(t, Undecodable(p.fatal.value)) else t
  }

  class Channel {
    var buf: seq<Byte>
    var ready: seq<Frame>
    var waiters: seq<nat>
    var failure: Option<Failure>
    var promises: seq<Promise>
    var decoded: seq<Frame>
    var late: bool

    constructor ()
      ensures View() == EMPTY
    {
      buf, ready, waiters, failure, promises, decoded, late := [], [], [], None, [], [], false;
    }

    function View(): State
      reads this
    {
      State(buf, ready, waiters, failure, promises, decoded, late)
    }

    /** Returns the number of the promise it hands out. */
    method ReadNext() returns (promise: nat)
      modifies this
      ensures View() == Read(old(View())) && promise == old(|promises|)
    {
      promise := |promises|;
      if ready != [] {
        promises := promises + [Resolved(ready[0])];
        ready := ready[1..];
        return;
      }
      if failure.Some? {
        promises := promises + [Rejected(failure.value)];
        return;
      }
      promises := promises + [Pending];
      waiters := waiters + [promise];
    }

    method DeliverOne(frame: Frame)
      modifies this
      ensures View() == Deliver(old(View()), frame)
    {
      late := late || SomeRejected(promises);
      decoded := decoded + [frame];
      if waiters != [] {
        promises := Settle(promises, waiters[0], Resolved(frame));
        waiters := waiters[1..];
      } else {
        ready := ready + [frame];
      }
    }

    method FailWith(why: Failure)
      modifies this
      ensures View() == Fail(old(View()), why)
    {
      if failure.None? { failure := Some(why); }
      ghost var first := failure.value;
      while waiters != []
        invariant RejectAll(promises, waiters, first) == RejectAll(old(promises), old(waiters), first)
        invariant failure == Some(first)
        invariant View() == old(View()).(failure := failure, waiters := waiters, promises := promises)
        decreases |waiters|
      {
        promises := Settle(promises, waiters[0], Rejected(failure.value));
        waiters := waiters[1..];
      }
    }

    method OnDataEvent(chunk: seq<Byte>)
      modifies this
      ensures View() == OnData(old(View()), chunk)
    {
      hide Decode, ParseAll, Deliver;
      buf := buf + chunk;
      ghost var all := ParseAll(buf);
      ghost var goal := DeliverAll(old(View()), all.frames);
      assert View().(buf := old(buf)) == old(View());
      while true
        invariant DeliverAll(View().(buf := old(buf)), ParseAll(buf).frames) == goal
        invariant ParseAll(buf).rest == all.rest && ParseAll(buf).fatal == all.fatal
        decreases |buf|
      {
        var d := Decode(buf);
        if d.Err? {
          ParseErr(buf);
          assert View().(buf := old(buf)) == goal;
          if d.error.Truncated? { break; }
          FailWith(Undecodable(d.error));
          return;
        }
        ParseOk(buf, d.frame, d.rest);
        buf := d.rest;
        label delivering:
        DeliverOne(d.frame);
        DeliverKeepsBuf(old@delivering(View()), d.frame, old(buf));
      }
    }
  }

  lemma DeliverKeepsBuf(s: State, f: Frame, b: seq<Byte>)
    ensures Deliver(s, f).buf == s.buf
    ensures Deliver(s.(buf := b), f) == Deliver(s, f).(buf := b)
  {}
}
