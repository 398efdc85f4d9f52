/** What the `FrameChannel` guarantees over every interleaving of reads, chunks and failures. */
module FrameChannelRuns {
  import opened Bytes
  import opened Wrappers
  import opened FrameCodec
  import opened FrameStream
  import opened FrameChannel

  datatype Event = Reading | Data(chunk: seq<Byte>) | SocketFails(reason: nat)

  function Step(s: State, e: Event): State {
    match e
    case Reading => Read(s)
    case Data(c) => OnData(s, c)
    case SocketFails(r) => Fail(s, Socket(r))
  }

  function Run(es: seq<Event>): State {
    if |es| == 0 then EMPTY else Step(Run(es[..|es| - 1]), es[|es| - 1])
  }

  /** All bytes that arrived. */
  function AllData(es: seq<Event>): seq<Byte> {
    if |es| == 0 then []
    else if es[|es| - 1].Data? then AllData(es[..|es| - 1]) + es[|es| - 1].chunk
    else AllData(es[..|es| - 1])
  }

  /** The first thing that went wrong: a socket event, or bytes that do not decode. */
  function FirstFailure(es: seq<Event>): Option<Failure> {
    if |es| == 0 then None
    else
      var f := FirstFailure(es[..|es| - 1]);
      if f.Some? then f
      else
        match es[|es| - 1]
        case Reading => None
        case SocketFails(r) => Some(Socket(r))
        case Data(_) =>
          var p := ParseAll(AllData(es));
          if p.fatal.Some? then Some(Undecodable(p.fatal.value)) else None
  }

  function Expected(s: State, i: nat): Promise {
    if i < |s.decoded| then Resolved(s.decoded[i])
    else if s.failure.Some? then Rejected(s.failure.value)
    else Pending
  }

  /** The i-th read got the i-th frame if there is one, else the first failure if there is one. */
  ghost predicate InOrder(s: State) {
    forall i :: 0 <= i < |s.promises| ==> s.promises[i] == Expected(s, i)
  }

  function Frames(ps: seq<Promise>): seq<Frame> {
    if |ps| == 0 then []
    else if ps[|ps| - 1].Resolved? then Frames(ps[..|ps| - 1]) + [ps[|ps| - 1].frame]
    else Frames(ps[..|ps| - 1])
  }

  /** Pending reads are the last ones and their numbers are the waiters; ready frames and
      waiters exclude each other; nothing waits, and nothing was rejected, without cause. */
  ghost predicate Shape(s: State) {
    && |s.waiters| <= |s.promises|
    && (forall i :: 0 <= i < |s.waiters| ==> s.waiters[i] == |s.promises| - |s.waiters| + i)
    && (forall i :: 0 <= i < |s.promises| ==> (s.promises[i].Pending? <==> i >= |s.promises| - |s.waiters|))
    && (s.ready == [] || s.waiters == [])
    && (s.failure.Some? ==> s.waiters == [])
    && (s.failure.None? ==> !SomeRejected(s.promises))
  }

  /** Resolved reads got the delivered frames in order, and what they did not get is ready. */
  ghost predicate Conserved(s: State) {
    Frames(s.promises) + s.ready == s.decoded
  }

  ghost predicate Passed(s: State, i: nat) {
    i < |s.promises| && i < |s.decoded| && s.promises[i].Rejected?
  }

  /** Reads are in order exactly while no frame has come after a rejection. */
  ghost predicate Ordered(s: State) {
    && (!s.late ==> InOrder(s) && s.ready == if |s.promises| <= |s.decoded| then s.decoded[|s.promises|..] else [])
    && (s.late ==> exists i: nat :: Passed(s, i))
  }

  /** Holds in every reachable state. */
  ghost predicate Inv(s: State) {
    Shape(s) && Conserved(s) && Ordered(s)
  }

  lemma FramesPush(ps: seq<Promise>, p: Promise)
    ensures Frames(ps + [p]) == if p.Resolved? then Frames(ps) + [p.frame] else Frames(ps)
  {
    assert (ps + [p])[..|ps|] == ps;
  }

  /** Resolving the first pending read adds its frame at the end. */
  lemma {:induction false} FramesSettle(ps: seq<Promise>, i: nat, p: Promise)
    requires i < |ps| && forall j :: i <= j < |ps| ==> ps[j].Pending?
    ensures Frames(ps[i := p]) == if p.Resolved? then Frames(ps) + [p.frame] else Frames(ps)
    decreases |ps|
  {
    var n := |ps| - 1;
    if i < n {
      FramesSettle(ps[..n], i, p);
      assert ps[i := p][..n] == ps[..n][i := p];
    } else {
      assert ps[i := p][..n] == ps[..n];
    }
  }

  lemma ReadKeepsShape(s: State)
    requires Shape(s)
    ensures Shape(Read(s))
  {}

  lemma ReadKeepsConserved(s: State)
    requires Conserved(s)
    ensures Conserved(Read(s))
  {
    hide Frames;
    var t := Read(s);
    FramesPush(s.promises, t.promises[|s.promises|]);
    if s.ready != [] {
      assert t.decoded == Frames(s.promises) + ([s.ready[0]] + s.ready[1..]);
    }
  }

  lemma ReadKeepsOrdered(s: State)
    requires Shape(s) && Ordered(s)
    ensures Ordered(Read(s))
  {
    var t := Read(s);
    if s.late {
      var i: nat :| Passed(s, i);
      assert Passed(t, i);
    } else {
      forall i | 0 <= i < |t.promises|
        ensures t.promises[i] == Expected(t, i)
      {
        if i < |s.promises| { assert s.promises[i] == Expected(s, i); }
      }
    }
  }

  lemma DeliverKeepsShape(s: State, f: Frame)
    requires Shape(s)
    ensures Shape(Deliver(s, f))
    ensures !SomeRejected(s.promises) ==> !SomeRejected(Deliver(s, f).promises)
  {}

  lemma DeliverKeepsConserved(s: State, f: Frame)
    requires Shape(s) && Conserved(s)
    ensures Conserved(Deliver(s, f))
  {
    hide Frames;
    if s.waiters != [] {
      FramesSettle(s.promises, s.waiters[0], Resolved(f));
    }
  }

  lemma DeliverKeepsOrdered(s: State, f: Frame)
    requires Shape(s) && Ordered(s)
    ensures Ordered(Deliver(s, f))
  {
    var t := Deliver(s, f);
    if s.late {
      var i: nat :| Passed(s, i);
      assert Passed(t, i);
    } else if SomeRejected(s.promises) {
      var i :| 0 <= i < |s.promises| && s.promises[i].Rejected?;
      assert s.promises[i] == Expected(s, i);
      assert s.promises[|s.decoded|] == Expected(s, |s.decoded|);
      assert Passed(t, |s.decoded|);
    } else {
      if s.waiters != [] {
        assert s.promises[s.waiters[0]] == Expected(s, s.waiters[0]);
        assert s.promises[|s.decoded|] == Expected(s, |s.decoded|);
        assert s.waiters[0] == |s.decoded|;
        assert t.ready == [] && t.decoded[|t.decoded|..] == [];
      } else {
        assert s.promises != [] ==> s.promises[|s.promises| - 1] == Expected(s, |s.promises| - 1);
        assert t.decoded[|s.promises|..] == s.decoded[|s.promises|..] + [f];
      }
      forall i | 0 <= i < |t.promises|
        ensures t.promises[i] == Expected(t, i)
      {
        assert s.promises[i] == Expected(s, i);
      }
    }
  }

  lemma {:induction false} DeliverAllKeeps(s: State, fs: seq<Frame>)
    requires Inv(s)
    ensures var t := DeliverAll(s, fs);
            && Inv(t) && t.decoded == s.decoded + fs && t.failure == s.failure && t.buf == s.buf
            && (fs == [] ==> t == s)
            && (fs != [] && SomeRejected(s.promises) ==> t.late)
            && (s.late ==> t.late)
            && (!s.late && !SomeRejected(s.promises) ==> !t.late)
    decreases |fs|
  {
    hide Shape, Conserved, Ordered, SomeRejected;
    if |fs| > 0 {
      DeliverKeepsShape(s, fs[0]);
      DeliverKeepsConserved(s, fs[0]);
      DeliverKeepsOrdered(s, fs[0]);
      DeliverAllKeeps(Deliver(s, fs[0]), fs[1..]);
      assert s.decoded + fs == s.decoded + [fs[0]] + fs[1..];
    }
  }

  lemma {:induction false} RejectAllAt(ps: seq<Promise>, ws: seq<nat>, why: Failure)
    requires |ws| <= |ps| && forall i :: 0 <= i < |ws| ==> ws[i] == |ps| - |ws| + i
    ensures var r := RejectAll(ps, ws, why);
            forall i :: 0 <= i < |ps| ==> r[i] == if i >= |ps| - |ws| then Rejected(why) else ps[i]
    decreases |ws|
  {
    if |ws| > 0 {
      RejectAllAt(Settle(ps, ws[0], Rejected(why)), ws[1..], why);
    }
  }

  lemma FailKeeps(s: State, why: Failure)
    requires Inv(s)
    ensures Inv(Fail(s, why)) && Fail(s, why).late == s.late && Fail(s, why).decoded == s.decoded
  {
    var first := if s.failure.Some? then s.failure.value else why;
    RejectAllAt(s.promises, s.waiters, first);
    var t := Fail(s, why);
    FramesRejected(s.promises, t.promises, |s.promises| - |s.waiters|);
    if s.late {
      var i: nat :| Passed(s, i);
      assert Passed(t, i);
    } else {
      forall i | 0 <= i < |t.promises|
        ensures t.promises[i] == Expected(t, i)
      {
        assert s.promises[i] == Expected(s, i);
      }
    }
  }

  lemma {:induction false} FramesRejected(ps: seq<Promise>, rs: seq<Promise>, k: nat)
    requires |ps| == |rs| && k <= |ps|
    requires forall i :: 0 <= i < k ==> ps[i] == rs[i]
    requires forall i :: k <= i < |ps| ==> !ps[i].Resolved? && !rs[i].Resolved?
    ensures Frames(ps) == Frames(rs)
    decreases |ps|
  {
    var n := |ps| - 1;
    if n >= 0 {
      FramesRejected(ps[..n], rs[..n], if k <= n then k else n);
    }
  }

  lemma DataKeeps(s: State, chunk: seq<Byte>)
    requires Inv(s)
    ensures var p := ParseAll(s.buf + chunk);
            var t := OnData(s, chunk);
            && Inv(t) && t.decoded == s.decoded + p.frames && t.buf == p.rest
            && (s.late || (p.frames != [] && SomeRejected(s.promises)) <==> t.late)
  {
    hide ParseAll, DeliverAll, Shape, Conserved, SomeRejected, InOrder;
    var p := ParseAll(s.buf + chunk);
    DeliverAllKeeps(s, p.frames);
    var t := DeliverAll(s, p.frames);
    BufIsIrrelevant(t, p.rest);
    if p.fatal.Some? { FailKeeps(t.(buf := p.rest), Undecodable(p.fatal.value)); }
  }

  lemma BufIsIrrelevant(s: State, b: seq<Byte>)
    requires Inv(s)
    ensures Inv(s.(buf := b))
  {
    var t := s.(buf := b);
    if s.late {
      var i: nat :| Passed(s, i);
      assert Passed(t, i);
    } else {
      assert forall i :: 0 <= i < |t.promises| ==> Expected(t, i) == Expected(s, i);
    }
  }

  /** The invariant holds after every run, and what was delivered is the ideal parse of what
      arrived, however it was split and whatever failed in between. */
  lemma {:induction false} Reachable(es: seq<Event>)
    ensures var s := Run(es);
            && Inv(s)
            && s.decoded == ParseAll(AllData(es)).frames && s.buf == ParseAll(AllData(es)).rest
            && s.failure == FirstFailure(es)
            && (ParseAll(AllData(es)).fatal.Some? ==> s.failure.Some?)
  {
    hide ParseAll, Inv, OnData, Fail, Read;
    if |es| == 0 {
      EmptyParse();
      EmptyInv();
    } else {
      var before, e := es[..|es| - 1], es[|es| - 1];
      Reachable(before);
      StepReachable(before, e);
      assert before + [e] == es;
    }
  }

  lemma EmptyInv()
    ensures Inv(EMPTY)
  {}

  lemma StepReachable(before: seq<Event>, e: Event)
    requires var s := Run(before);
             && Inv(s)
             && s.decoded == ParseAll(AllData(before)).frames && s.buf == ParseAll(AllData(before)).rest
             && s.failure == FirstFailure(before)
             && (ParseAll(AllData(before)).fatal.Some? ==> s.failure.Some?)
    ensures var es := before + [e];
            var s := Run(es);
            && Inv(s)
            && s.decoded == ParseAll(AllData(es)).frames && s.buf == ParseAll(AllData(es)).rest
            && s.failure == FirstFailure(es)
            && (ParseAll(AllData(es)).fatal.Some? ==> s.failure.Some?)
  {
    hide ParseAll, Shape, Conserved, Ordered, DeliverAll, RejectAll;
    var s, es := Run(before), before + [e];
    assert es[..|es| - 1] == before;
    match e {
      case Reading =>
        ReadKeepsShape(s);
        ReadKeepsConserved(s);
        ReadKeepsOrdered(s);
      case SocketFails(r) =>
        FailKeeps(s, Socket(r));
      case Data(c) =>
        var d := AllData(before);
        DataKeeps(s, c);
        DeliverAllKeeps(s, ParseAll(s.buf + c).frames);
        ParseAppend(d, c);
        if ParseAll(d).fatal.Some? { ParseRest(d, c); }
    }
  }

  /** Bytes that do not decode still do not when more arrive behind them. */
  lemma ParseRest(d: seq<Byte>, c: seq<Byte>)
    requires ParseAll(d).fatal.Some?
    ensures ParseAll(ParseAll(d).rest + c) == Parsed([], ParseAll(d).rest + c, ParseAll(d).fatal)
  {
    hide Decode, ParseAll;
    ParseSound(d);
    var r := ParseAll(d).rest;
    DecodeAppend(r, c);
    ParseErr(r + c);
  }

  function Reads(es: seq<Event>): nat {
    if |es| == 0 then 0 else Reads(es[..|es| - 1]) + if es[|es| - 1].Reading? then 1 else 0
  }

  /** Frames completed by all the bytes that arrived. */
  function Arrived(es: seq<Event>): seq<Frame> { ParseAll(AllData(es)).frames }

  /** Some chunk completed a frame after a failure, when more had been read than had arrived. */
  ghost predicate ReadMissed(es: seq<Event>) {
    |es| > 0
    && var before := es[..|es| - 1];
       ReadMissed(before)
       || (FirstFailure(before).Some? && Reads(before) > |Arrived(before)| && |Arrived(es)| > |Arrived(before)|)
  }

  lemma {:induction false} RunReads(es: seq<Event>)
    ensures |Run(es).promises| == Reads(es)
  {
    hide ParseAll;
    if |es| > 0 {
      RunReads(es[..|es| - 1]);
      if es[|es| - 1].Data? {
        DeliverCounts(Run(es[..|es| - 1]), ParseAll(Run(es[..|es| - 1]).buf + es[|es| - 1].chunk).frames);
      }
    }
  }

  lemma {:induction false} DeliverCounts(s: State, fs: seq<Frame>)
    ensures |DeliverAll(s, fs).promises| == |s.promises|
    decreases |fs|
  {
    if |fs| > 0 { DeliverCounts(Deliver(s, fs[0]), fs[1..]); }
  }

  /** A run in order has a rejected read exactly if it failed and more was read than arrived. */
  lemma RejectedIff(s: State)
    requires Inv(s) && !s.late
    ensures SomeRejected(s.promises) <==> s.failure.Some? && |s.promises| > |s.decoded|
  {
    hide Shape, Conserved;
    assert forall i :: 0 <= i < |s.promises| ==> s.promises[i] == Expected(s, i);
    if s.failure.Some? && |s.promises| > |s.decoded| {
      assert s.promises[|s.decoded|].Rejected?;
    }
  }

  /** The history flag in terms of the events. */
  lemma {:induction false} LateIff(es: seq<Event>)
    ensures Run(es).late <==> ReadMissed(es)
  {
    hide ParseAll, AllData, Inv, FirstFailure;
    if |es| > 0 {
      var before, e := es[..|es| - 1], es[|es| - 1];
      LateIff(before);
      Reachable(before);
      Reachable(es);
      RunReads(before);
      if !Run(before).late { RejectedIff(Run(before)); }
      LateStep(Run(before), e);
      hide Run;
      assert Run(es) == Step(Run(before), e) by { RunLast(es); }
    }
  }

  lemma RunLast(es: seq<Event>)
    requires |es| > 0
    ensures Run(es) == Step(Run(es[..|es| - 1]), es[|es| - 1])
  {}

  lemma LateStep(s: State, e: Event)
    requires Inv(s)
    ensures var t := Step(s, e);
            t.late <==> s.late || (SomeRejected(s.promises) && |t.decoded| > |s.decoded|)
  {
    hide ParseAll, DeliverAll, Shape, Conserved, Ordered, SomeRejected, RejectAll;
    match e {
      case Reading =>
      case SocketFails(r) => FailKeeps(s, Socket(r));
      case Data(c) => DataKeeps(s, c);
    }
  }

  /** Reads and frames match up, read by read, in exactly the runs in which no chunk completed a frame
      after a failure with more read than arrived. */
  lemma InOrderIff(es: seq<Event>)
    ensures InOrder(Run(es)) <==> !ReadMissed(es)
  {
    hide ParseAll, AllData, ReadMissed;
    Reachable(es);
    LateIff(es);
    var s := Run(es);
    if s.late {
      var i: nat :| Passed(s, i);
      assert s.promises[i] != Expected(s, i);
    }
  }

  /** A socket that failed delivers no more data: what the event source promises. */
  ghost predicate QuietAfterFailure(es: seq<Event>) {
    forall i, j :: 0 <= i < j < |es| && es[i].SocketFails? ==> !es[j].Data?
  }

  lemma {:induction false} QuietIsNeverLate(es: seq<Event>)
    requires QuietAfterFailure(es)
    ensures !Run(es).late
    ensures Run(es).failure.Some? ==>
              ParseAll(AllData(es)).fatal.Some? || exists i :: 0 <= i < |es| && es[i].SocketFails?
  {
    hide ParseAll, Inv, AllData;
    if |es| > 0 {
      var before, e := es[..|es| - 1], es[|es| - 1];
      QuietIsNeverLate(before);
      Reachable(before);
      Reachable(es);
      QuietStep(before, e, es);
    }
  }

  lemma QuietStep(before: seq<Event>, e: Event, es: seq<Event>)
    requires |es| > 0 && before == es[..|es| - 1] && e == es[|es| - 1] && QuietAfterFailure(es)
    requires Inv(Run(before)) && !Run(before).late
    requires Run(before).buf == ParseAll(AllData(before)).rest
    requires Run(before).failure.Some? ==>
               ParseAll(AllData(before)).fatal.Some? || exists i :: 0 <= i < |before| && before[i].SocketFails?
    ensures !Run(es).late
    ensures Run(es).failure.Some? ==>
              ParseAll(AllData(es)).fatal.Some? || exists i :: 0 <= i < |es| && es[i].SocketFails?
  {
    hide ParseAll, DeliverAll, RejectAll;
    var s := Run(before);
    if e.Data? {
      assert forall i :: 0 <= i < |before| ==> before[i] == es[i];
      DataKeeps(s, e.chunk);
      DeliverAllKeeps(s, ParseAll(s.buf + e.chunk).frames);
      ParseAppend(AllData(before), e.chunk);
      if s.failure.Some? {
        ParseRest(AllData(before), e.chunk);
      }
    } else if e.SocketFails? {
      assert es[|before|].SocketFails?;
    } else if s.failure.Some? && !ParseAll(AllData(before)).fatal.Some? {
      var i :| 0 <= i < |before| && before[i].SocketFails?;
      assert es[i].SocketFails?;
    }
  }

  /** For every interleaving in which the failed socket is quiet, the i-th read resolves with
      the i-th frame of the concatenated bytes if there is one; otherwise it is rejected with
      the first failure if there was one, and still waits if there was none. */
  lemma ReadsGetFrames(es: seq<Event>, i: nat)
    requires QuietAfterFailure(es) && i < |Run(es).promises|
    ensures var frames := ParseAll(AllData(es)).frames;
            Run(es).promises[i] ==
            if i < |frames| then Resolved(frames[i])
            else if FirstFailure(es).Some? then Rejected(FirstFailure(es).value)
            else Pending
  {
    hide ParseAll, AllData;
    Reachable(es);
    QuietIsNeverLate(es);
    LateIff(es);
    InOrderIff(es);
  }

  lemma OneFrame(f: Frame)
    requires f.Fits() && f.FlagsDefined()
    ensures ParseAll(EncodeBytes(f)) == Parsed([f], [], None)
  {
    hide ParseAll, EncodeBytes;
    EmptyParse();
    ParseWire([f], []);
    assert WireOf([f]) == EncodeBytes(f) + WireOf([]);
    assert WireOf([f]) + [] == EncodeBytes(f);
    assert [f] + ParseAll([]).frames == [f];
  }

  /** A run in which a read misses its frame: it waits, the socket fails, and a frame arrives. */
  lemma LateFrame(f: Frame)
    requires f.Fits() && f.FlagsDefined()
    ensures var s := Run([Reading, SocketFails(0), Data(EncodeBytes(f))]);
            s.decoded == [f] && s.promises == [Rejected(Socket(0))] && s.ready == [f]
  {
    hide ParseAll, EncodeBytes;
    var es := [Reading, SocketFails(0), Data(EncodeBytes(f))];
    assert es[..2] == [Reading, SocketFails(0)] && es[..2][..1] == [Reading] && es[..2][..1][..0] == [];
    var a := Run([Reading]);
    assert a == State([], [], [0], None, [Pending], [], false);
    var b := Run([Reading, SocketFails(0)]);
    RejectAllAt([Pending], [0], Socket(0));
    assert b == State([], [], [], Some(Socket(0)), [Rejected(Socket(0))], [], false);
    OneFrame(f);
    assert [] + EncodeBytes(f) == EncodeBytes(f);
    var c := Deliver(b, f);
    assert c.promises == b.promises && c.ready == [f] && c.decoded == [f];
    assert DeliverAll(b, [f]) == DeliverAll(c, []) == c;
    assert Run(es) == OnData(b, EncodeBytes(f));
  }
}
