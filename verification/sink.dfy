/**
 The TypeScript multiplexer's `StreamSink`: the queue of one stream, with at most one waiter.
 */
module FrameSink {
  import opened Wrappers
  import opened FrameCodec
  import opened FrameStream

  datatype Promise = Pending | Resolved(frame: Frame) | Rejected(reason: ReadError)

  /** `promises` are all those handed out by `next()`, `waiter` the number of the one that the next
      frame settles. */
  datatype State = State(frames: seq<Frame>, waiter: Option<nat>, failure: Option<ReadError>, promises: seq<Promise>)

  const EMPTY := State([], None, None, [])

  function Settled(s: State, p: Promise): State {
    if s.waiter.Some? && s.waiter.value < |s.promises|
    then s.(waiter := None, promises := s.promises[s.waiter.value := p]) else s.(waiter := None)
  }

  function DoPush(s: State, f: Frame): State {
    if s.waiter.Some? then Settled(s, Resolved(f)) else s.(frames := s.frames + [f])
  }

  function DoFail(s: State, why: ReadError): State {
    Settled(s.(failure := if s.failure.None? then Some(why) else s.failure), Rejected(why))
  }

  function DoNext(s: State): State {
    if s.frames != [] then s.(frames := s.frames[1..], promises := s.promises + [Resolved(s.frames[0])])
    else if s.failure.Some? then s.(promises := s.promises + [Rejected(s.failure.value)])
    else s.(waiter := Some(|s.promises|), promises := s.promises + [Pending])
  }

  class StreamSink {
    var frames: seq<Frame>
    var waiter: Option<nat>
    var failure: Option<ReadError>
    var promises: seq<Promise>

    ghost function View(): State
      reads this
    {
      State(frames, waiter, failure, promises)
    }

    constructor ()
      ensures View() == EMPTY
    {
      frames, waiter, failure, promises := [], None, None, [];
    }

    method Push(frame: Frame)
      requires waiter.Some? ==> waiter.value < |promises|
      modifies this
      ensures View() == DoPush(old(View()), frame)
    {
      if waiter.Some? {
        var w := waiter.value;
        waiter := None;
        promises := promises[w := Resolved(frame)];
      } else {
        frames := frames + [frame];
      }
    }

    method Fail(err: ReadError)
      requires waiter.Some? ==> waiter.value < |promises|
      modifies this
      ensures View() == DoFail(old(View()), err)
    {
      if failure.None? { failure := Some(err); }
      if waiter.Some? {
        var w := waiter.value;
        waiter := None;
        promises := promises[w := Rejected(err)];
      }
    }

    /** Returns the number of the promise it hands out. */
    method Next() returns (promise: nat)
      modifies this
      ensures View() == DoNext(old(View())) && promise == |old(promises)|
    {
      promise := |promises|;
      if frames != [] {
        var queued := frames[0];
        frames := frames[1..];
        promises := promises + [Resolved(queued)];
        return;
      }
      if failure.Some? {
        promises := promises + [Rejected(failure.value)];
        return;
      }
      waiter := Some(promise);
      promises := promises + [Pending];
    }
  }

  // Whole runs.

  datatype Event = Push(frame: Frame) | Fail(why: ReadError) | Next

  function Step(s: State, e: Event): State {
    match e
    case Push(f) => DoPush(s, f)
    case Fail(why) => DoFail(s, why)
    case Next => DoNext(s)
  }

  function Run(es: seq<Event>): State {
    if es == [] then EMPTY else Step(Run(es[..|es| - 1]), es[|es| - 1])
  }

  function Pushed(es: seq<Event>): seq<Frame> {
    if es == [] then []
    else
      var e, before := es[|es| - 1], Pushed(es[..|es| - 1]);
      if e.Push? then before + [e.frame] else before
  }

  function FirstFailure(es: seq<Event>): Option<ReadError> {
    if es == [] then None
    else
      var e, before := es[|es| - 1], FirstFailure(es[..|es| - 1]);
      if before.None? && e.Fail? then Some(e.why) else before
  }

  /** How often `next()` was called. */
  function Nexts(es: seq<Event>): nat {
    if es == [] then 0 else Nexts(es[..|es| - 1]) + if es[|es| - 1].Next? then 1 else 0
  }

  /** The i-th promise: the i-th frame if there is one, else the failure if there is one. */
  function Expected(pushed: seq<Frame>, failure: Option<ReadError>, i: nat): Promise {
    if i < |pushed| then Resolved(pushed[i])
    else if failure.Some? then Rejected(failure.value)
    else Pending
  }

  /** Something came for a promise that cannot get it any more: the sink first heard from its producer
      again when `next()` had been called while an earlier call still waited, or a frame was pushed
      after the failure when a call had already been rejected. */
  ghost predicate Missed(es: seq<Event>) {
    es != []
    && var e, before := es[|es| - 1], es[..|es| - 1];
       Missed(before)
       || (FirstFailure(before).None? && !e.Next? && Nexts(before) > |Pushed(before)| + 1)
       || (FirstFailure(before).Some? && e.Push? && Nexts(before) > |Pushed(before)|)
  }

  ghost predicate InOrder(s: State, pushed: seq<Frame>, failure: Option<ReadError>) {
    forall i :: 0 <= i < |s.promises| ==> s.promises[i] == Expected(pushed, failure, i)
  }

  /** A state in order: what is queued, and who waits. */
  ghost predicate Explained(s: State, pushed: seq<Frame>, failure: Option<ReadError>) {
    var n := |s.promises|;
    && InOrder(s, pushed, failure)
    && s.frames == (if n <= |pushed| then pushed[n..] else [])
    && s.waiter == (if failure.None? && n > |pushed| then Some((n - 1) as nat) else None)
  }

  /** Promise `i` is not what it should be, and nothing will settle it. */
  ghost predicate Wrong(s: State, pushed: seq<Frame>, failure: Option<ReadError>, i: nat) {
    && i < |s.promises| && s.waiter != Some(i) && !s.promises[i].Resolved?
    && (i < |pushed| || (s.promises[i].Pending? && failure.Some?))
  }

  function Grown(pushed: seq<Frame>, e: Event): seq<Frame> { if e.Push? then pushed + [e.frame] else pushed }

  function Failing(failure: Option<ReadError>, e: Event): Option<ReadError> {
    if failure.None? && e.Fail? then Some(e.why) else failure
  }

  lemma StepExplained(s: State, pushed: seq<Frame>, failure: Option<ReadError>, e: Event)
    requires Explained(s, pushed, failure) && s.failure == failure
    requires failure.None? && !e.Next? ==> |s.promises| <= |pushed| + 1
    requires failure.Some? && e.Push? ==> |s.promises| <= |pushed|
    ensures Explained(Step(s, e), Grown(pushed, e), Failing(failure, e))
  {}

  lemma StepMisses(s: State, pushed: seq<Frame>, failure: Option<ReadError>, e: Event)
    requires Explained(s, pushed, failure) && |s.promises| > |pushed|
    requires if failure.None? then !e.Next? && |s.promises| > |pushed| + 1 else e.Push?
    ensures Wrong(Step(s, e), Grown(pushed, e), Failing(failure, e), |pushed|)
  {
    assert s.promises[|pushed|] == Expected(pushed, failure, |pushed|);
  }

  lemma StepStaysWrong(s: State, pushed: seq<Frame>, failure: Option<ReadError>, e: Event, i: nat)
    requires Wrong(s, pushed, failure, i)
    ensures Wrong(Step(s, e), Grown(pushed, e), Failing(failure, e), i)
  {}

  lemma {:induction false} Counts(es: seq<Event>)
    ensures |Run(es).promises| == Nexts(es) && Run(es).failure == FirstFailure(es)
  {
    if es != [] { Counts(es[..|es| - 1]); }
  }

  /** Every run is either explained or has a promise that stays wrong. */
  lemma {:induction false} ExplainedOrWrong(es: seq<Event>)
    ensures !Missed(es) ==> Explained(Run(es), Pushed(es), FirstFailure(es))
    ensures Missed(es) ==> exists i: nat :: Wrong(Run(es), Pushed(es), FirstFailure(es), i)
    decreases |es|
  {
    if es != [] {
      var e, before := es[|es| - 1], es[..|es| - 1];
      ExplainedOrWrong(before);
      Counts(before);
      var s, pushed, failure := Run(before), Pushed(before), FirstFailure(before);
      assert Run(es) == Step(s, e) && Pushed(es) == Grown(pushed, e) && FirstFailure(es) == Failing(failure, e);
      hide Step, Explained, Wrong, Run, Pushed, FirstFailure, Grown, Failing;
      if Missed(before) {
        var i: nat :| Wrong(s, pushed, failure, i);
        StepStaysWrong(s, pushed, failure, e, i);
      } else if Missed(es) {
        StepMisses(s, pushed, failure, e);
      } else {
        StepExplained(s, pushed, failure, e);
      }
    }
  }

  /** In every run, each `next()` gets the frame of its number, whether it was pushed before or after the
      call, and beyond the last frame the first failure, if and only if nothing came for a promise
      that had been passed over. */
  lemma InOrderIff(es: seq<Event>)
    ensures InOrder(Run(es), Pushed(es), FirstFailure(es)) <==> !Missed(es)
  {
    hide Run, Pushed, FirstFailure, Missed;
    ExplainedOrWrong(es);
    if Missed(es) {
      var i: nat :| Wrong(Run(es), Pushed(es), FirstFailure(es), i);
      assert Run(es).promises[i] != Expected(Pushed(es), FirstFailure(es), i);
    }
  }

  /** One consumer that awaits each frame before it asks for the next, and a producer that pushes
      nothing once it has failed the stream: what the connection's own requests do. */
  ghost predicate Orderly(es: seq<Event>) {
    es == []
    || (var e, before := es[|es| - 1], es[..|es| - 1];
        && Orderly(before)
        && (e.Next? ==> Pending !in Run(before).promises)
        && (e.Push? ==> FirstFailure(before).None?))
  }

  lemma {:induction false} OrderlyIsNotMissed(es: seq<Event>)
    requires Orderly(es)
    ensures !Missed(es) && (FirstFailure(es).None? ==> Nexts(es) <= |Pushed(es)| + 1)
    decreases |es|
  {
    hide Run;
    if es != [] {
      var e, before := es[|es| - 1], es[..|es| - 1];
      OrderlyIsNotMissed(before);
      ExplainedOrWrong(before);
      Counts(before);
      var s, pushed := Run(before), Pushed(before);
      if FirstFailure(before).None? && |s.promises| > |pushed| {
        assert s.promises[|pushed|] == Pending;
      }
    }
  }

  /** So an orderly consumer always gets its frames by number. */
  lemma NextGetsItsFrame(es: seq<Event>)
    requires Orderly(es)
    ensures InOrder(Run(es), Pushed(es), FirstFailure(es))
  {
    OrderlyIsNotMissed(es);
    InOrderIff(es);
  }

  /** Two calls before the first is answered: the one frame goes to the second. */
  lemma AskedTwice(f: Frame)
    ensures Run([Next, Next, Push(f)]).promises == [Pending, Resolved(f)]
    ensures Missed([Next, Next, Push(f)])
  {
    var es := [Next, Next, Push(f)];
    assert es[..2] == [Next, Next] && [Next, Next][..1] == [Next] && [Next][..0] == [];
    assert Run([Next]).promises == [Pending];
    assert Run([Next, Next]).promises == [Pending, Pending];
  }

  lemma RunPush(es: seq<Event>, e: Event)
    ensures Run(es + [e]) == Step(Run(es), e)
  {
    assert (es + [e])[..|es|] == es;
  }

  ghost predicate Stranded(s: State, i: nat) {
    i < |s.promises| && s.promises[i] == Pending && s.waiter != Some(i)
  }

  lemma StepStrands(s: State, e: Event, i: nat)
    requires Stranded(s, i)
    ensures Stranded(Step(s, e), i)
  {}

  /** Asking again while a promise is still pending strands that promise: nothing settles it any
      more. */
  lemma {:induction false} StrandedForever(es: seq<Event>, more: seq<Event>, i: nat)
    requires Run(es).waiter == Some(i) && Run(es).frames == [] && Run(es).failure.None?
    requires i < |Run(es).promises| && Run(es).promises[i] == Pending
    ensures Stranded(Run(es + [Next] + more), i)
    decreases |more|
  {
    hide Run;
    if more == [] {
      assert es + [Next] + more == es + [Next];
      RunPush(es, Next);
    } else {
      var before, e := more[..|more| - 1], more[|more| - 1];
      StrandedForever(es, before, i);
      assert es + [Next] + more == (es + [Next] + before) + [e];
      RunPush(es + [Next] + before, e);
      hide Step, Stranded;
      StepStrands(Run(es + [Next] + before), e, i);
    }
  }
}
