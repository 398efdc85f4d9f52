/**
 Resuming the feed: when the remembered id is that of the last event a caller was given.
 */
module SseResume {
  import opened Wrappers
  import opened FrameStream
  import opened Sse

  /** The id that came with the last delivered event, or what was remembered before there was one. */
  function DeliveredId(lines: seq<Text>, f: Fields): Option<Text> {
    var ds := Dispatches(lines, f);
    if ds == [] then f.lastId else ds[|ds| - 1].lastId
  }

  /** How many lines there are up to and including the last one that dispatched an event. */
  function DispatchEnd(lines: seq<Text>, f: Fields): (k: nat)
    ensures k <= |lines|
  {
    if lines == [] then 0
    else
      var n := |lines| - 1;
      if LineStep(After(lines[..n], f), lines[n]).1.Some? then n + 1 else DispatchEnd(lines[..n], f)
  }

  /** The lines behind that one. */
  function Tail(lines: seq<Text>, f: Fields): seq<Text> { lines[DispatchEnd(lines, f)..] }

  /** The values of the `id` lines, in order. */
  function IdsOf(lines: seq<Text>): seq<Text> {
    if lines == [] then []
    else
      var last := lines[|lines| - 1];
      IdsOf(lines[..|lines| - 1]) + if FieldOf(last) == ID then [ValueOf(last)] else []
  }

  lemma AfterOne(f: Fields, line: Text)
    ensures After([line], f) == LineStep(f, line).0
    ensures Dispatches([line], f) ==
            if LineStep(f, line).1.Some? then [Dispatch(LineStep(f, line).1.value, LineStep(f, line).0.lastId)] else []
  {
    hide LineStep;
    assert [line][1..] == [];
  }

  // What one more line does to each.

  lemma EndSnoc(front: seq<Text>, last: Text, f: Fields)
    ensures DispatchEnd(front + [last], f) ==
            if LineStep(After(front, f), last).1.Some? then |front| + 1 else DispatchEnd(front, f)
  {
    hide LineStep, After;
    assert (front + [last])[..|front|] == front;
  }

  lemma DispatchesSnoc(front: seq<Text>, last: Text, f: Fields)
    ensures var (g, item) := LineStep(After(front, f), last);
            && After(front + [last], f) == g
            && Dispatches(front + [last], f) ==
               Dispatches(front, f) + if item.Some? then [Dispatch(item.value, g.lastId)] else []
  {
    hide LineStep, After, Dispatches;
    AfterAppend(front, [last], f);
    DispatchesAppend(front, [last], f);
    AfterOne(After(front, f), last);
  }

  lemma LatestSnoc(front: seq<Text>, last: Text, before: Option<Text>)
    ensures LatestId(front + [last], before) ==
            if FieldOf(last) == ID then Some(ValueOf(last)) else LatestId(front, before)
  {
    hide FieldOf, ValueOf;
    assert (front + [last])[..|front|] == front;
  }

  /** That line dispatched, everything that was dispatched came by then, and there is such a line
      exactly if something was. */
  lemma {:induction false} DispatchEndMeans(lines: seq<Text>, f: Fields)
    ensures var k := DispatchEnd(lines, f);
            && (k > 0 ==> LineStep(After(lines[..k - 1], f), lines[k - 1]).1.Some?)
            && Dispatches(lines[..k], f) == Dispatches(lines, f)
            && (k == 0 <==> Dispatches(lines, f) == [])
    decreases |lines|
  {
    if lines != [] {
      hide LineStep, After, Dispatches, DispatchEnd;
      var n := |lines| - 1;
      var front, last := lines[..n], lines[n];
      DispatchEndMeans(front, f);
      assert lines == front + [last] && lines[..n + 1] == lines;
      DispatchesSnoc(front, last, f);
      EndSnoc(front, last, f);
      var k := DispatchEnd(front, f);
      assert front[..k] == lines[..k] && (k > 0 ==> front[..k - 1] == lines[..k - 1]);
    }
  }

  lemma TailSnoc(front: seq<Text>, last: Text, f: Fields)
    ensures Tail(front + [last], f) ==
            if LineStep(After(front, f), last).1.Some? then [] else Tail(front, f) + [last]
  {
    hide LineStep, After, DispatchEnd;
    EndSnoc(front, last, f);
  }

  lemma DeliveredSnoc(front: seq<Text>, last: Text, f: Fields)
    ensures var (g, item) := LineStep(After(front, f), last);
            DeliveredId(front + [last], f) == if item.Some? then g.lastId else DeliveredId(front, f)
  {
    hide LineStep, After, Dispatches;
    DispatchesSnoc(front, last, f);
    assert Dispatches(front, f) + [] == Dispatches(front, f);
  }

  lemma IdAfter(f: Fields, line: Text)
    ensures LineStep(f, line).0.lastId == if FieldOf(line) == ID then Some(ValueOf(line)) else f.lastId
  {
    StepId(f, line);
  }

  /** The remembered id is the newest in the tail, or else the delivered one. */
  lemma {:induction false} RememberedFromTail(lines: seq<Text>, f: Fields)
    ensures After(lines, f).lastId == LatestId(Tail(lines, f), DeliveredId(lines, f))
    decreases |lines|
  {
    if lines == [] {
      NoLatest(f.lastId);
    } else {
      hide LineStep, After, Tail, DeliveredId, FieldOf, ValueOf, LatestId;
      var front, last := lines[..|lines| - 1], lines[|lines| - 1];
      RememberedFromTail(front, f);
      assert lines == front + [last];
      DispatchesSnoc(front, last, f);
      TailSnoc(front, last, f);
      DeliveredSnoc(front, last, f);
      if LineStep(After(front, f), last).1.Some? {
        NoLatest(DeliveredId(lines, f));
      } else {
        IdAfter(After(front, f), last);
        LatestSnoc(Tail(front, f), last, DeliveredId(front, f));
      }
    }
  }

  lemma NoLatest(before: Option<Text>)
    ensures LatestId([], before) == before
  {}

  lemma {:induction false} LatestIsLast(lines: seq<Text>, before: Option<Text>)
    ensures LatestId(lines, before) ==
            if IdsOf(lines) == [] then before else Some(IdsOf(lines)[|IdsOf(lines)| - 1])
  {
    if lines != [] { LatestIsLast(lines[..|lines| - 1], before); }
  }

  /** The remembered id is the last delivered event's exactly when no `id` line follows that event's
      blank line, or the newest one there has the same value. */
  lemma RememberedIsDeliveredIff(lines: seq<Text>, f: Fields)
    ensures var ids := IdsOf(Tail(lines, f));
            After(lines, f).lastId == DeliveredId(lines, f) <==>
            ids == [] || Some(ids[|ids| - 1]) == DeliveredId(lines, f)
  {
    hide After, Tail, DeliveredId, IdsOf, LatestId;
    RememberedFromTail(lines, f);
    LatestIsLast(Tail(lines, f), DeliveredId(lines, f));
  }

  /** With nothing delivered yet, on a new feed: exactly when no `id` line came at all. */
  lemma NothingDelivered(lines: seq<Text>)
    requires Dispatches(lines, NO_FIELDS) == []
    ensures After(lines, NO_FIELDS).lastId == None <==> IdsOf(lines) == []
  {
    hide After, Dispatches, LineStep, LatestId, DispatchEnd;
    RememberedIsDeliveredIff(lines, NO_FIELDS);
    DispatchEndMeans(lines, NO_FIELDS);
    assert lines[0..] == lines;
  }

  /** Reading a feed to its end: the caller gets the body's events in order, and the id it would then
      resume from is the last one's exactly under that condition on the body's lines. */
  method ReadOut(feed: Subscription) returns (items: seq<Item>, last: Next)
    requires !feed.done
    modifies feed, feed.stream
    ensures var ds := old(feed.Ahead());
            |items| == |ds| && forall i :: 0 <= i < |ds| ==> items[i] == ds[i].item
    ensures last == if feed.stream.ending.Eof? then Ended else Broken
    ensures var lines, f := old(Lines(feed.buf + feed.stream.left)), old(feed.View());
            var ids := IdsOf(Tail(lines, f));
            && feed.lastId == LatestId(lines, f.lastId)
            && (feed.lastId == DeliveredId(lines, f) <==> ids == [] || Some(ids[|ids| - 1]) == DeliveredId(lines, f))
  {
    hide Lines, Dispatches, After, LineStep, Tail, IdsOf, DeliveredId, LatestId;
    ghost var all := feed.Ahead();
    ghost var end := feed.AtEnd();
    RememberedIsLatest(Lines(feed.buf + feed.stream.left), feed.View());
    RememberedIsDeliveredIff(Lines(feed.buf + feed.stream.left), feed.View());
    items := [];
    while true
      invariant !feed.done && feed.AtEnd() == end
      invariant |items| <= |all| && feed.Ahead() == all[|items|..]
      invariant forall i :: 0 <= i < |items| ==> items[i] == all[i].item
      decreases |all| - |items|
    {
      last := feed.NextItem();
      if !last.Yielded? {
        return;
      }
      items := items + [last.item];
    }
  }

  /** The bytes `id:7` and a line end: nothing is delivered, and 7 is remembered. */
  lemma RunsAhead()
    ensures Lines(ID_SEVEN + [LF]) == [ID_SEVEN] && Dispatches([ID_SEVEN], NO_FIELDS) == []
    ensures After([ID_SEVEN], NO_FIELDS).lastId == Some([55])
  {
    var body := ID_SEVEN + [LF];
    var n, m := IndexOf(body, LF), IndexOf(ID_SEVEN, COLON);
    assert body[4] == LF && body[0] != LF && body[1] != LF && body[2] != LF && body[3] != LF;
    assert n == 4 && body[..4] == ID_SEVEN && body[5..] == [];
    assert ID_SEVEN[2] == COLON && ID_SEVEN[0] != COLON && ID_SEVEN[1] != COLON;
    assert m == 2 && ID_SEVEN[..2] == ID && ID_SEVEN[3..] == [55];
    AfterOne(NO_FIELDS, ID_SEVEN);
  }

  const ID_SEVEN: Text := [105, 100, 58, 55]
}
