/**
 The change feed's SSE parser: a growing buffer drained line by line.

 Lines are kept as bytes; UTF-8 decoding and the JSON of an item's data are left to the caller,
 and neither can move a line end, a colon or a leading space.
 */
module Sse {
  import opened Bytes
  import opened Wrappers
  import opened FrameStream

  type Text = seq<Byte>

  const LF: Byte := 10
  const CR: Byte := 13
  const SPACE: Byte := 32
  const COLON: Byte := 58
  const EVENT: Text := [101, 118, 101, 110, 116]
  const ID: Text := [105, 100]
  const DATA: Text := [100, 97, 116, 97]

  /** One dispatched frame, and the last id remembered when it was dispatched. */
  datatype Item = Item(name: Option<Text>, data: Text)

  datatype Dispatch = Dispatch(item: Item, lastId: Option<Text>)

  /** What the parser remembers between lines. */
  datatype Fields = Fields(name: Option<Text>, data: Text, lastId: Option<Text>)

  const NO_FIELDS := Fields(None, [], None)

  /** Index of the first `x`, or the length. */
  function IndexOf(s: Text, x: Byte): (n: nat)
    ensures n <= |s|
    ensures n < |s| ==> s[n] == x
    ensures forall i :: 0 <= i < n ==> s[i] != x
  {
    if |s| == 0 || s[0] == x then 0 else 1 + IndexOf(s[1..], x)
  }

  /** A line without the CR that belongs to its end. */
  function Chomp(line: Text): Text {
    if |line| > 0 && line[|line| - 1] == CR then line[..|line| - 1] else line
  }

  function FieldOf(line: Text): Text { line[..IndexOf(line, COLON)] }

  function ValueOf(line: Text): Text {
    var n := IndexOf(line, COLON);
    if n == |line| then []
    else
      var v := line[n + 1..];
      if |v| > 0 && v[0] == SPACE then v[1..] else v
  }

  /** One line: a blank one dispatches if there is data, a comment does nothing, a field is noted. */
  function LineStep(f: Fields, line: Text): (Fields, Option<Item>) {
    if line == [] then
      (f.(name := None, data := []), if f.data == [] then None else Some(Item(f.name, f.data)))
    else if line[0] == COLON then (f, None)
    else
      var field, value := FieldOf(line), ValueOf(line);
      if field == EVENT then (f.(name := Some(value)), None)
      else if field == ID then (f.(lastId := Some(value)), None)
      else if field == DATA then (f.(data := (if f.data == [] then [] else f.data + [LF]) + value), None)
      else (f, None)
  }

  /** Process complete lines until one dispatches or they run out. */
  function Take(buf: Text, f: Fields): (Option<Item>, Text, Fields)
    decreases |buf|
  {
    var n := IndexOf(buf, LF);
    if n == |buf| then (None, buf, f)
    else
      var (g, item) := LineStep(f, Chomp(buf[..n]));
      if item.Some? then (item, buf[n + 1..], g) else Take(buf[n + 1..], g)
  }

  /** The complete lines of `buf`, without their ends. */
  function Lines(buf: Text): seq<Text>
    decreases |buf|
  {
    var n := IndexOf(buf, LF);
    if n == |buf| then [] else [Chomp(buf[..n])] + Lines(buf[n + 1..])
  }

  /** What is remembered after some lines. */
  function After(lines: seq<Text>, f: Fields): Fields {
    if lines == [] then f else After(lines[1..], LineStep(f, lines[0]).0)
  }

  /** What some lines dispatch, each with the id remembered at its blank line. */
  function Dispatches(lines: seq<Text>, f: Fields): seq<Dispatch> {
    if lines == [] then []
    else
      var (g, item) := LineStep(f, lines[0]);
      (if item.Some? then [Dispatch(item.value, g.lastId)] else []) + Dispatches(lines[1..], g)
  }

  lemma IndexAppend(a: Text, c: Text, x: Byte)
    requires IndexOf(a, x) < |a|
    ensures IndexOf(a + c, x) == IndexOf(a, x)
  {
    var n, m := IndexOf(a, x), IndexOf(a + c, x);
    assert (a + c)[n] == x;
    if m < n { assert (a + c)[m] == a[m]; }
  }

  lemma LinesStep(buf: Text, c: Text)
    requires IndexOf(buf, LF) < |buf|
    ensures var n := IndexOf(buf, LF);
            Lines(buf + c) == [Chomp(buf[..n])] + Lines(buf[n + 1..] + c)
  {
    hide Chomp, IndexOf;
    var n := IndexOf(buf, LF);
    IndexAppend(buf, c, LF);
    assert (buf + c)[..n] == buf[..n] && (buf + c)[n + 1..] == buf[n + 1..] + c;
  }

  /** Draining a frame out of the buffer commutes with bytes arriving behind it. */
  lemma {:induction false} TakeThenMore(buf: Text, c: Text, f: Fields)
    ensures var (item, rest, g) := Take(buf, f);
            && |rest| <= |buf|
            && (item.Some? ==> |rest| < |buf|)
            && (item.None? ==> IndexOf(rest, LF) == |rest|)
            && After(Lines(buf + c), f) == After(Lines(rest + c), g)
            && Dispatches(Lines(buf + c), f) ==
               (if item.Some? then [Dispatch(item.value, g.lastId)] else []) + Dispatches(Lines(rest + c), g)
    decreases |buf|
  {
    hide LineStep, Lines, IndexOf, Chomp;
    var n := IndexOf(buf, LF);
    if n < |buf| {
      LinesStep(buf, c);
      var line, rest := Chomp(buf[..n]), Lines(buf[n + 1..] + c);
      assert ([line] + rest)[0] == line && ([line] + rest)[1..] == rest;
      var (g, item) := LineStep(f, line);
      if item.None? {
        TakeThenMore(buf[n + 1..], c, g);
        assert [] + Dispatches(rest, g) == Dispatches(rest, g);
      }
    } else {
      var all := Dispatches(Lines(buf + c), f);
      assert [] + all == all;
    }
  }

  /** The newest `id` field among some lines, if there is one, else what was remembered before. */
  function LatestId(lines: seq<Text>, before: Option<Text>): Option<Text> {
    if lines == [] then before
    else
      var last := lines[|lines| - 1];
      if FieldOf(last) == ID then Some(ValueOf(last)) else LatestId(lines[..|lines| - 1], before)
  }

  lemma AfterAppend(a: seq<Text>, b: seq<Text>, f: Fields)
    ensures After(a + b, f) == After(b, After(a, f))
  {
    hide LineStep;
    if a == [] {
      assert a + b == b;
    } else {
      assert (a + b)[1..] == a[1..] + b && (a + b)[0] == a[0];
      AfterAppend(a[1..], b, LineStep(f, a[0]).0);
    }
  }

  lemma DispatchesAppend(a: seq<Text>, b: seq<Text>, f: Fields)
    ensures Dispatches(a + b, f) == Dispatches(a, f) + Dispatches(b, After(a, f))
  {
    hide LineStep;
    if a == [] {
      assert a + b == b;
    } else {
      assert (a + b)[1..] == a[1..] + b && (a + b)[0] == a[0];
      DispatchesAppend(a[1..], b, LineStep(f, a[0]).0);
    }
  }

  /** The remembered id is always that of the newest `id` line read, whatever block it is in. */
  lemma {:induction false} RememberedIsLatest(lines: seq<Text>, f: Fields)
    ensures After(lines, f).lastId == LatestId(lines, f.lastId)
  {
    if lines != [] {
      var front, last := lines[..|lines| - 1], lines[|lines| - 1];
      assert lines == front + [last];
      AfterAppend(front, [last], f);
      RememberedIsLatest(front, f);
      StepId(After(front, f), last);
    }
  }

  lemma StepId(f: Fields, line: Text)
    ensures After([line], f) == LineStep(f, line).0
    ensures LineStep(f, line).0.lastId == if FieldOf(line) == ID then Some(ValueOf(line)) else f.lastId
    ensures LineStep(f, line).1.Some? ==> line == []
    ensures FieldOf([]) != ID
  {
    assert After([line], f) == After([line][1..], LineStep(f, line).0);
    if line != [] && line[0] == COLON {
      assert FieldOf(line) == [];
    }
  }

  /** The k-th dispatch happens at a blank line, and its id is the newest one above that line. */
  lemma {:induction false} DispatchIdIsLatest(lines: seq<Text>, f: Fields, k: nat) returns (p: nat)
    requires k < |Dispatches(lines, f)|
    ensures p < |lines| && lines[p] == []
    ensures |Dispatches(lines[..p], f)| == k && |Dispatches(lines[..p + 1], f)| == k + 1
    ensures Dispatches(lines, f)[k].lastId == LatestId(lines[..p], f.lastId)
  {
    hide LineStep, FieldOf, ValueOf;
    var n := |lines| - 1;
    var front, last := lines[..n], lines[n];
    assert lines == front + [last];
    DispatchesAppend(front, [last], f);
    if k < |Dispatches(front, f)| {
      p := DispatchIdIsLatest(front, f, k);
      assert front[..p] == lines[..p] && front[..p + 1] == lines[..p + 1];
    } else {
      p := n;
      var g := After(front, f);
      StepId(g, last);
      RememberedIsLatest(front, f);
      assert lines[..p + 1] == lines;
      assert Dispatches([last][1..], LineStep(g, last).0) == [];
    }
  }

  datatype Next = Yielded(item: Item) | Ended | Broken

  /** The feed: a response body, the buffer, the frame being built, and whether it is over. */
  class Subscription {
    const stream: Stream
    var buf: Text
    var eventName: Option<Text>
    var data: Text
    var lastId: Option<Text>
    var done: bool

    constructor (stream: Stream)
      ensures this.stream == stream && buf == [] && View() == NO_FIELDS && !done
    {
      this.stream := stream;
      buf, eventName, data, lastId, done := [], None, [], None, false;
    }

    function View(): Fields
      reads this
    {
      Fields(eventName, data, lastId)
    }

    /** Everything this feed will still dispatch. */
    function Ahead(): seq<Dispatch>
      reads this, stream
    {
      Dispatches(Lines(buf + stream.left), View())
    }

    /** What it will remember when the body has been read out. */
    function AtEnd(): Fields
      reads this, stream
    {
      After(Lines(buf + stream.left), View())
    }

    /** A line that is not blank: a comment, or a field to remember. */
    method NoteField(line: Text)
      requires line != []
      modifies `eventName, `data, `lastId
      ensures (View(), None) == LineStep(old(View()), line)
    {
      hide IndexOf;
      if line[0] == COLON {
        return;
      }
      var colon := IndexOf(line, COLON);
      var field, value := line[..colon], [];
      if colon < |line| {
        value := line[colon + 1..];
        if |value| > 0 && value[0] == SPACE {
          value := value[1..];
        }
      }
      if field == EVENT {
        eventName := Some(value);
      } else if field == ID {
        lastId := Some(value);
      } else if field == DATA {
        if data != [] {
          data := data + [LF];
        }
        data := data + value;
      }
    }

    method TakeFrame() returns (item: Option<Item>)
      modifies this
      ensures (item, buf, View()) == Take(old(buf), old(View())) && done == old(done)
    {
      hide Take, LineStep, IndexOf;
      ghost var goal := Take(buf, View());
      TakeUnfold(buf, View());
      while IndexOf(buf, LF) < |buf|
        invariant Take(buf, View()) == goal && done == old(done)
        decreases |buf|
      {
        TakeUnfold(buf, View());
        var end := IndexOf(buf, LF);
        var line := buf[..end];
        buf := buf[end + 1..];
        if |line| > 0 && line[|line| - 1] == CR {
          line := line[..|line| - 1];
        }
        if line == [] {
          BlankLine(View());
          if data == [] {
            eventName := None;
            continue;
          }
          var dispatched := Item(eventName, data);
          eventName := None;
          data := [];
          return Some(dispatched);
        }
        NoteField(line);
      }
      TakeUnfold(buf, View());
      item := None;
    }

    /** However the body is split, each call returns the next dispatch of the whole body, with the
        id that was current at its blank line; when there is none left the feed ends, or breaks
        with the transport, and the id it then remembers is the newest in any complete line, even
        one of a block that was never dispatched. */
    method NextItem() returns (r: Next)
      modifies this, stream
      ensures old(done) ==> r == Ended && done && Ahead() == old(Ahead())
      ensures !old(done) && old(Ahead()) != [] ==>
                r == Yielded(old(Ahead())[0].item) && Ahead() == old(Ahead())[1..]
                && lastId == old(Ahead())[0].lastId && !done
      ensures !old(done) && old(Ahead()) == [] ==>
                done && Ahead() == [] && View() == AtEnd() && r == if stream.ending.Eof? then Ended else Broken
      ensures AtEnd() == old(AtEnd())
    {
      hide Take, LineStep, Chomp, IndexOf;
      if done { return Ended; }
      while true
        invariant Ahead() == old(Ahead()) && AtEnd() == old(AtEnd()) && !done
        decreases |stream.left|
      {
        TakeThenMore(buf, stream.left, View());
        var item := TakeFrame();
        if item.Some? {
          return Yielded(item.value);
        }
        ghost var before, left := buf, stream.left;
        var chunk := stream.Read(|stream.left| + 1);
        if chunk.None? {
          NothingLeft(buf);
          assert buf + stream.left == buf;
          done := true;
          return Broken;
        }
        if chunk.value == [] {
          NothingLeft(buf);
          assert buf + stream.left == buf;
          done := true;
          return Ended;
        }
        buf := buf + chunk.value;
        assert buf + stream.left == before + left;
      }
    }
  }

  lemma TakeUnfold(buf: Text, f: Fields)
    ensures var n := IndexOf(buf, LF);
            Take(buf, f) ==
            if n == |buf| then (None, buf, f)
            else
              var (g, item) := LineStep(f, Chomp(buf[..n]));
              if item.Some? then (item, buf[n + 1..], g) else Take(buf[n + 1..], g)
  {}

  lemma BlankLine(f: Fields)
    ensures LineStep(f, []) ==
            (f.(name := None, data := []), if f.data == [] then None else Some(Item(f.name, f.data)))
  {}

  lemma NothingLeft(buf: Text)
    requires IndexOf(buf, LF) == |buf|
    ensures Lines(buf) == []
  {}
}
