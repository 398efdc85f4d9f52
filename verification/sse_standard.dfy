/**
 The event stream interpretation of the WHATWG HTML standard, section 9.2.6, written from the
 standard, and exactly when the change feed's parser agrees with it.
 */
module SseStandard {
  import opened Bytes
  import opened Wrappers
  import opened Sse

  const BOM: Text := [0xEF, 0xBB, 0xBF]
  const NUL: Byte := 0

  datatype Event = Event(kind: Text, data: Text, id: Text)

  /** The standard's event type buffer, data buffer and last event ID buffer. */
  datatype Buffers = Buffers(kind: Text, data: Text, id: Text)

  const NO_BUFFERS := Buffers([], [], [])
  const MESSAGE: Text := [109, 101, 115, 115, 97, 103, 101]

  /** An unset field reads as the empty string the standard starts from. */
  function TextOr(o: Option<Text>): Text { if o.Some? then o.value else [] }

  function KindOf(kind: Text): Text { if kind == [] then MESSAGE else kind }

  function FirstEnd(s: Text): (n: nat)
    ensures n <= |s|
    ensures n < |s| ==> s[n] == LF || s[n] == CR
    ensures forall i :: 0 <= i < n ==> s[i] != LF && s[i] != CR
  {
    if |s| == 0 || s[0] == LF || s[0] == CR then 0 else 1 + FirstEnd(s[1..])
  }

  function AfterEnd(s: Text, n: nat): (next: nat)
    requires n < |s|
    ensures n < next <= |s|
  {
    if s[n] == CR && n + 1 < |s| && s[n + 1] == LF then n + 2 else n + 1
  }

  /** Lines end at CRLF, at LF, or at a CR on its own; what follows the last end is no line. */
  function StandardLines(s: Text): seq<Text>
    decreases |s|
  {
    var n := FirstEnd(s);
    if n == |s| then []
    else [s[..n]] + StandardLines(s[AfterEnd(s, n)..])
  }

  /** Everything in front of the first colon, and behind it without one leading space. */
  function Field(line: Text): (Text, Text) {
    if COLON !in line then (line, [])
    else
      var n := IndexOf(line, COLON);
      (line[..n], if n + 1 < |line| && line[n + 1] == SPACE then line[n + 2..] else line[n + 1..])
  }

  function StandardLine(b: Buffers, line: Text): (Buffers, Option<Event>) {
    if line == [] then
      (b.(kind := [], data := []),
       if b.data == [] then None
       else
         var n := |b.data| - 1;
         Some(Event(KindOf(b.kind), if b.data[n] == LF then b.data[..n] else b.data, b.id)))
    else if line[0] == COLON then (b, None)
    else
      var (field, value) := Field(line);
      if field == EVENT then (b.(kind := value), None)
      else if field == DATA then (b.(data := b.data + value + [LF]), None)
      else if field == ID then (if NUL in value then b else b.(id := value), None)
      else (b, None)
  }

  function StandardEvents(lines: seq<Text>, b: Buffers): seq<Event> {
    if lines == [] then []
    else
      var (c, event) := StandardLine(b, lines[0]);
      (if event.Some? then [event.value] else []) + StandardEvents(lines[1..], c)
  }

  /** The standard's reading of a whole body. */
  function Standard(body: Text): seq<Event> {
    StandardEvents(StandardLines(if BOM <= body then body[3..] else body), NO_BUFFERS)
  }

  /** The parser's reading of a whole body, in the standard's terms. */
  function Parsed(body: Text): seq<Event> {
    Named(Dispatches(Lines(body), NO_FIELDS))
  }

  function Named(ds: seq<Dispatch>): (es: seq<Event>)
    ensures |es| == |ds|
  {
    if ds == [] then []
    else
      [Event(KindOf(TextOr(ds[0].item.name)), ds[0].item.data, TextOr(ds[0].lastId))] + Named(ds[1..])
  }

  /** Type and data only. */
  function Plain(es: seq<Event>): (ps: seq<(Text, Text)>)
    ensures |ps| == |es|
    ensures forall i :: 0 <= i < |es| ==> ps[i] == (es[i].kind, es[i].data)
  {
    if es == [] then [] else [(es[0].kind, es[0].data)] + Plain(es[1..])
  }

  // What the theorems ask of a body.

  ghost predicate EveryCrEndsInLf(s: Text) {
    forall i {:trigger s[i]} :: 0 <= i < |s| && s[i] == CR ==> i + 1 < |s| && s[i + 1] == LF
  }

  /** The values of a block's data lines, in order. */
  function DataOf(block: seq<Text>): seq<Text> {
    if block == [] then []
    else
      var line := block[|block| - 1];
      DataOf(block[..|block| - 1]) + (if FieldOf(line) == DATA then [ValueOf(line)] else [])
  }

  predicate StartsWithData(block: seq<Text>) {
    var values := DataOf(block);
    values == [] || values[0] != []
  }

  /** No block that a blank line ends has an empty first data line; `block` is the open one. */
  predicate NoEmptyLead(lines: seq<Text>, block: seq<Text>)
    decreases |lines|
  {
    lines == []
    || (if lines[0] == [] then StartsWithData(block) && NoEmptyLead(lines[1..], [])
        else NoEmptyLead(lines[1..], block + [lines[0]]))
  }

  predicate NoNulInIds(lines: seq<Text>) {
    forall line <- lines :: FieldOf(line) == ID ==> NUL !in ValueOf(line)
  }

  predicate SameKind(f: Fields, b: Buffers) { KindOf(TextOr(f.name)) == KindOf(b.kind) }

  /** How the two parsers stand in the middle of a block. */
  predicate Beside(f: Fields, b: Buffers, block: seq<Text>) { SameKind(f, b) && Level(f, b, block) }

  /** How their data does. */
  predicate Level(f: Fields, b: Buffers, block: seq<Text>) {
    && (f.data == [] || f.data[0] != LF)
    && (DataOf(block) == [] ==> f.data == [] && b.data == [])
    && (DataOf(block) != [] && StartsWithData(block) ==> f.data != [] && b.data == f.data + [LF])
    && (!StartsWithData(block) ==> b.data != [] && b.data[0] == LF && b.data[|b.data| - 1] == LF)
  }

  predicate OneLine(line: Text) { LF !in line }

  // Both parsers split the body alike.

  /** Where the first line ends. */
  lemma FirstEndAlike(s: Text)
    requires EveryCrEndsInLf(s)
    ensures var t, n := FirstEnd(s), IndexOf(s, LF);
            if t == |s| then n == |s| else n < |s| && n == (if s[t] == CR then t + 1 else t)
  {
    var t, n := FirstEnd(s), IndexOf(s, LF);
    if t < |s| {
      assert s[t] == CR ==> s[t + 1] == LF;
    }
  }

  /** Chomping takes off the CR in front of the LF, or nothing. */
  lemma ChompAt(s: Text, t: nat, n: nat)
    requires t <= n <= |s| && t <= n <= t + 1
    requires (n == t + 1 ==> s[t] == CR) && (n == t ==> CR !in s[..t])
    ensures Chomp(s[..n]) == s[..t]
  {
    var line := s[..n];
    if n == t + 1 {
      assert line[|line| - 1] == CR && line[..t] == s[..t];
    } else if n > 0 {
      assert line[n - 1] in s[..t];
    }
  }

  /** The first line of each reading, and where the rest begins. */
  lemma FirstLineAlike(s: Text)
    requires EveryCrEndsInLf(s)
    ensures var t, n := FirstEnd(s), IndexOf(s, LF);
            if t == |s| then n == |s|
            else
              && n < |s| && AfterEnd(s, t) == n + 1
              && Chomp(s[..n]) == s[..t] && OneLine(s[..t])
  {
    hide FirstEnd, IndexOf, Chomp;
    FirstEndAlike(s);
    var t, n := FirstEnd(s), IndexOf(s, LF);
    if t < |s| {
      assert s[t] == CR ==> t + 1 < |s| && s[t + 1] == LF;
      hide EveryCrEndsInLf;
      ChompAt(s, t, n);
    }
  }

  lemma StandardUnfold(s: Text)
    ensures var n := FirstEnd(s);
            StandardLines(s) == if n == |s| then [] else [s[..n]] + StandardLines(s[AfterEnd(s, n)..])
  {
    hide FirstEnd, AfterEnd;
  }

  lemma LinesUnfold(s: Text)
    ensures var n := IndexOf(s, LF);
            Lines(s) == if n == |s| then [] else [Chomp(s[..n])] + Lines(s[n + 1..])
  {
    hide IndexOf, Chomp;
  }

  /** One step of the standard's splitting, in terms of the first LF. */
  lemma FirstStandardLine(s: Text)
    requires EveryCrEndsInLf(s)
    ensures var n := IndexOf(s, LF);
            if n == |s| then StandardLines(s) == []
            else StandardLines(s) == [Chomp(s[..n])] + StandardLines(s[n + 1..])
  {
    hide FirstEnd, IndexOf, Chomp, OneLine, StandardLines, AfterEnd, EveryCrEndsInLf;
    FirstLineAlike(s);
    StandardUnfold(s);
  }

  lemma SuffixCrEndsInLf(s: Text, k: nat)
    requires EveryCrEndsInLf(s) && k <= |s|
    ensures EveryCrEndsInLf(s[k..])
  {
    var rest := s[k..];
    forall i {:trigger rest[i]} | 0 <= i < |rest| && rest[i] == CR
      ensures i + 1 < |rest| && rest[i + 1] == LF
    {
      assert s[k + i] == CR;
    }
  }

  lemma {:induction false} SameLines(s: Text)
    requires EveryCrEndsInLf(s)
    ensures StandardLines(s) == Lines(s)
    ensures forall line <- Lines(s) :: OneLine(line)
    decreases |s|
  {
    hide EveryCrEndsInLf, FirstEnd, IndexOf, Chomp, OneLine, Lines, StandardLines;
    FirstStandardLine(s);
    FirstLineAlike(s);
    LinesUnfold(s);
    var n := IndexOf(s, LF);
    if n < |s| {
      SuffixCrEndsInLf(s, n + 1);
      SameLines(s[n + 1..]);
    }
  }

  // Both parsers read a line alike.

  lemma SameField(line: Text)
    ensures Field(line) == (FieldOf(line), ValueOf(line))
  {
    var n := IndexOf(line, COLON);
    if n < |line| {
      assert line[n] == COLON;
      if n + 1 < |line| { assert line[n + 1..][1..] == line[n + 2..]; }
    } else {
      assert COLON !in line;
      assert line[..n] == line;
    }
  }

  lemma ValueIsOneLine(line: Text)
    requires OneLine(line)
    ensures OneLine(ValueOf(line))
  {}

  lemma DataSnoc(block: seq<Text>, line: Text)
    ensures DataOf(block + [line]) == DataOf(block) + (if FieldOf(line) == DATA then [ValueOf(line)] else [])
  {
    assert (block + [line])[..|block|] == block;
  }

  /** Appending a value to the open block's data. */
  lemma DataStaysLevel(f: Fields, b: Buffers, block: seq<Text>, line: Text)
    requires Level(f, b, block) && FieldOf(line) == DATA && OneLine(ValueOf(line))
    ensures Level(f.(data := (if f.data == [] then [] else f.data + [LF]) + ValueOf(line)),
                  b.(data := b.data + ValueOf(line) + [LF]), block + [line])
  {
    hide FieldOf, ValueOf, DataOf;
    DataSnoc(block, line);
    var v, values := ValueOf(line), DataOf(block);
    if values == [] {
      assert values + [v] == [v];
      assert b.data + v + [LF] == v + [LF];
    } else {
      assert (values + [v])[0] == values[0];
    }
  }

  lemma FieldStaysBeside(f: Fields, b: Buffers, block: seq<Text>, line: Text)
    requires Level(f, b, block) && line != [] && OneLine(line)
    ensures LineStep(f, line).1 == None && StandardLine(b, line).1 == None
    ensures Level(LineStep(f, line).0, StandardLine(b, line).0, block + [line])
    ensures SameKind(f, b) || FieldOf(line) == EVENT ==> SameKind(LineStep(f, line).0, StandardLine(b, line).0)
    ensures FieldOf(line) != EVENT ==> LineStep(f, line).0.name == f.name && StandardLine(b, line).0.kind == b.kind
    ensures TextOr(f.lastId) == b.id && (FieldOf(line) == ID ==> NUL !in ValueOf(line)) ==>
              TextOr(LineStep(f, line).0.lastId) == StandardLine(b, line).0.id
  {
    hide IndexOf, FieldOf, ValueOf, DataOf, OneLine;
    SameField(line);
    ValueIsOneLine(line);
    if line[0] == COLON { CommentHasNoField(line); }
    if FieldOf(line) == DATA {
      DataStaysLevel(f, b, block, line);
      hide Level;
    } else {
      DataSnoc(block, line);
      assert DataOf(block + [line]) == DataOf(block);
    }
  }

  lemma CommentHasNoField(line: Text)
    requires line != [] && line[0] == COLON
    ensures FieldOf(line) == []
  {}

  // What is dispatched.

  ghost predicate Sound(data: Text) { data != [] && data[0] != LF }

  lemma {:induction false} DispatchedIsSound(lines: seq<Text>, f: Fields)
    requires f.data == [] || f.data[0] != LF
    requires forall line <- lines :: OneLine(line)
    ensures forall d <- Dispatches(lines, f) :: Sound(d.item.data)
  {
    if lines != [] {
      ValueIsOneLine(lines[0]);
      DispatchedIsSound(lines[1..], LineStep(f, lines[0]).0);
    }
  }

  lemma SameHead<T>(a: T, x: seq<T>, y: seq<T>)
    ensures [a] + x == [a] + y <==> x == y
  {
    assert ([a] + x)[1..] == x && ([a] + y)[1..] == y;
  }

  lemma NamedStep(d: Dispatch, ds: seq<Dispatch>)
    ensures Named([d] + ds) == [Event(KindOf(TextOr(d.item.name)), d.item.data, TextOr(d.lastId))] + Named(ds)
  {
    assert ([d] + ds)[1..] == ds;
  }

  lemma PlainStep(e: Event, es: seq<Event>)
    ensures Plain([e] + es) == [(e.kind, e.data)] + Plain(es)
  {
    assert ([e] + es)[1..] == es;
  }

  /** A blank line: whether both dispatch the same, and what they are left with. */
  lemma BlankBeside(f: Fields, b: Buffers, block: seq<Text>)
    requires Level(f, b, block)
    ensures var (g, item) := LineStep(f, []);
            var (c, event) := StandardLine(b, []);
            && Beside(g, c, [])
            && g.lastId == f.lastId && c.id == b.id
            && (StartsWithData(block) ==>
                  (item.Some? <==> event.Some?) && (item.Some? <==> DataOf(block) != []) &&
                  (item.Some? ==> event.value == Event(KindOf(b.kind), item.value.data, b.id)
                                  && item.value.name == f.name))
            && (!StartsWithData(block) ==> event.Some? && !Sound(event.value.data))
  {
    hide FieldOf, ValueOf;
    assert DataOf([]) == [];
    if f.data != [] && DataOf(block) != [] && StartsWithData(block) {
      assert b.data[..|b.data| - 1] == f.data;
    }
  }

  /** From any point where the two stand side by side, their events are equal exactly when no block
      still to come has an empty first data line; and then the ids agree too, unless one holds a NUL. */
  lemma {:induction false} Agreement(lines: seq<Text>, f: Fields, b: Buffers, block: seq<Text>)
    requires Beside(f, b, block)
    requires forall line <- lines :: OneLine(line)
    ensures Plain(StandardEvents(lines, b)) == Plain(Named(Dispatches(lines, f))) <==> NoEmptyLead(lines, block)
    ensures NoEmptyLead(lines, block) && NoNulInIds(lines) && TextOr(f.lastId) == b.id ==>
              StandardEvents(lines, b) == Named(Dispatches(lines, f))
    decreases |lines|
  {
    hide LineStep, StandardLine, Level, StartsWithData, FieldOf, ValueOf, DataOf, OneLine, KindOf, TextOr, Sound;
    if lines != [] {
      var line, rest := lines[0], lines[1..];
      var (g, item) := LineStep(f, line);
      var (c, event) := StandardLine(b, line);
      var xs, ys := StandardEvents(rest, c), Dispatches(rest, g);
      if line != [] {
        FieldStaysBeside(f, b, block, line);
        Agreement(rest, g, c, block + [line]);
        assert StandardEvents(lines, b) == xs && Dispatches(lines, f) == ys;
      } else {
        BlankBeside(f, b, block);
        Agreement(rest, g, c, []);
        if !StartsWithData(block) {
          Diverge(lines, f, b, block);
        } else if item.Some? {
          var d := Dispatch(item.value, g.lastId);
          NamedStep(d, ys);
          PlainStep(event.value, xs);
          var e := Event(KindOf(TextOr(d.item.name)), d.item.data, TextOr(d.lastId));
          PlainStep(e, Named(ys));
          SameHead((e.kind, e.data), Plain(xs), Plain(Named(ys)));
        } else {
          assert StandardEvents(lines, b) == xs && Dispatches(lines, f) == ys;
        }
      }
    }
  }

  /** After an empty first data line the standard dispatches what the parser never does. */
  lemma Diverge(lines: seq<Text>, f: Fields, b: Buffers, block: seq<Text>)
    requires Level(f, b, block) && !StartsWithData(block)
    requires lines != [] && lines[0] == []
    requires forall line <- lines :: OneLine(line)
    ensures Plain(StandardEvents(lines, b)) != Plain(Named(Dispatches(lines, f)))
  {
    hide LineStep, StandardLine, StartsWithData, FieldOf, ValueOf, DataOf;
    var event := StandardLine(b, []).1.value by {
      BlankBeside(f, b, block);
    }
    assert !Sound(event.data) by { BlankBeside(f, b, block); }
    var xs := StandardEvents(lines, b);
    assert xs[0] == event;
    DispatchedIsSound(lines, f);
    var ds := Dispatches(lines, f);
    if ds != [] {
      assert Sound(ds[0].item.data);
      assert Plain(xs)[0].1 == event.data;
      assert Plain(Named(ds))[0].1 == ds[0].item.data;
    }
  }

  /** The change feed's parser and the standard read the same types and data out of a body exactly
      when no block in it has an empty first data line. */
  lemma {:induction false} AgreesWithStandard(body: Text)
    requires EveryCrEndsInLf(body) && !(BOM <= body)
    ensures Plain(Parsed(body)) == Plain(Standard(body)) <==> NoEmptyLead(Lines(body), [])
    ensures NoEmptyLead(Lines(body), []) && NoNulInIds(Lines(body)) ==> Parsed(body) == Standard(body)
  {
    hide LineStep, StandardLine, NoEmptyLead, OneLine, Dispatches, StandardEvents, Lines, StandardLines;
    SameLines(body);
    Agreement(Lines(body), NO_FIELDS, NO_BUFFERS, []);
  }

  const DATA_A: Text := [100, 97, 116, 97, 58, 97]

  lemma DataLine()
    ensures FieldOf(DATA_A) == DATA && ValueOf(DATA_A) == [97]
  {
    var n := IndexOf(DATA_A, COLON);
    assert DATA_A[4] == COLON;
    assert n == 4 by {
      assert DATA_A[0] != COLON && DATA_A[1] != COLON && DATA_A[2] != COLON && DATA_A[3] != COLON;
    }
    assert DATA_A[..4] == DATA && DATA_A[5..] == [97];
  }

  /** The standard dispatches one event from `data:a` and a blank line. */
  lemma OneEvent(lines: seq<Text>)
    requires lines == [DATA_A, []]
    ensures |StandardEvents(lines, NO_BUFFERS)| == 1
  {
    hide FieldOf, ValueOf, IndexOf;
    DataLine();
    SameField(DATA_A);
    var b := StandardLine(NO_BUFFERS, lines[0]).0;
    assert b.data == [] + [97] + [LF];
    assert lines[1..] == [[]];
    var rest := lines[1..];
    assert StandardLine(b, rest[0]).1.Some?;
    assert StandardEvents(rest[1..], StandardLine(b, rest[0]).0) == [];
  }

  lemma StandardSplit(line: Text, end: Byte, rest: Text)
    requires (end == LF || end == CR) && CR !in line && LF !in line && (end == CR ==> rest == [] || rest[0] != LF)
    ensures StandardLines(line + [end] + rest) == [line] + StandardLines(rest)
  {
    var s, n := line + [end] + rest, |line|;
    StandardUnfold(s);
    hide StandardLines;
    assert s[n] == end;
    assert s[..n] == line;
    assert FirstEnd(s) == n;
    assert s[..n] == line && s[n + 1..] == rest;
  }

  lemma TwoLines(end: Byte)
    requires end == LF || end == CR
    ensures StandardLines(DATA_A + [end, end]) == [DATA_A, []]
  {
    assert StandardLines([]) == [];
    hide StandardLines, FirstEnd;
    StandardSplit([], end, []);
    assert [] + [end] + [] == [end];
    StandardSplit(DATA_A, end, [end]);
    assert DATA_A + [end] + [end] == DATA_A + [end, end];
  }

  /** Why a body must not use CR alone as a line end: `data:a` CR CR is an event to the standard,
      but no line at all to the parser. */
  lemma LoneCrDiffers()
    ensures |Standard(DATA_A + [CR, CR])| == 1 && Parsed(DATA_A + [CR, CR]) == []
  {
    hide StandardLines, StandardEvents, FirstEnd;
    var body := DATA_A + [CR, CR];
    assert !(BOM <= body) by { assert body[0] != BOM[0]; }
    TwoLines(CR);
    OneEvent([DATA_A, []]);
    assert LF !in body;
  }
}
