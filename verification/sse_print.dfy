/**
 Printing events as an event stream and parsing them back, with comments anywhere and either
 kind of line end.
 */
module SsePrint {
  import opened Bytes
  import opened Wrappers
  import opened Sse
  import opened SseStandard

  /** The lines of some data: the pieces between its line feeds. */
  function Split(data: Text): (lines: seq<Text>)
    ensures lines != []
    decreases |data|
  {
    var n := IndexOf(data, LF);
    if n == |data| then [data] else [data[..n]] + Split(data[n + 1..])
  }

  function Prefixed(field: Text, values: seq<Text>): (lines: seq<Text>)
    ensures |lines| == |values|
  {
    if values == [] then [] else [field + [COLON, SPACE] + values[0]] + Prefixed(field, values[1..])
  }

  /** An event's name if it has one, its data line by line, and the blank line that dispatches it. */
  function Print(item: Item): seq<Text> {
    (if item.name.Some? then Prefixed(EVENT, [item.name.value]) else [])
    + Prefixed(DATA, Split(item.data)) + [[]]
  }

  function PrintAll(items: seq<Item>): seq<Text> {
    if items == [] then [] else Print(items[0]) + PrintAll(items[1..])
  }

  /** What the parser hands over for a list of events when no `id` line is among them. */
  function WithoutIds(items: seq<Item>): seq<Dispatch> {
    if items == [] then [] else [Dispatch(items[0], None)] + WithoutIds(items[1..])
  }

  predicate IsComment(line: Text) { line != [] && line[0] == COLON }

  function WithoutComments(lines: seq<Text>): seq<Text> {
    if lines == [] then []
    else (if IsComment(lines[0]) then [] else [lines[0]]) + WithoutComments(lines[1..])
  }

  /** Lines as bytes, each ended by CRLF or LF as `crlf` says. */
  function Body(lines: seq<Text>, crlf: seq<bool>): Text
    requires |lines| == |crlf|
  {
    if lines == [] then []
    else lines[0] + (if crlf[0] then [CR, LF] else [LF]) + Body(lines[1..], crlf[1..])
  }

  predicate Unbroken(line: Text) { LF !in line && CR !in line }

  /** A name fits on one line, and data has no CR. */
  predicate Printable(item: Item) {
    (item.name.Some? ==> Unbroken(item.name.value)) && CR !in item.data
  }

  lemma {:induction false} BodyLines(lines: seq<Text>, crlf: seq<bool>)
    requires |lines| == |crlf| && (forall line <- lines :: Unbroken(line))
    ensures Lines(Body(lines, crlf)) == lines
  {
    if lines != [] {
      var rest := Body(lines[1..], crlf[1..]);
      BodyLines(lines[1..], crlf[1..]);
      hide Body, Lines, Chomp, IndexOf, Unbroken;
      LineInFront(lines[0], crlf[0], rest);
      assert lines == [lines[0]] + lines[1..];
    }
  }

  lemma LineInFront(line: Text, crlf: bool, rest: Text)
    requires Unbroken(line)
    ensures Lines(line + (if crlf then [CR, LF] else [LF]) + rest) == [line] + Lines(rest)
  {
    hide Lines, Chomp, IndexOf, Unbroken;
    var head := line + (if crlf then [CR, LF] else [LF]);
    FirstLine(line, crlf);
    LinesStep(head, rest);
    assert head[|head|..] + rest == rest;
  }

  lemma {:induction false} FirstAt(a: Text, x: Byte, b: Text)
    requires x !in a
    ensures IndexOf(a + [x] + b, x) == |a|
  {
    if a != [] {
      FirstAt(a[1..], x, b);
      assert (a + [x] + b)[1..] == a[1..] + [x] + b;
    }
  }

  lemma FirstLine(line: Text, crlf: bool)
    requires Unbroken(line)
    ensures var head := line + (if crlf then [CR, LF] else [LF]);
            IndexOf(head, LF) == |head| - 1 && Chomp(head[..|head| - 1]) == line
  {
    var head := line + (if crlf then [CR, LF] else [LF]);
    var n := |head| - 1;
    FirstAt(head[..n], LF, []);
    assert head == head[..n] + [LF] + [];
    if crlf {
      assert head[..n] == line + [CR];
      assert (line + [CR])[..|line|] == line;
    } else {
      assert head[..n] == line;
    }
  }

  lemma {:induction false} CommentsAreSilent(lines: seq<Text>, f: Fields)
    ensures Dispatches(lines, f) == Dispatches(WithoutComments(lines), f)
  {
    hide LineStep;
    if lines != [] {
      var (g, item) := LineStep(f, lines[0]);
      CommentsAreSilent(lines[1..], g);
      if IsComment(lines[0]) {
        CommentIsSilent(f, lines[0]);
        assert WithoutComments(lines) == WithoutComments(lines[1..]);
        assert Dispatches(lines, f) == Dispatches(lines[1..], f);
      } else {
        assert WithoutComments(lines)[0] == lines[0];
        assert WithoutComments(lines)[1..] == WithoutComments(lines[1..]);
      }
    }
  }

  lemma CommentIsSilent(f: Fields, line: Text)
    requires IsComment(line)
    ensures LineStep(f, line) == (f, None)
  {}

  lemma PrintedField(field: Text, value: Text)
    requires COLON !in field && field != []
    ensures var line := field + [COLON, SPACE] + value;
            line != [] && line[0] != COLON && FieldOf(line) == field && ValueOf(line) == value
  {
    var line := field + [COLON, SPACE] + value;
    var n := |field|;
    FirstAt(field, COLON, [SPACE] + value);
    assert line == field + [COLON] + ([SPACE] + value);
    assert line[..n] == field && line[n + 1..] == [SPACE] + value;
  }

  lemma PrintedEvent(f: Fields, value: Text)
    ensures LineStep(f, EVENT + [COLON, SPACE] + value) == (f.(name := Some(value)), None)
  {
    PrintedField(EVENT, value);
  }

  lemma PrintedData(f: Fields, value: Text)
    ensures LineStep(f, DATA + [COLON, SPACE] + value) ==
            (f.(data := (if f.data == [] then [] else f.data + [LF]) + value), None)
  {
    PrintedField(DATA, value);
  }

  lemma StepOver(f: Fields, line: Text, rest: seq<Text>)
    requires LineStep(f, line).1.None?
    ensures Dispatches([line] + rest, f) == Dispatches(rest, LineStep(f, line).0)
  {
    hide LineStep;
    assert ([line] + rest)[1..] == rest;
  }

  /** Reading one printed line of data. */
  lemma DataLineComesBack(value: Text, f: Fields, rest: seq<Text>)
    ensures Dispatches([DATA + [COLON, SPACE] + value] + rest, f) == Dispatches(rest, Noted(f, value))
  {
    hide LineStep, Dispatches;
    PrintedData(f, value);
    StepOver(f, DATA + [COLON, SPACE] + value, rest);
  }

  function Noted(f: Fields, value: Text): Fields {
    f.(data := (if f.data == [] then [] else f.data + [LF]) + value)
  }

  lemma NotedTwice(f: Fields, a: Text, b: Text)
    requires f.data != [] || a != []
    ensures Noted(Noted(f, a), b) == Noted(f, a + [LF] + b)
  {
    var front := if f.data == [] then [] else f.data + [LF];
    assert (front + a) + [LF] + b == front + (a + [LF] + b);
  }

  lemma PrefixedStep(field: Text, value: Text, values: seq<Text>)
    ensures Prefixed(field, [value] + values) == [field + [COLON, SPACE] + value] + Prefixed(field, values)
  {
    assert ([value] + values)[1..] == values;
  }

  /** Reading the printed lines of `data` behind what is already there. */
  lemma {:induction false} DataComesBack(data: Text, f: Fields, rest: seq<Text>)
    requires f.data != [] || (data != [] && data[0] != LF)
    ensures Dispatches(Prefixed(DATA, Split(data)) + rest, f) == Dispatches(rest, Noted(f, data))
    decreases |data|
  {
    hide LineStep, Dispatches, Prefixed, Noted;
    var n := IndexOf(data, LF);
    if n < |data| {
      var value, more := data[..n], data[n + 1..];
      var tail := Prefixed(DATA, Split(more));
      PrefixedStep(DATA, value, Split(more));
      assert [DATA + [COLON, SPACE] + value] + tail + rest == [DATA + [COLON, SPACE] + value] + (tail + rest);
      DataLineComesBack(value, f, tail + rest);
      assert Noted(f, value).data != [] by { NotedIsData(f, value); }
      DataComesBack(more, Noted(f, value), rest);
      NotedTwice(f, value, more);
      assert data == value + [LF] + more;
    } else {
      PrefixedStep(DATA, data, []);
      assert [data] + [] == [data];
      assert Prefixed(DATA, []) == [] by { NothingPrefixed(DATA); }
      assert [DATA + [COLON, SPACE] + data] + [] + rest == [DATA + [COLON, SPACE] + data] + rest;
      DataLineComesBack(data, f, rest);
    }
  }

  lemma NotedIsData(f: Fields, value: Text)
    requires f.data != [] || value != []
    ensures Noted(f, value).data != []
  {}

  lemma NothingPrefixed(field: Text)
    ensures Prefixed(field, []) == []
  {}

  lemma EventComesBack(item: Item, rest: seq<Text>)
    requires item.data != [] && item.data[0] != LF
    ensures Dispatches(Print(item) + rest, NO_FIELDS) == [Dispatch(item, None)] + Dispatches(rest, NO_FIELDS)
  {
    hide LineStep, Split, Dispatches;
    var data := Prefixed(DATA, Split(item.data));
    var tail := [[]] + rest;
    var f := NO_FIELDS.(name := item.name);
    if item.name.Some? {
      var line := EVENT + [COLON, SPACE] + item.name.value;
      assert Prefixed(EVENT, [item.name.value]) == [line];
      assert Print(item) + rest == [line] + (data + tail);
      PrintedEvent(NO_FIELDS, item.name.value);
      StepOver(NO_FIELDS, line, data + tail);
    } else {
      assert Print(item) + rest == data + tail;
    }
    DataComesBack(item.data, f, tail);
    assert [] + item.data == item.data;
    BlankDispatches(f.(data := item.data), rest);
  }

  lemma BlankDispatches(f: Fields, rest: seq<Text>)
    requires f.data != []
    ensures Dispatches([[]] + rest, f) ==
            [Dispatch(Item(f.name, f.data), f.lastId)] + Dispatches(rest, f.(name := None, data := []))
  {
    BlankLine(f);
    assert ([[]] + rest)[1..] == rest;
  }

  lemma {:induction false} AllComeBack(items: seq<Item>)
    requires forall item <- items :: item.data != [] && item.data[0] != LF
    ensures Dispatches(PrintAll(items), NO_FIELDS) == WithoutIds(items)
  {
    if items != [] {
      hide Print;
      EventComesBack(items[0], PrintAll(items[1..]));
      AllComeBack(items[1..]);
    }
  }

  /** Any events, printed with comments anywhere and any mix of LF and CRLF, parse back to
      themselves exactly when each has data and none of the data starts with an empty line. */
  lemma {:induction false} PrintThenParse(items: seq<Item>, lines: seq<Text>, crlf: seq<bool>)
    requires forall item <- items :: Printable(item)
    requires WithoutComments(lines) == PrintAll(items)
    requires forall line <- lines :: IsComment(line) ==> Unbroken(line)
    requires |lines| == |crlf|
    ensures Dispatches(Lines(Body(lines, crlf)), NO_FIELDS) == WithoutIds(items) <==>
            forall item <- items :: Sound(item.data)
  {
    hide Printable, Unbroken, IsComment, LineStep, Dispatches, PrintAll, WithoutIds, Sound;
    PrintAllUnbroken(items);
    OthersUnbroken(lines);
    BodyLines(lines, crlf);
    CommentsAreSilent(lines, NO_FIELDS);
    if forall item <- items :: Sound(item.data) {
      SoundData(items);
      AllComeBack(items);
    }
    forall line <- PrintAll(items) ensures OneLine(line) { UnbrokenIsOneLine(line); }
    DispatchedIsSound(PrintAll(items), NO_FIELDS);
    if Dispatches(PrintAll(items), NO_FIELDS) == WithoutIds(items) {
      SoundItems(items);
    }
  }

  lemma SoundData(items: seq<Item>)
    requires forall item <- items :: Sound(item.data)
    ensures forall item <- items :: item.data != [] && item.data[0] != LF
  {}

  lemma UnbrokenIsOneLine(line: Text)
    requires Unbroken(line)
    ensures OneLine(line)
  {}

  lemma {:induction false} SoundItems(items: seq<Item>)
    requires forall d <- WithoutIds(items) :: Sound(d.item.data)
    ensures forall item <- items :: Sound(item.data)
  {
    hide Sound;
    if items != [] {
      var ds := WithoutIds(items);
      assert Sound(ds[0].item.data);
      assert forall d <- ds[1..] :: d in ds;
      SoundItems(items[1..]);
    }
  }

  lemma {:induction false} OthersUnbroken(lines: seq<Text>)
    requires forall line <- WithoutComments(lines) :: Unbroken(line)
    requires forall line <- lines :: IsComment(line) ==> Unbroken(line)
    ensures forall line <- lines :: Unbroken(line)
  {
    hide Unbroken, IsComment;
    if lines != [] {
      var kept, more := WithoutComments(lines), WithoutComments(lines[1..]);
      if !IsComment(lines[0]) { assert kept[0] == lines[0]; }
      forall line | line in more ensures Unbroken(line) { assert line in kept; }
      OthersUnbroken(lines[1..]);
    }
  }

  lemma {:induction false} PrefixedUnbroken(field: Text, values: seq<Text>)
    requires Unbroken(field) && (forall v <- values :: Unbroken(v))
    ensures forall line <- Prefixed(field, values) :: Unbroken(line)
  {
    if values != [] {
      assert Unbroken(values[0]);
      Joined(field, [COLON, SPACE]);
      Joined(field + [COLON, SPACE], values[0]);
      hide Unbroken;
      PrefixedUnbroken(field, values[1..]);
    }
  }

  lemma Joined(a: Text, b: Text)
    requires Unbroken(a) && Unbroken(b)
    ensures Unbroken(a + b)
  {
  }

  lemma {:induction false} SplitUnbroken(data: Text)
    requires CR !in data
    ensures forall line <- Split(data) :: Unbroken(line)
    decreases |data|
  {
    var n := IndexOf(data, LF);
    if n < |data| { SplitUnbroken(data[n + 1..]); }
  }

  lemma {:induction false} PrintAllUnbroken(items: seq<Item>)
    requires forall item <- items :: Printable(item)
    ensures forall line <- PrintAll(items) :: Unbroken(line)
  {
    if items != [] {
      var item := items[0];
      assert Printable(item);
      PrintAllUnbroken(items[1..]);
      SplitUnbroken(item.data);
      PrefixedUnbroken(DATA, Split(item.data));
      if item.name.Some? { PrefixedUnbroken(EVENT, [item.name.value]); }
      hide Unbroken, Split, Prefixed;
      assert Unbroken([]) by { EmptyUnbroken(); }
    }
  }

  lemma EmptyUnbroken()
    ensures Unbroken([])
  {}
}
