/**
 Bodies that open with a byte order mark: the standard drops the mark, the parser reads the whole
 first line as a field it does not know.
 */
module SseBom {
  import opened Wrappers
  import opened Sse
  import opened SseStandard

  /** The lines of a block up to its blank line name an event before any data is dispatched under the
      first line's name, or dispatch nothing; `data` says whether there is data already. */
  predicate NameForgotten(lines: seq<Text>, data: bool) {
    lines == []
    || (if lines[0] == [] then !data
        else FieldOf(lines[0]) == EVENT || NameForgotten(lines[1..], data || FieldOf(lines[0]) == DATA))
  }

  /** When dropping the first line changes nothing: it is not data, unless the block it opens never ends,
      and it does not name what that block dispatches. */
  predicate FirstLineIdle(lines: seq<Text>) {
    lines == []
    || (var first, rest := lines[0], lines[1..];
        if FieldOf(first) == DATA then [] !in rest
        else
          && NoEmptyLead(rest, [])
          && (FieldOf(first) == EVENT && KindOf(ValueOf(first)) != MESSAGE ==> NameForgotten(rest, false)))
  }

  /** The parser's lines of a marked body: the first one marked, the others as without the mark. */
  lemma MarkedLines(s: Text) returns (marked: Text)
    ensures Lines(s) == [] ==> Lines(BOM + s) == []
    ensures Lines(s) != [] ==> MarkedFirst(marked) && Lines(BOM + s) == [marked] + Lines(s)[1..]
  {
    hide Lines, IndexOf, Chomp, MarkedFirst;
    var n, body := IndexOf(s, LF), BOM + s;
    MarkedIndex(s);
    LinesUnfold(s);
    LinesUnfold(body);
    marked := [];
    if n < |s| {
      marked := Chomp(body[..n + 3]);
      assert body[n + 3 + 1..] == s[n + 1..] && body[..n + 3] == BOM + s[..n];
      MarkedChomp(s[..n]);
      TailOf(Chomp(s[..n]), Lines(s[n + 1..]));
    }
  }

  lemma TailOf(line: Text, rest: seq<Text>)
    ensures ([line] + rest)[1..] == rest
  {}

  predicate MarkedFirst(line: Text) { line != [] && line[0] == 0xEF }

  lemma MarkedIndex(s: Text)
    ensures IndexOf(BOM + s, LF) == 3 + IndexOf(s, LF)
  {
    var body, n, m := BOM + s, IndexOf(s, LF), IndexOf(BOM + s, LF);
    assert body[0] == 0xEF && body[1] == 0xBB && body[2] == 0xBF;
    if n < |s| { assert body[n + 3] == LF; }
    if m < |body| { assert body[m] == s[m - 3]; }
  }

  lemma MarkedChomp(x: Text)
    ensures MarkedFirst(Chomp(BOM + x))
  {
    var line := BOM + x;
    assert line[0] == 0xEF;
  }

  lemma MarkIsUnknown(f: Fields, line: Text)
    requires MarkedFirst(line)
    ensures LineStep(f, line) == (f, None)
  {
    var field := FieldOf(line);
    assert field == [] || field[0] == 0xEF;
  }

  lemma MarkedDispatches(s: Text)
    ensures Dispatches(Lines(BOM + s), NO_FIELDS) ==
            if Lines(s) == [] then [] else Dispatches(Lines(s)[1..], NO_FIELDS)
  {
    hide Lines, LineStep, MarkedFirst;
    var marked := MarkedLines(s);
    if Lines(s) != [] {
      MarkIsUnknown(NO_FIELDS, marked);
      TailOf(marked, Lines(s)[1..]);
    }
  }

  /** The simplest body that shows it: a mark, `data:a` and a blank line. */
  lemma BomDiffers()
    ensures |Standard(BOM + (DATA_A + [LF, LF]))| == 1 && Parsed(BOM + (DATA_A + [LF, LF])) == []
  {
    hide StandardLines, StandardEvents, FirstEnd, Lines, LineStep;
    var s := DATA_A + [LF, LF];
    assert (BOM + s)[3..] == s;
    assert EveryCrEndsInLf(s);
    SameLines(s);
    TwoLines(LF);
    OneEvent([DATA_A, []]);
    var lines: seq<Text> := [DATA_A, []];
    MarkedDispatches(s);
    assert lines[1..] == [[]];
    BlankLine(NO_FIELDS);
  }

  // A first line that names the event.

  lemma HeadKindDiffers(e: Event, xs: seq<Event>, ds: seq<Dispatch>)
    requires ds != [] && KindOf(TextOr(ds[0].item.name)) != e.kind
    ensures Plain([e] + xs) != Plain(Named(ds))
  {
    hide KindOf, TextOr;
    assert Plain([e] + xs)[0].0 == e.kind;
    assert Plain(Named(ds))[0].0 == Named(ds)[0].kind;
  }

  lemma {:induction false} NamedFirst(lines: seq<Text>, f: Fields, b: Buffers, block: seq<Text>)
    requires Level(f, b, block) && !SameKind(f, b)
    requires forall line <- lines :: OneLine(line)
    ensures Plain(StandardEvents(lines, b)) == Plain(Named(Dispatches(lines, f))) <==>
            NoEmptyLead(lines, block) && NameForgotten(lines, DataOf(block) != [])
    decreases |lines|
  {
    hide LineStep, StandardLine, Level, StartsWithData, FieldOf, ValueOf, DataOf, OneLine, KindOf, TextOr, Sound;
    if lines != [] {
      var line, rest := lines[0], lines[1..];
      var (g, item) := LineStep(f, line);
      var (c, event) := StandardLine(b, line);
      var xs, ys := StandardEvents(rest, c), Dispatches(rest, g);
      if line != [] {
        FieldStaysBeside(f, b, block, line);
        assert StandardEvents(lines, b) == xs && Dispatches(lines, f) == ys;
        DataSnoc(block, line);
        if FieldOf(line) == EVENT {
          Agreement(rest, g, c, block + [line]);
        } else {
          NamedFirst(rest, g, c, block + [line]);
        }
      } else {
        BlankBeside(f, b, block);
        if !StartsWithData(block) {
          Diverge(lines, f, b, block);
        } else if item.Some? {
          HeadKindDiffers(event.value, xs, [Dispatch(item.value, g.lastId)] + ys);
        } else {
          Agreement(rest, g, c, []);
          assert StandardEvents(lines, b) == xs && Dispatches(lines, f) == ys;
        }
      }
    }
  }

  // A first line that is data.

  /** The standard holds a first value the parser never saw. */
  predicate Longer(f: Fields, b: Buffers) {
    && b.data != [] && b.data[|b.data| - 1] == LF
    && (f.data == [] || |b.data| >= |f.data| + 2)
  }

  lemma FieldStaysLonger(f: Fields, b: Buffers, line: Text)
    requires Longer(f, b) && line != []
    ensures LineStep(f, line).1 == None && StandardLine(b, line).1 == None
    ensures Longer(LineStep(f, line).0, StandardLine(b, line).0)
  {
    hide IndexOf, FieldOf, ValueOf;
    SameField(line);
    if line[0] == COLON { CommentHasNoField(line); }
  }

  /** The standard never dispatches less. */
  lemma {:induction false} StandardIsNoShorter(lines: seq<Text>, f: Fields, b: Buffers, block: seq<Text>)
    requires Level(f, b, block)
    requires forall line <- lines :: OneLine(line)
    ensures |StandardEvents(lines, b)| >= |Dispatches(lines, f)|
    decreases |lines|
  {
    hide LineStep, StandardLine, Level, StartsWithData, FieldOf, ValueOf, DataOf, OneLine, KindOf, TextOr, Sound;
    if lines != [] {
      var line, rest := lines[0], lines[1..];
      if line != [] {
        FieldStaysBeside(f, b, block, line);
        StandardIsNoShorter(rest, LineStep(f, line).0, StandardLine(b, line).0, block + [line]);
      } else {
        BlankBeside(f, b, block);
        StandardIsNoShorter(rest, LineStep(f, line).0, StandardLine(b, line).0, []);
      }
    }
  }

  lemma {:induction false} DataFirst(lines: seq<Text>, f: Fields, b: Buffers)
    requires Longer(f, b)
    requires forall line <- lines :: OneLine(line)
    ensures Plain(StandardEvents(lines, b)) == Plain(Named(Dispatches(lines, f))) <==> [] !in lines
    decreases |lines|
  {
    hide LineStep, StandardLine, Longer, FieldOf, ValueOf, OneLine, KindOf, TextOr;
    if lines != [] {
      var line, rest := lines[0], lines[1..];
      if line != [] {
        FieldStaysLonger(f, b, line);
        DataFirst(rest, LineStep(f, line).0, StandardLine(b, line).0);
        assert StandardEvents(lines, b) == StandardEvents(rest, StandardLine(b, line).0);
        assert Dispatches(lines, f) == Dispatches(rest, LineStep(f, line).0);
        assert [] in lines <==> [] in rest;
      } else {
        assert [] in lines;
        LongerBlank(rest, f, b);
        assert lines == [[]] + rest;
      }
    }
  }

  lemma LongerBlank(rest: seq<Text>, f: Fields, b: Buffers)
    requires Longer(f, b) && forall line <- rest :: OneLine(line)
    ensures Plain(StandardEvents([[]] + rest, b)) != Plain(Named(Dispatches([[]] + rest, f)))
  {
    hide FieldOf, ValueOf, OneLine, KindOf, TextOr;
    var lines: seq<Text> := [[]] + rest;
    assert lines[1..] == rest;
    var (g, item) := LineStep(f, []);
    var (c, event) := StandardLine(b, []);
    var xs, ys := StandardEvents(lines, b), Dispatches(lines, f);
    assert xs == [event.value] + StandardEvents(rest, c);
    if item.Some? {
      assert ys[0].item.data == f.data && |event.value.data| > |f.data|;
      assert Plain(xs)[0].1 == event.value.data;
      assert Plain(Named(ys))[0].1 == Named(ys)[0].data == ys[0].item.data;
    } else {
      assert Level(g, c, []) by { FreshLevel(g, c); }
      StandardIsNoShorter(rest, g, c, []);
      assert ys == Dispatches(rest, g);
    }
  }

  lemma FreshLevel(f: Fields, b: Buffers)
    requires f.data == [] && b.data == []
    ensures Level(f, b, [])
  {}

  /** On a body with a byte order mark the two read the same types and data exactly when the first line
      is idle. */
  lemma {:induction false} MarkedAgrees(s: Text)
    requires EveryCrEndsInLf(s)
    ensures Plain(Parsed(BOM + s)) == Plain(Standard(BOM + s)) <==> FirstLineIdle(Lines(s))
  {
    hide Lines, StandardLines, LineStep, StandardLine, EveryCrEndsInLf, OneLine, NoEmptyLead, NameForgotten, KindOf,
      FieldOf, ValueOf;
    SameLines(s);
    MarkedDispatches(s);
    assert (BOM + s)[3..] == s && BOM <= BOM + s;
    var lines := Lines(s);
    if lines != [] {
      var first, rest := lines[0], lines[1..];
      assert forall line <- rest :: OneLine(line);
      FirstLineEffect(first);
      var (b, event) := StandardLine(NO_BUFFERS, first);
      assert StandardEvents(lines, NO_BUFFERS) == StandardEvents(rest, b);
      if FieldOf(first) == DATA {
        DataFirst(rest, NO_FIELDS, b);
      } else if FieldOf(first) == EVENT && KindOf(ValueOf(first)) != MESSAGE {
        NamedFirst(rest, NO_FIELDS, b, []);
      } else {
        Agreement(rest, NO_FIELDS, b, []);
      }
    }
  }

  /** What the standard does with a first line. */
  lemma FirstLineEffect(first: Text)
    ensures var (b, event) := StandardLine(NO_BUFFERS, first);
            && event == None
            && (if FieldOf(first) == DATA then Longer(NO_FIELDS, b) else Level(NO_FIELDS, b, []))
            && (SameKind(NO_FIELDS, b) <==> !(FieldOf(first) == EVENT && KindOf(ValueOf(first)) != MESSAGE))
            && DataOf([]) == []
  {
    hide IndexOf, FieldOf, ValueOf;
    SameField(first);
    if first == [] { EmptyHasNoField(); } else if first[0] == COLON { CommentHasNoField(first); }
    assert KindOf([]) == MESSAGE;
  }

  lemma EmptyHasNoField()
    ensures FieldOf([]) == []
  {}
}
