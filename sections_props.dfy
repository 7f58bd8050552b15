/** Properties of `Assemble` (notbook/exec.py:67-168): no captured event is
    lost or reordered, print statements are coalesced, marker lines never
    become content, and the behaviour at block markers, quotes and the end of
    input on concrete scripts. */
module SectionProps {
  import opened Util
  import opened Models
  import opened Markers
  import opened Sections

  /* ---------- the events a list of sections shows ---------- */

  function Stmts(ps: seq<PrintStatement>): (r: seq<Item>)
    ensures |r| == |ps|
    ensures forall i :: 0 <= i < |ps| ==> r[i] == PrintItem(ps[i])
  {
    if ps == [] then [] else Stmts(ps[..|ps| - 1]) + [PrintItem(ps[|ps| - 1])]
  }

  /** The print statements of a code block's lines, in order. */
  function LinesEvents(ls: seq<CodeLine>): seq<Item>
  {
    if ls == [] then []
    else
      var last := ls[|ls| - 1];
      LinesEvents(ls[..|ls| - 1]) + (if last.Output? then Stmts(last.block.statements) else [])
  }

  function SectionEvents(s: Section): seq<Item>
  {
    match s.block
    case Text(_) => []
    case Code(c) => LinesEvents(c.lines)
    case Prints(b) => Stmts(b.statements)
    case Plot(p) => [PlotItem(p)]
  }

  /** The print statements and plots shown by a list of sections, in order. */
  function SectionsEvents(ss: seq<Section>): seq<Item>
  {
    if ss == [] then [] else SectionsEvents(ss[..|ss| - 1]) + SectionEvents(ss[|ss| - 1])
  }

  /** What the state shows so far: its sections, then the open block. */
  function MakerEvents(m: Maker): seq<Item>
  {
    SectionsEvents(m.sections) + (if m.code.Some? then LinesEvents(m.code.value.lines) else [])
  }

  /** The events of the merged list: everything that is not a script line. */
  function ItemEvents(items: seq<Item>): seq<Item>
  {
    if items == [] then [] else (if items[0].Src? then [] else [items[0]]) + ItemEvents(items[1..])
  }

  lemma SectionsEventsAppend(ss: seq<Section>, s: Section)
    ensures SectionsEvents(ss + [s]) == SectionsEvents(ss) + SectionEvents(s)
  {
    assert (ss + [s])[..|ss|] == ss;
  }

  lemma LinesEventsAppend(ls: seq<CodeLine>, l: CodeLine)
    ensures LinesEvents(ls + [l]) == LinesEvents(ls) + (if l.Output? then Stmts(l.block.statements) else [])
  {
    assert (ls + [l])[..|ls|] == ls;
  }

  lemma {:induction false} LinesEventsOfText(ls: seq<CodeLine>, text: seq<string>)
    ensures LinesEvents(ls + AsLines(text)) == LinesEvents(ls)
    decreases |text|
  {
    if text == [] {
      assert ls + AsLines(text) == ls;
    } else {
      var l := Line(text[0]);
      assert AsLines(text) == [l] + AsLines(text[1..]);
      Assoc(ls, [l], AsLines(text[1..]));
      LinesEventsOfText(ls + [l], text[1..]);
      LinesEventsAppend(ls, l);
    }
  }

  lemma StmtsAppend(ps: seq<PrintStatement>, p: PrintStatement)
    ensures Stmts(ps + [p]) == Stmts(ps) + [PrintItem(p)]
  {
  }

  /* ---------- each step keeps what the state shows, or adds its event ---------- */

  lemma FlushEvents(m: Maker, caption: Option<string>)
    ensures MakerEvents(Flush(m, caption)) == MakerEvents(m)
  {
    if m.code.Some? {
      SectionsEventsAppend(m.sections, Section(Code(m.code.value), m.name, caption));
    }
  }

  lemma DivideEvents(m: Maker, line: string)
    requires Divide(m, line).Some?
    ensures MakerEvents(Divide(m, line).value) == MakerEvents(m)
  {
    FlushEvents(m, None);
    if MatchClose(line).Some? {
      FlushEvents(m, NameOf(MatchClose(line).value));
    }
  }

  lemma AddLinesEvents(m: Maker, text: seq<string>)
    ensures MakerEvents(AddLines(m, text)) == MakerEvents(m)
  {
    if m.code.Some? {
      LinesEventsOfText(m.code.value.lines, text);
    }
  }

  lemma AfterQuoteEvents(m: Maker, tag: Option<(TextFormat, string)>, lines: seq<string>)
    ensures MakerEvents(AfterQuote(m, tag, lines)) == MakerEvents(m)
  {
    if tag.Some? {
      var f := Flush(m, None);
      FlushEvents(m, None);
      SectionsEventsAppend(f.sections, Section(Text(TextBlock(Join(lines, "\n"), tag.value.0))));
    } else {
      AddLinesEvents(m, lines);
    }
  }

  lemma AddPrintEvents(m: Maker, p: PrintStatement)
    ensures MakerEvents(AddPrint(m, p)) == MakerEvents(m) + [PrintItem(p)]
  {
    var m' := AddPrint(m, p);
    if m.code.Some? {
      var ls := m.code.value.lines;
      assert m'.sections == m.sections && m'.code.value.lines == PrintIntoLines(ls, p);
      AddPrintInBlock(ls, p);
      Assoc(SectionsEvents(m.sections), LinesEvents(ls), [PrintItem(p)]);
    } else {
      assert m'.code.None? && m'.sections == PrintIntoSections(m.sections, p);
      AddPrintOutside(m.sections, p);
    }
  }

  /** The code-block half of `print_statement`, on the block's lines. */
  lemma AddPrintInBlock(ls: seq<CodeLine>, p: PrintStatement)
    ensures LinesEvents(PrintIntoLines(ls, p)) == LinesEvents(ls) + [PrintItem(p)]
  {
    if ls != [] && ls[|ls| - 1].Output? {
      var st := ls[|ls| - 1].block.statements;
      var init := ls[..|ls| - 1];
      var l := Output(PrintBlock(st + [p]));
      assert PrintIntoLines(ls, p) == init + [l];
      LinesEventsAppend(init, l);
      StmtsAppend(st, p);
      assert LinesEvents(ls) == LinesEvents(init) + Stmts(st);
      Assoc(LinesEvents(init), Stmts(st), [PrintItem(p)]);
    } else {
      LinesEventsAppend(ls, Output(PrintBlock([p])));
      assert Stmts([p]) == [PrintItem(p)];
    }
  }

  /** The section-list half of `print_statement`. */
  lemma AddPrintOutside(ss: seq<Section>, p: PrintStatement)
    ensures SectionsEvents(PrintIntoSections(ss, p)) == SectionsEvents(ss) + [PrintItem(p)]
  {
    if ss != [] && ss[|ss| - 1].block.Prints? {
      var last := ss[|ss| - 1];
      var st := last.block.prints.statements;
      var init := ss[..|ss| - 1];
      var s := last.(block := Prints(PrintBlock(st + [p])));
      assert PrintIntoSections(ss, p) == init + [s];
      SectionsEventsAppend(init, s);
      StmtsAppend(st, p);
      assert SectionEvents(s) == Stmts(st + [p]);
      assert SectionsEvents(ss) == SectionsEvents(init) + Stmts(st);
      Assoc(SectionsEvents(init), Stmts(st), [PrintItem(p)]);
    } else {
      SectionsEventsAppend(ss, Section(Prints(PrintBlock([p]))));
      assert Stmts([p]) == [PrintItem(p)];
    }
  }

  lemma AddPlotEvents(m: Maker, plot: PlotBlock)
    requires AddPlot(m, plot).Ok?
    ensures MakerEvents(AddPlot(m, plot).value) == MakerEvents(m) + [PlotItem(plot)]
  {
    SectionsEventsAppend(m.sections, Section(Plot(plot)));
  }

  /* ---------- quote spans hold no events ---------- */

  lemma ItemEventsFrom(items: seq<Item>, pos: nat)
    requires pos < |items|
    ensures ItemEvents(items[pos..])
         == (if items[pos].Src? then [] else [items[pos]]) + ItemEvents(items[pos + 1..])
  {
    assert items[pos..][1..] == items[pos + 1..];
  }

  lemma {:induction false} ScanClosedEvents(items: seq<Item>, pos: nat, q: Quote, tagged: bool)
    requires ScanQuote(items, pos, q, tagged).Closed?
    ensures ItemEvents(items[pos..]) == ItemEvents(items[ScanQuote(items, pos, q, tagged).next..])
    decreases |items| - pos
  {
    ItemEventsFrom(items, pos);
    if MatchClosing(items[pos].text, q).None? {
      ScanClosedEvents(items, pos + 1, q, tagged);
    }
  }

  lemma {:induction false} ScanOutEvents(items: seq<Item>, pos: nat, q: Quote, tagged: bool)
    requires pos <= |items|
    requires ScanQuote(items, pos, q, tagged).OutOfInput?
    ensures ItemEvents(items[pos..]) == []
    decreases |items| - pos
  {
    if pos < |items| {
      ItemEventsFrom(items, pos);
      ScanOutEvents(items, pos + 1, q, tagged);
    }
  }

  /* ---------- no event is lost, duplicated or reordered ---------- */

  /** Whatever the script's lines, the sections `MakeSections` returns show
      every print statement and plot of the merged list exactly once, in the
      order of the list. */
  lemma AssembleKeepsEvents(items: seq<Item>, sections: seq<Section>)
    requires Assemble(items) == Ok(sections)
    ensures SectionsEvents(sections) == ItemEvents(items)
  {
    AssembleFromEvents(items, 0, Start);
    assert items[0..] == items;
  }

  lemma {:induction false} AssembleFromEvents(items: seq<Item>, pos: nat, m: Maker)
    requires pos <= |items|
    requires AssembleFrom(items, pos, m).Ok?
    ensures SectionsEvents(AssembleFrom(items, pos, m).value) == MakerEvents(m) + ItemEvents(items[pos..])
    decreases |items| - pos, 2
  {
    if pos == |items| {
      FlushEvents(m, None);
    } else {
      match items[pos]
      case Src(_) => LineEvents(items, pos, m);
      case PrintItem(p) =>
        var m' := AddPrint(m, p);
        assert AssembleFrom(items, pos, m) == AssembleFrom(items, pos + 1, m');
        AssembleFromEvents(items, pos + 1, m');
        AddPrintEvents(m, p);
        OneStep(items, pos, m, m');
      case PlotItem(plot) =>
        var m' := AddPlot(m, plot).value;
        assert AssembleFrom(items, pos, m) == AssembleFrom(items, pos + 1, m');
        AssembleFromEvents(items, pos + 1, m');
        AddPlotEvents(m, plot);
        OneStep(items, pos, m, m');
    }
  }

  /** A round of the loop that reads one element and moves the state from `m`
      to `m'`, which shows that element if it is an event. */
  lemma OneStep(items: seq<Item>, pos: nat, m: Maker, m': Maker)
    requires pos < |items|
    requires AssembleFrom(items, pos, m) == AssembleFrom(items, pos + 1, m')
    requires AssembleFrom(items, pos + 1, m').Ok?
    requires SectionsEvents(AssembleFrom(items, pos + 1, m').value) == MakerEvents(m') + ItemEvents(items[pos + 1..])
    requires MakerEvents(m') == MakerEvents(m) + (if items[pos].Src? then [] else [items[pos]])
    ensures SectionsEvents(AssembleFrom(items, pos, m).value) == MakerEvents(m) + ItemEvents(items[pos..])
  {
    ItemEventsFrom(items, pos);
    Assoc(MakerEvents(m), if items[pos].Src? then [] else [items[pos]], ItemEvents(items[pos + 1..]));
  }

  lemma {:induction false} LineEvents(items: seq<Item>, pos: nat, m: Maker)
    requires pos < |items| && items[pos].Src?
    requires AssembleFrom(items, pos, m).Ok?
    ensures SectionsEvents(AssembleFrom(items, pos, m).value) == MakerEvents(m) + ItemEvents(items[pos..])
    decreases |items| - pos, 1
  {
    var line := items[pos].text;
    if Divide(m, line).Some? {
      MarkerEvents(items, pos, m);
    } else if MatchQuoteOpen(line).None? {
      PlainLineEvents(items, pos, m);
    } else {
      ItemEventsFrom(items, pos);
      QuoteEvents(items, pos, m);
    }
  }

  lemma {:induction false} MarkerEvents(items: seq<Item>, pos: nat, m: Maker)
    requires pos < |items| && items[pos].Src? && Divide(m, items[pos].text).Some?
    requires AssembleFrom(items, pos, m).Ok?
    ensures SectionsEvents(AssembleFrom(items, pos, m).value) == MakerEvents(m) + ItemEvents(items[pos..])
    decreases |items| - pos, 0
  {
    var line := items[pos].text;
    var m' := Divide(m, line).value;
    assert AssembleFrom(items, pos, m) == AssembleFrom(items, pos + 1, m');
    AssembleFromEvents(items, pos + 1, m');
    DivideEvents(m, line);
    OneStep(items, pos, m, m');
  }

  lemma {:induction false} PlainLineEvents(items: seq<Item>, pos: nat, m: Maker)
    requires pos < |items| && items[pos].Src?
    requires Divide(m, items[pos].text).None? && MatchQuoteOpen(items[pos].text).None?
    requires AssembleFrom(items, pos, m).Ok?
    ensures SectionsEvents(AssembleFrom(items, pos, m).value) == MakerEvents(m) + ItemEvents(items[pos..])
    decreases |items| - pos, 0
  {
    var line := items[pos].text;
    var m' := AddLines(m, [line]);
    assert AssembleFrom(items, pos, m) == AssembleFrom(items, pos + 1, m');
    AssembleFromEvents(items, pos + 1, m');
    AddLinesEvents(m, [line]);
    OneStep(items, pos, m, m');
  }

  lemma {:induction false} QuoteEvents(items: seq<Item>, pos: nat, m: Maker)
    requires pos < |items| && items[pos].Src?
    requires Divide(m, items[pos].text).None? && MatchQuoteOpen(items[pos].text).Some?
    requires AssembleFrom(items, pos, m).Ok?
    ensures SectionsEvents(AssembleFrom(items, pos, m).value) == MakerEvents(m) + ItemEvents(items[pos + 1..])
    decreases |items| - pos, 0
  {
    var line := items[pos].text;
    var (q, rest) := MatchQuoteOpen(line).value;
    var tag := MatchTag(rest);
    var end := ScanQuote(items, pos + 1, q, tag.Some?);
    if end.OutOfInput? {
      FlushEvents(m, None);
      ScanOutEvents(items, pos + 1, q, tag.Some?);
    } else {
      var m' := AfterQuote(m, tag, QuoteHead(line, tag) + end.body);
      assert AssembleFrom(items, pos, m) == AssembleFrom(items, end.next, m');
      AssembleFromEvents(items, end.next, m');
      AfterQuoteEvents(m, tag, QuoteHead(line, tag) + end.body);
      ScanClosedEvents(items, pos + 1, q, tag.Some?);
    }
  }
}
