/** The shape of what `MakeSections` (notbook/exec.py:67-168) returns, for
    every input it accepts: consecutive print statements are coalesced into
    one print block (no two print sections or two print blocks of a code
    block are adjacent, and none is empty), only code sections carry a title
    or a caption, code blocks keep the default format, and, when the script
    opens no plain (untagged) triple quote, no marker line is ever part of a
    code block. */
module SectionShape {
  import opened Util
  import opened Models
  import opened Markers
  import opened Sections

  /* ---------- the shape ---------- */

  /** Print output inside a code block is coalesced and never empty. */
  predicate LinesCoalesced(ls: seq<CodeLine>)
  {
    && (forall i :: 0 < i < |ls| && ls[i].Output? ==> !ls[i - 1].Output?)
    && (forall i :: 0 <= i < |ls| && ls[i].Output? ==> ls[i].block.statements != [])
  }

  predicate SectionShaped(s: Section)
  {
    match s.block
    case Code(c) => LinesCoalesced(c.lines) && c.format == "py"
    case Prints(b) => b.statements != [] && s.title.None? && s.caption.None?
    case _ => s.title.None? && s.caption.None?
  }

  predicate SectionsCoalesced(ss: seq<Section>)
  {
    && (forall i :: 0 < i < |ss| && ss[i].block.Prints? ==> !ss[i - 1].block.Prints?)
    && (forall i :: 0 <= i < |ss| ==> SectionShaped(ss[i]))
  }

  predicate Shaped(m: Maker)
  {
    && SectionsCoalesced(m.sections)
    && (m.code.Some? ==> LinesCoalesced(m.code.value.lines) && m.code.value.format == "py")
    && NameOnlyInBlock(m)
  }

  predicate NoMarkerLines(ls: seq<CodeLine>)
  {
    forall i :: 0 <= i < |ls| && ls[i].Line? ==> !IsMarker(ls[i].text)
  }

  /** No code block of the sections holds a marker line. */
  predicate MarkerFree(ss: seq<Section>)
  {
    forall i :: 0 <= i < |ss| && ss[i].block.Code? ==> NoMarkerLines(ss[i].block.code.lines)
  }

  predicate MakerMarkerFree(m: Maker)
  {
    MarkerFree(m.sections) && (m.code.Some? ==> NoMarkerLines(m.code.value.lines))
  }

  /** Every triple quote the merged list opens is a documentation quote
      (tagged `md` or `html`); plain quotes, whose lines go into code
      verbatim, do not occur. */
  predicate NoPlainQuotes(items: seq<Item>)
  {
    forall i :: 0 <= i < |items| && items[i].Src? && IsQuoteOpener(items[i].text)
      ==> MatchTag(MatchQuoteOpen(items[i].text).value.1).Some?
  }

  /* ---------- appending keeps the shape ---------- */

  lemma SectionsAppend(ss: seq<Section>, s: Section)
    requires SectionsCoalesced(ss) && SectionShaped(s)
    requires ss != [] && ss[|ss| - 1].block.Prints? ==> !s.block.Prints?
    ensures SectionsCoalesced(ss + [s])
  {
    var r := ss + [s];
    forall i | 0 <= i < |r|
      ensures SectionShaped(r[i])
    {
      if i < |ss| {
        assert r[i] == ss[i];
      }
    }
  }

  lemma MarkerFreeAppend(ss: seq<Section>, s: Section)
    requires MarkerFree(ss)
    requires s.block.Code? ==> NoMarkerLines(s.block.code.lines)
    ensures MarkerFree(ss + [s])
  {
    var r := ss + [s];
    forall i | 0 <= i < |r| && r[i].block.Code?
      ensures NoMarkerLines(r[i].block.code.lines)
    {
      if i < |ss| {
        assert r[i] == ss[i];
      }
    }
  }

  lemma LinesOfText(ls: seq<CodeLine>, text: seq<string>)
    requires LinesCoalesced(ls)
    ensures LinesCoalesced(ls + AsLines(text))
  {
  }

  lemma MarkerFreeText(ls: seq<CodeLine>, text: seq<string>)
    requires NoMarkerLines(ls)
    requires forall i :: 0 <= i < |text| ==> !IsMarker(text[i])
    ensures NoMarkerLines(ls + AsLines(text))
  {
    var r := ls + AsLines(text);
    forall i | 0 <= i < |r| && r[i].Line?
      ensures !IsMarker(r[i].text)
    {
      if i >= |ls| {
        assert r[i] == Line(text[i - |ls|]);
      }
    }
  }

  lemma PrintIntoLinesShape(ls: seq<CodeLine>, p: PrintStatement)
    requires LinesCoalesced(ls)
    ensures LinesCoalesced(PrintIntoLines(ls, p))
    ensures NoMarkerLines(ls) ==> NoMarkerLines(PrintIntoLines(ls, p))
  {
    var r := PrintIntoLines(ls, p);
    assert r[..|r| - 1] == (if ls != [] && ls[|ls| - 1].Output? then ls[..|ls| - 1] else ls);
    forall i | 0 <= i < |r| - 1
      ensures r[i] == ls[i]
    {
      assert r[i] == r[..|r| - 1][i];
    }
  }

  lemma PrintIntoSectionsShape(ss: seq<Section>, p: PrintStatement)
    requires SectionsCoalesced(ss)
    ensures SectionsCoalesced(PrintIntoSections(ss, p))
    ensures MarkerFree(ss) ==> MarkerFree(PrintIntoSections(ss, p))
  {
    if ss != [] && ss[|ss| - 1].block.Prints? {
      var last := ss[|ss| - 1];
      var init := ss[..|ss| - 1];
      var s := last.(block := Prints(PrintBlock(last.block.prints.statements + [p])));
      assert PrintIntoSections(ss, p) == init + [s];
      assert SectionsCoalesced(init);
      assert SectionShaped(last);
      SectionsAppend(init, s);
      if MarkerFree(ss) {
        MarkerFreeAppend(init, s);
      }
    } else {
      SectionsAppend(ss, Section(Prints(PrintBlock([p]))));
      if MarkerFree(ss) {
        MarkerFreeAppend(ss, Section(Prints(PrintBlock([p]))));
      }
    }
  }

  /* ---------- each transition keeps the shape ---------- */

  lemma FlushShape(m: Maker, caption: Option<string>)
    requires Shaped(m)
    ensures Shaped(Flush(m, caption))
    ensures MakerMarkerFree(m) ==> MakerMarkerFree(Flush(m, caption))
  {
    if m.code.Some? {
      var s := Section(Code(m.code.value), m.name, caption);
      SectionsAppend(m.sections, s);
      if MakerMarkerFree(m) {
        MarkerFreeAppend(m.sections, s);
      }
    }
  }

  lemma DivideShape(m: Maker, line: string)
    requires Shaped(m) && Divide(m, line).Some?
    ensures Shaped(Divide(m, line).value)
    ensures MakerMarkerFree(m) ==> MakerMarkerFree(Divide(m, line).value)
  {
    FlushShape(m, None);
    if MatchOpen(line).None? {
      FlushShape(m, NameOf(MatchClose(line).value));
    }
  }

  lemma AddLinesShape(m: Maker, text: seq<string>)
    requires Shaped(m)
    ensures Shaped(AddLines(m, text))
    ensures MakerMarkerFree(m) && (forall i :: 0 <= i < |text| ==> !IsMarker(text[i]))
      ==> MakerMarkerFree(AddLines(m, text))
  {
    if m.code.Some? {
      LinesOfText(m.code.value.lines, text);
      if MakerMarkerFree(m) && (forall i :: 0 <= i < |text| ==> !IsMarker(text[i])) {
        MarkerFreeText(m.code.value.lines, text);
      }
    }
  }

  lemma AddPrintShape(m: Maker, p: PrintStatement)
    requires Shaped(m)
    ensures Shaped(AddPrint(m, p))
    ensures MakerMarkerFree(m) ==> MakerMarkerFree(AddPrint(m, p))
  {
    if m.code.Some? {
      PrintIntoLinesShape(m.code.value.lines, p);
    } else {
      PrintIntoSectionsShape(m.sections, p);
    }
  }

  lemma AddPlotShape(m: Maker, plot: PlotBlock)
    requires Shaped(m) && AddPlot(m, plot).Ok?
    ensures Shaped(AddPlot(m, plot).value)
    ensures MakerMarkerFree(m) ==> MakerMarkerFree(AddPlot(m, plot).value)
  {
    SectionsAppend(m.sections, Section(Plot(plot)));
    if MakerMarkerFree(m) {
      MarkerFreeAppend(m.sections, Section(Plot(plot)));
    }
  }

  lemma AfterQuoteShape(m: Maker, tag: Option<(TextFormat, string)>, lines: seq<string>)
    requires Shaped(m) && tag.Some?
    ensures Shaped(AfterQuote(m, tag, lines))
    ensures MakerMarkerFree(m) ==> MakerMarkerFree(AfterQuote(m, tag, lines))
  {
    var f := Flush(m, None);
    FlushShape(m, None);
    var s := Section(Text(TextBlock(Join(lines, "\n"), tag.value.0)));
    SectionsAppend(f.sections, s);
    if MakerMarkerFree(m) {
      MarkerFreeAppend(f.sections, s);
    }
  }

  /* ---------- one round of the loop ---------- */

  /** The position and state after the round of the loop that reads
      `items[pos]`; a position past the end when the round ends the scan. */
  function Next(items: seq<Item>, pos: nat, m: Maker): (nat, Maker)
    requires pos < |items|
  {
    match items[pos]
    case Src(line) =>
      if Divide(m, line).Some? then (pos + 1, Divide(m, line).value)
      else (
        match MatchQuoteOpen(line)
        case None => (pos + 1, AddLines(m, [line]))
        case Some((q, rest)) =>
          var tag := MatchTag(rest);
          match ScanQuote(items, pos + 1, q, tag.Some?)
          case Closed(body, next) => (next, AfterQuote(m, tag, QuoteHead(line, tag) + body))
          case _ => (|items| + 1, m))
    case PrintItem(p) => (pos + 1, AddPrint(m, p))
    case PlotItem(plot) =>
      match AddPlot(m, plot)
      case Ok(m') => (pos + 1, m')
      case Err(_) => (|items| + 1, m)
  }

  /** The loop from `pos` is the loop from where the round leaves it, or the
      final flush when the round ends the scan. */
  lemma NextUnfold(items: seq<Item>, pos: nat, m: Maker)
    requires pos < |items| && AssembleFrom(items, pos, m).Ok?
    ensures var (next, m') := Next(items, pos, m);
      && pos < next
      && (next <= |items| ==> AssembleFrom(items, pos, m) == AssembleFrom(items, next, m'))
      && (next > |items| ==> AssembleFrom(items, pos, m) == Ok(Flush(m, None).sections))
  {
    if items[pos].Src? && Divide(m, items[pos].text).None? && MatchQuoteOpen(items[pos].text).Some? {
      var (q, rest) := MatchQuoteOpen(items[pos].text).value;
      var e := ScanQuote(items, pos + 1, q, MatchTag(rest).Some?);
      assert e.Closed? || e.OutOfInput?;
    }
  }

  lemma NextShape(items: seq<Item>, pos: nat, m: Maker)
    requires pos < |items| && Shaped(m)
    ensures Shaped(Next(items, pos, m).1)
    ensures NoPlainQuotes(items) && MakerMarkerFree(m) ==> MakerMarkerFree(Next(items, pos, m).1)
  {
    match items[pos]
    case Src(line) =>
      if Divide(m, line).Some? {
        DivideShape(m, line);
      } else if MatchQuoteOpen(line).None? {
        AddLinesShape(m, [line]);
      } else {
        var (q, rest) := MatchQuoteOpen(line).value;
        var tag := MatchTag(rest);
        var e := ScanQuote(items, pos + 1, q, tag.Some?);
        if e.Closed? {
          if tag.Some? {
            AfterQuoteShape(m, tag, QuoteHead(line, tag) + e.body);
          } else {
            AddLinesShape(m, QuoteHead(line, tag) + e.body);
          }
        }
      }
    case PrintItem(p) =>
      AddPrintShape(m, p);
    case PlotItem(plot) =>
      if AddPlot(m, plot).Ok? {
        AddPlotShape(m, plot);
      }
  }

  /* ---------- the result ---------- */

  lemma {:induction false} AssembleFromShape(items: seq<Item>, pos: nat, m: Maker)
    requires pos <= |items| && Shaped(m) && AssembleFrom(items, pos, m).Ok?
    ensures SectionsCoalesced(AssembleFrom(items, pos, m).value)
    ensures NoPlainQuotes(items) && MakerMarkerFree(m) ==> MarkerFree(AssembleFrom(items, pos, m).value)
    decreases |items| - pos
  {
    if pos == |items| {
      FlushShape(m, None);
    } else {
      NextUnfold(items, pos, m);
      NextShape(items, pos, m);
      var (next, m') := Next(items, pos, m);
      if next <= |items| {
        AssembleFromShape(items, next, m');
      } else {
        FlushShape(m, None);
      }
    }
  }

  /** Whatever the input, the sections `MakeSections` returns have the shape
      above; and a script that opens no plain triple quote has no marker
      line in any code block. */
  lemma AssembleShape(items: seq<Item>, sections: seq<Section>)
    requires Assemble(items) == Ok(sections)
    ensures SectionsCoalesced(sections)
    ensures NoPlainQuotes(items) ==> MarkerFree(sections)
  {
    AssembleFromShape(items, 0, Start);
  }
}
