/** The `MakeSections` class of notbook/exec.py:67-168 as an object: the
    shared iterator is the list `items` with the position `pos` of the next
    element, and `sections`, `currentName` and `currentCode` are the fields the
    source updates.  Each method is proved to move the object's state exactly
    as the corresponding function of `Sections` says, and the loop of
    `__init__` (here `Run`) to end with `Assemble`. */
module MakeSections {
  import opened Util
  import opened Models
  import opened Markers
  import opened Sections

  /** How `triple_quote` returns: `False` for a line that opens no quote,
      `True` after a whole span, or by an exception: `StopIteration` from the
      iterator, `TypeError` from `re.match` on an event. */
  datatype QuoteOutcome = NotQuote | Consumed | StopIteration | Raised(error: SectionError)

  class SectionMaker {
    var items: seq<Item>
    var pos: nat
    var sections: seq<Section>
    var currentName: Option<string>
    var currentCode: Option<CodeBlock>

    /** The fields other than the iterator, as a value. */
    function State(): Maker
      reads this
    {
      Maker(sections, currentName, currentCode)
    }

    /** The first lines of `__init__`: a fresh iterator and empty fields. */
    constructor (lines: seq<Item>)
      ensures items == lines && pos == 0 && State() == Start
    {
      items := lines;
      pos := 0;
      sections := [];
      currentName := None;
      currentCode := None;
    }

    /** `maybe_add_current_code` */
    method MaybeAddCurrentCode(caption: Option<string>)
      modifies this
      ensures State() == Flush(old(State()), caption)
      ensures items == old(items) && pos == old(pos)
    {
      if currentCode.Some? {
        sections := sections + [Section(Code(currentCode.value), currentName, caption)];
        currentCode := None;
        currentName := None;
      }
    }

    /** `section_divide` */
    method SectionDivide(line: string) returns (matched: bool)
      modifies this
      ensures matched <==> IsMarker(line)
      ensures State() == if matched then Divide(old(State()), line).value else old(State())
      ensures items == old(items) && pos == old(pos)
    {
      var start := MatchOpen(line);
      if start.Some? {
        MaybeAddCurrentCode(None);
        currentCode := Some(CodeBlock([]));
        currentName := NameOf(start.value);
        return true;
      }
      var end := MatchClose(line);
      if end.Some? {
        MaybeAddCurrentCode(NameOf(end.value));
        return true;
      }
      return false;
    }

    /** `triple_quote`: reads the rest of the span from the shared iterator. */
    method TripleQuote(firstLine: string) returns (r: QuoteOutcome)
      requires pos <= |items|
      modifies this
      ensures items == old(items) && old(pos) <= pos <= |items|
      ensures r.NotQuote? <==> !IsQuoteOpener(firstLine)
      ensures r.NotQuote? ==> State() == old(State()) && pos == old(pos)
      ensures !r.NotQuote? ==>
        var (q, rest) := MatchQuoteOpen(firstLine).value;
        var tag := MatchTag(rest);
        match ScanQuote(items, old(pos), q, tag.Some?)
        case OutOfInput => r == StopIteration && State() == old(State()) && pos == |items|
        case NotText => r == Raised(TypeError)
        case Closed(body, next) =>
          r == Consumed && pos == next && State() == AfterQuote(old(State()), tag, QuoteHead(firstLine, tag) + body)
    {
      var start := MatchQuoteOpen(firstLine);
      if start.None? {
        return NotQuote;
      }
      var (quotes, startLine) := start.value;
      var renderer := MatchTag(startLine);
      var end := ReadSpan(quotes, renderer.Some?);
      match end {
        case OutOfInput =>
          return StopIteration;
        case NotText =>
          return Raised(TypeError);
        case Closed(body, _) =>
          FinishQuote(renderer, QuoteHead(firstLine, renderer) + body);
          return Consumed;
      }
    }

    /** The `while True` loop of `triple_quote`: lines are taken from the
        iterator up to the first that holds the quotes. */
    method ReadSpan(quotes: Quote, tagged: bool) returns (end: QuoteEnd)
      requires pos <= |items|
      modifies this
      ensures end == ScanQuote(items, old(pos), quotes, tagged)
      ensures end.Closed? ==> pos == end.next
      ensures end.OutOfInput? ==> pos == |items|
      ensures items == old(items) && old(pos) <= pos <= |items| && State() == old(State())
    {
      end, pos := ScanSpan(items, pos, quotes, tagged);
    }

    /** The end of `triple_quote`, once the span's lines are collected. */
    method FinishQuote(renderer: Option<(TextFormat, string)>, lines: seq<string>)
      modifies this
      ensures State() == AfterQuote(old(State()), renderer, lines)
      ensures items == old(items) && pos == old(pos)
    {
      if renderer.Some? {
        var wasInSection := currentCode.Some?;
        MaybeAddCurrentCode(None);
        sections := sections + [Section(Text(TextBlock(Join(lines, "\n"), renderer.value.0)))];
        if wasInSection {
          currentCode := Some(CodeBlock([]));
        }
      } else if currentCode.Some? {
        currentCode := Some(currentCode.value.(lines := currentCode.value.lines + AsLines(lines)));
      }
    }

    /** `print_statement` */
    method PrintStatement(p: PrintStatement)
      modifies this
      ensures State() == AddPrint(old(State()), p)
      ensures items == old(items) && pos == old(pos)
    {
      if currentCode.Some? {
        var ls := currentCode.value.lines;
        if ls != [] && ls[|ls| - 1].Output? {
          var last := ls[|ls| - 1].block;
          ls := ls[..|ls| - 1] + [Output(PrintBlock(last.statements + [p]))];
        } else {
          ls := ls + [Output(PrintBlock([p]))];
        }
        currentCode := Some(currentCode.value.(lines := ls));
      } else if sections != [] && sections[|sections| - 1].block.Prints? {
        var last := sections[|sections| - 1];
        var statements := last.block.prints.statements + [p];
        sections := sections[..|sections| - 1] + [last.(block := Prints(PrintBlock(statements)))];
      } else {
        sections := sections + [Section(Prints(PrintBlock([p])))];
      }
    }

    /** `plot_block` */
    method PlotBlock(plot: PlotBlock) returns (raised: Option<SectionError>)
      modifies this
      ensures match AddPlot(old(State()), plot)
        case Err(e) => raised == Some(e) && State() == old(State())
        case Ok(m) => raised == None && State() == m
      ensures items == old(items) && pos == old(pos)
    {
      if currentCode.Some? {
        return Some(NotImplemented);
      }
      sections := sections + [Section(Plot(plot))];
      return None;
    }

    /** The `while True` loop of `__init__` and the final flush.  The loop
        also ends when `triple_quote` exhausts the iterator, which leaves
        `pos` at the end of `items`. */
    method Run() returns (r: Result<seq<Section>, SectionError>)
      requires pos <= |items|
      modifies this
      ensures r == AssembleFrom(old(items), old(pos), old(State()))
    {
      ghost var goal := AssembleFrom(items, pos, State());
      while pos < |items|
        invariant pos <= |items| && items == old(items)
        invariant AssembleFrom(items, pos, State()) == goal
        decreases |items| - pos
      {
        var raised := Next();
        if raised.Some? {
          return Err(raised.value);
        }
      }
      MaybeAddCurrentCode(None);
      return Ok(sections);
    }

    /** One pass of the loop body: the next element of the iterator is
        dispatched on its kind. */
    method Next() returns (raised: Option<SectionError>)
      requires pos < |items|
      modifies this
      ensures items == old(items) && old(pos) < pos <= |items|
      ensures raised.Some? ==> AssembleFrom(items, old(pos), old(State())) == Err(raised.value)
      ensures raised.None? ==> AssembleFrom(items, pos, State()) == AssembleFrom(items, old(pos), old(State()))
    {
      var item := items[pos];
      pos := pos + 1;
      match item {
        case Src(line) =>
          raised := SourceLine(line);
        case PrintItem(p) =>
          PrintStatement(p);
          raised := None;
        case PlotItem(plot) =>
          raised := PlotBlock(plot);
      }
    }

    /** The loop body for a line of the script, read at `pos - 1`. */
    method SourceLine(line: string) returns (raised: Option<SectionError>)
      requires 0 < pos <= |items| && items[pos - 1] == Src(line)
      modifies this
      ensures items == old(items) && old(pos) <= pos <= |items|
      ensures raised.Some? ==> AssembleFrom(items, old(pos) - 1, old(State())) == Err(raised.value)
      ensures raised.None? ==> AssembleFrom(items, pos, State()) == AssembleFrom(items, old(pos) - 1, old(State()))
    {
      ghost var m0 := State();
      var divided := SectionDivide(line);
      if divided {
        return None;
      }
      var quoted := TripleQuote(line);
      match quoted {
        case NotQuote =>
          assert AsLines([line]) == [Line(line)];
          if currentCode.Some? {
            currentCode := Some(currentCode.value.(lines := currentCode.value.lines + [Line(line)]));
          }
          assert State() == AddLines(m0, [line]);
          return None;
        case Consumed =>
          return None;
        case StopIteration =>
          return None;
        case Raised(e) =>
          return Some(e);
      }
    }
  }

  /** The `while True` loop of `triple_quote` over the iterator's items
      from `from` on: lines are taken up to the first that holds the
      quotes; `next` is where the iterator stops. */
  method ScanSpan(items: seq<Item>, from: nat, quotes: Quote, tagged: bool) returns (end: QuoteEnd, next: nat)
    requires from <= |items|
    ensures end == ScanQuote(items, from, quotes, tagged)
    ensures from <= next <= |items|
    ensures end.Closed? ==> next == end.next
    ensures end.OutOfInput? ==> next == |items|
  {
    var p := from;
    var lines: seq<string> := [];
    while true
      invariant from <= p <= |items|
      invariant ScanQuote(items, from, quotes, tagged) == Extend(lines, ScanQuote(items, p, quotes, tagged))
      decreases |items| - p
    {
      if p >= |items| {
        return OutOfInput, p;
      }
      var item := items[p];
      if !item.Src? {
        return NotText, p + 1;
      }
      var closing := MatchClosing(item.text, quotes);
      if closing.Some? {
        ScanCloses(items, p, quotes, tagged);
        lines := lines + [if tagged then closing.value else item.text];
        return Closed(lines, p + 1), p + 1;
      }
      ScanContinues(items, p, quotes, tagged);
      ExtendTwice(lines, [item.text], ScanQuote(items, p + 1, quotes, tagged));
      lines := lines + [item.text];
      p := p + 1;
    }
  }

  /** `MakeSections(lines).sections`, or the exception it raises. */
  method MakeSectionsOf(lines: seq<Item>) returns (r: Result<seq<Section>, SectionError>)
    ensures r == Assemble(lines)
  {
    var maker := new SectionMaker(lines);
    r := maker.Run();
  }
}
