/** What `MakeSections` (notbook/exec.py:67-168) computes, as functions: the
    merged list of script lines and events is read once from the front, block
    markers open and close code blocks, documentation quotes become text
    sections, print statements coalesce into print blocks and plots become
    sections of their own.  `Assemble` is the specification the imperative
    `SectionMaker` is proved against; the lemmas about it are in
    sections_props.dfy. */
module Sections {
  import opened Util
  import opened Models
  import opened Markers

  /** The exceptions that escape `MakeSections`: `NotImplementedError` for a
      plot inside a block, `TypeError` for an event inside a quote span (the
      source hands it to `re.match`). */
  datatype SectionError = NotImplemented | TypeError

  /** The fields of `MakeSections` other than its iterator. */
  datatype Maker = Maker(sections: seq<Section>, name: Option<string>, code: Option<CodeBlock>)

  /** The state `__init__` starts from. */
  const Start := Maker([], None, None)

  /** `current_name` is only set together with `current_code`. */
  predicate NameOnlyInBlock(m: Maker)
  {
    m.code.None? ==> m.name.None?
  }

  /** `maybe_add_current_code(caption)`: an open block, even an empty one,
      becomes a section with the block's title and the caption given. */
  function Flush(m: Maker, caption: Option<string>): (r: Maker)
    ensures r.code.None?
    ensures NameOnlyInBlock(m) ==> r.name.None?
    ensures m.code.None? ==> r == m
    ensures m.code.Some? ==> r.sections == m.sections + [Section(Code(m.code.value), m.name, caption)]
  {
    if m.code.Some? then Maker(m.sections + [Section(Code(m.code.value), m.name, caption)], None, None)
    else m
  }

  /** `# { title`: flush, then open an empty block named by the rest of the line. */
  function OpenBlock(m: Maker, rest: string): (r: Maker)
    ensures r.code == Some(CodeBlock([])) && r.name == NameOf(rest)
    ensures r.sections == Flush(m, None).sections
  {
    var f := Flush(m, None);
    Maker(f.sections, NameOf(rest), Some(CodeBlock([])))
  }

  /** `section_divide`: the new state if `line` is a marker. */
  function Divide(m: Maker, line: string): (r: Option<Maker>)
    ensures r.Some? <==> IsMarker(line)
  {
    match MatchOpen(line)
    case Some(rest) => Some(OpenBlock(m, rest))
    case None =>
      match MatchClose(line)
      case Some(rest) => Some(Flush(m, NameOf(rest)))
      case None => None
  }

  function AsLines(ls: seq<string>): (r: seq<CodeLine>)
    ensures |r| == |ls|
    ensures forall i :: 0 <= i < |ls| ==> r[i] == Line(ls[i])
  {
    if ls == [] then [] else [Line(ls[0])] + AsLines(ls[1..])
  }

  /** `current_code.lines.extend(ls)` if a block is open; otherwise nothing. */
  function AddLines(m: Maker, ls: seq<string>): (r: Maker)
    ensures r.sections == m.sections && r.name == m.name && r.code.Some? == m.code.Some?
    ensures m.code.Some? ==> r.code.value.lines == m.code.value.lines + AsLines(ls)
    ensures m.code.None? ==> r == m
  {
    match m.code
    case Some(c) => m.(code := Some(c.(lines := c.lines + AsLines(ls))))
    case None => m
  }

  /** `print_statement`: join the trailing print block of the open block, or
      of the section list, or start a new one. */
  function AddPrint(m: Maker, p: PrintStatement): Maker
  {
    match m.code
    case Some(c) => m.(code := Some(c.(lines := PrintIntoLines(c.lines, p))))
    case None => m.(sections := PrintIntoSections(m.sections, p))
  }

  /** Inside a block: the trailing `PrintBlock` of its lines grows, or one starts. */
  function PrintIntoLines(ls: seq<CodeLine>, p: PrintStatement): (r: seq<CodeLine>)
    ensures |r| == if ls != [] && ls[|ls| - 1].Output? then |ls| else |ls| + 1
    ensures r[..|r| - 1] == if ls != [] && ls[|ls| - 1].Output? then ls[..|ls| - 1] else ls
  {
    if ls != [] && ls[|ls| - 1].Output? then
      ls[..|ls| - 1] + [Output(PrintBlock(ls[|ls| - 1].block.statements + [p]))]
    else
      ls + [Output(PrintBlock([p]))]
  }

  /** Outside a block: a trailing print section grows, or a new one is added. */
  function PrintIntoSections(ss: seq<Section>, p: PrintStatement): (r: seq<Section>)
    ensures |r| == if ss != [] && ss[|ss| - 1].block.Prints? then |ss| else |ss| + 1
    ensures r[..|r| - 1] == if ss != [] && ss[|ss| - 1].block.Prints? then ss[..|ss| - 1] else ss
  {
    if ss != [] && ss[|ss| - 1].block.Prints? then
      var last := ss[|ss| - 1];
      ss[..|ss| - 1] + [last.(block := Prints(PrintBlock(last.block.prints.statements + [p])))]
    else
      ss + [Section(Prints(PrintBlock([p])))]
  }

  /** `plot_block`: a section of its own, but not inside a block. */
  function AddPlot(m: Maker, plot: PlotBlock): (r: Result<Maker, SectionError>)
    ensures r.Err? <==> m.code.Some?
    ensures r.Ok? ==> r.value == m.(sections := m.sections + [Section(Plot(plot))])
  {
    if m.code.Some? then Err(NotImplemented)
    else Ok(m.(sections := m.sections + [Section(Plot(plot))]))
  }

  /** How the scan for the closing quotes ends: the lines of the span after the
      opening line and the position after the closing line, the end of the
      input, or an event where a line was expected. */
  datatype QuoteEnd = Closed(body: seq<string>, next: nat) | OutOfInput | NotText

  /** The `while True` loop of `triple_quote`, from position `pos`: every line
      is taken whole up to the first one holding the quotes; of that one a
      documentation quote keeps only the text before the last quotes. */
  function ScanQuote(items: seq<Item>, pos: nat, q: Quote, tagged: bool): (r: QuoteEnd)
    ensures r.Closed? ==> pos < r.next <= |items| && |r.body| == r.next - pos
    ensures r.NotText? ==> exists i :: pos <= i < |items| && !items[i].Src?
    decreases |items| - pos
  {
    if pos >= |items| then OutOfInput
    else if !items[pos].Src? then NotText
    else
      var line := items[pos].text;
      match MatchClosing(line, q)
      case Some(before) => Closed([if tagged then before else line], pos + 1)
      case None =>
        match ScanQuote(items, pos + 1, q, tagged)
        case Closed(body, next) => Closed([line] + body, next)
        case other => other
  }

  /** `ScanQuote` from an earlier position, given what was taken since. */
  function Extend(taken: seq<string>, e: QuoteEnd): QuoteEnd
  {
    match e
    case Closed(body, next) => Closed(taken + body, next)
    case other => other
  }

  /** A line holding the closing quotes ends the span. */
  lemma ScanCloses(items: seq<Item>, p: nat, q: Quote, tagged: bool)
    requires p < |items| && items[p].Src? && MatchClosing(items[p].text, q).Some?
    ensures ScanQuote(items, p, q, tagged)
      == Closed([if tagged then MatchClosing(items[p].text, q).value else items[p].text], p + 1)
  {
  }

  /** Any other line is taken and the scan goes on. */
  lemma ScanContinues(items: seq<Item>, p: nat, q: Quote, tagged: bool)
    requires p < |items| && items[p].Src? && MatchClosing(items[p].text, q).None?
    ensures ScanQuote(items, p, q, tagged) == Extend([items[p].text], ScanQuote(items, p + 1, q, tagged))
  {
  }

  /** Lines taken in two steps are the lines taken at once. */
  lemma ExtendTwice(a: seq<string>, b: seq<string>, e: QuoteEnd)
    ensures Extend(a, Extend(b, e)) == Extend(a + b, e)
  {
    if e.Closed? {
      Assoc(a, b, e.body);
    }
  }

  /** The lines a quote span contributes before the scanned ones: the text
      after the tag if there is any, or the whole opening line of a plain
      quote. */
  function QuoteHead(firstLine: string, tag: Option<(TextFormat, string)>): seq<string>
  {
    match tag
    case Some((_, rest)) => if rest != [] then [rest] else []
    case None => [firstLine]
  }

  /** The end of `triple_quote`: a documentation quote flushes the open block,
      becomes a text section and reopens an anonymous empty block if one was
      open; a plain quote's lines go to the open block, or nowhere. */
  function AfterQuote(m: Maker, tag: Option<(TextFormat, string)>, lines: seq<string>): Maker
  {
    match tag
    case Some((format, _)) =>
      var f := Flush(m, None);
      var g := f.(sections := f.sections + [Section(Text(TextBlock(Join(lines, "\n"), format)))]);
      if m.code.Some? then g.(code := Some(CodeBlock([]))) else g
    case None => AddLines(m, lines)
  }

  /** The loop of `__init__` from position `pos` of the merged list, followed
      by the final flush. */
  function AssembleFrom(items: seq<Item>, pos: nat, m: Maker): (r: Result<seq<Section>, SectionError>)
    ensures r == Err(NotImplemented) ==> exists i :: pos <= i < |items| && items[i].PlotItem?
    ensures r.Err? ==> exists i :: pos <= i < |items| && !items[i].Src?
    decreases |items| - pos, 1
  {
    if pos >= |items| then Ok(Flush(m, None).sections)
    else
      match items[pos]
      case Src(line) => AssembleAtLine(items, pos, m, line)
      case PrintItem(p) => AssembleFrom(items, pos + 1, AddPrint(m, p))
      case PlotItem(plot) =>
        match AddPlot(m, plot)
        case Err(e) => Err(e)
        case Ok(m') => AssembleFrom(items, pos + 1, m')
  }

  /** The loop body for the script line `line` at `pos`: a marker, then a
      quote opener, then any other line. */
  function AssembleAtLine(items: seq<Item>, pos: nat, m: Maker, line: string): (r: Result<seq<Section>, SectionError>)
    requires pos < |items|
    ensures r == Err(NotImplemented) ==> exists i :: pos < i < |items| && items[i].PlotItem?
    ensures r.Err? ==> exists i :: pos < i < |items| && !items[i].Src?
    decreases |items| - pos, 0
  {
    match Divide(m, line)
    case Some(m') => AssembleFrom(items, pos + 1, m')
    case None =>
      match MatchQuoteOpen(line)
      case None => AssembleFrom(items, pos + 1, AddLines(m, [line]))
      case Some((q, rest)) =>
        var tag := MatchTag(rest);
        match ScanQuote(items, pos + 1, q, tag.Some?)
        case OutOfInput => Ok(Flush(m, None).sections)
        case NotText => Err(TypeError)
        case Closed(body, next) => AssembleFrom(items, next, AfterQuote(m, tag, QuoteHead(line, tag) + body))
  }

  /** `MakeSections(lines).sections`, or the exception it raises: only a
      plot raises `NotImplementedError`, and only a list holding an event
      raises at all. */
  function Assemble(items: seq<Item>): (r: Result<seq<Section>, SectionError>)
    ensures r == Err(NotImplemented) ==> exists i :: 0 <= i < |items| && items[i].PlotItem?
    ensures r.Err? ==> exists i :: 0 <= i < |items| && !items[i].Src?
  {
    AssembleFrom(items, 0, Start)
  }
}
