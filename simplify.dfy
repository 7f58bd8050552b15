/** `simplify` (notbook/exec.py:56-64): the section records turned into
    plain Python data — a dataclass becomes a dict whose first key `*type`
    holds the class name, followed by one key per field in declaration
    order; a list becomes a list of the simplified elements; strings,
    integers and `None` stay as they are.  The partner of each encoder is a
    decoder, and the round-trip lemmas show that nothing is lost. */
module Simplify {
  import opened Util
  import opened Models

  /** The plain data `simplify` produces. */
  datatype PyData =
    | PDict(entries: seq<(string, PyData)>)
    | PList(items: seq<PyData>)
    | PStr(s: string)
    | PInt(n: int)
    | PNone

  /** `Optional[str]` as plain data. */
  function OptStr(o: Option<string>): PyData
  {
    match o
    case Some(s) => PStr(s)
    case None => PNone
  }

  function ArgFormatOf(s: string): (r: Option<ArgFormat>)
    ensures r.Some? ==> r.value.Name() == s
  {
    if s == "py" then Some(Py) else if s == "json" then Some(Json) else if s == "str" then Some(Str) else None
  }

  function TextFormatOf(s: string): (r: Option<TextFormat>)
    ensures r.Some? ==> r.value.Name() == s
  {
    if s == "md" then Some(Md) else if s == "html" then Some(Html) else None
  }

  /* ---------- encoders: `simplify` on each record type ---------- */

  /** `[simplify(v) for v in obj]` */
  function EncodeAll<T>(enc: T -> PyData, xs: seq<T>): (r: seq<PyData>)
    ensures |r| == |xs|
    ensures forall i :: 0 <= i < |xs| ==> r[i] == enc(xs[i])
  {
    seq(|xs|, i requires 0 <= i < |xs| => enc(xs[i]))
  }

  function SimplifyArg(a: PrintArg): PyData
  {
    PDict([("*type", PStr("PrintArg")), ("content", PStr(a.content)), ("format", PStr(a.format.Name()))])
  }

  function SimplifyStatement(p: PrintStatement): PyData
  {
    PDict([("*type", PStr("PrintStatement")), ("args", PList(EncodeAll(SimplifyArg, p.args))),
           ("line_no", PInt(p.lineNo)), ("indent", PInt(p.indent))])
  }

  function SimplifyPrintBlock(b: PrintBlock): PyData
  {
    PDict([("*type", PStr("PrintBlock")), ("statements", PList(EncodeAll(SimplifyStatement, b.statements)))])
  }

  /** An element of `CodeBlock.lines`: a string stays, a `PrintBlock` is simplified. */
  function SimplifyCodeLine(l: CodeLine): PyData
  {
    match l
    case Line(text) => PStr(text)
    case Output(block) => SimplifyPrintBlock(block)
  }

  function SimplifyBlock(b: Block): PyData
  {
    match b
    case Text(t) => PDict([("*type", PStr("TextBlock")), ("content", PStr(t.content)), ("format", PStr(t.format.Name()))])
    case Code(c) => PDict([("*type", PStr("CodeBlock")), ("lines", PList(EncodeAll(SimplifyCodeLine, c.lines))), ("format", PStr(c.format))])
    case Prints(p) => SimplifyPrintBlock(p)
    case Plot(p) => PDict([("*type", PStr("PlotBlock")), ("html", PStr(p.html)), ("line_no", PInt(p.lineNo)), ("format", PStr(p.format))])
  }

  function SimplifySection(s: Section): PyData
  {
    PDict([("*type", PStr("Section")), ("block", SimplifyBlock(s.block)),
           ("title", OptStr(s.title)), ("caption", OptStr(s.caption))])
  }

  /** `simplify(sections)` */
  function SimplifySections(ss: seq<Section>): PyData
  {
    PList(EncodeAll(SimplifySection, ss))
  }

  /* ---------- decoders ---------- */

  /** A list read element by element; `None` if any element does not read. */
  function ReadAll<T>(read: PyData -> Option<T>, xs: seq<PyData>): Option<seq<T>>
  {
    if xs == [] then Some([])
    else
      match (read(xs[0]), ReadAll(read, xs[1..]))
      case (Some(x), Some(rest)) => Some([x] + rest)
      case _ => None
  }

  /** The value under key `key` at position `i` of a dict, if it is there. */
  function Field(d: PyData, i: nat, key: string): Option<PyData>
  {
    if d.PDict? && i < |d.entries| && d.entries[i].0 == key then Some(d.entries[i].1) else None
  }

  /** A dict with exactly `n` entries whose first is `*type: name`. */
  predicate Tagged(d: PyData, name: string, n: nat)
  {
    d.PDict? && |d.entries| == n && n >= 1 && d.entries[0] == ("*type", PStr(name))
  }

  function StrField(d: PyData, i: nat, key: string): Option<string>
  {
    match Field(d, i, key)
    case Some(PStr(s)) => Some(s)
    case _ => None
  }

  function IntField(d: PyData, i: nat, key: string): Option<int>
  {
    match Field(d, i, key)
    case Some(PInt(n)) => Some(n)
    case _ => None
  }

  function OptStrField(d: PyData, i: nat, key: string): Option<Option<string>>
  {
    match Field(d, i, key)
    case Some(PStr(s)) => Some(Some(s))
    case Some(PNone) => Some(None)
    case _ => None
  }

  function ListField(d: PyData, i: nat, key: string): Option<seq<PyData>>
  {
    match Field(d, i, key)
    case Some(PList(xs)) => Some(xs)
    case _ => None
  }

  function ReadArg(d: PyData): Option<PrintArg>
  {
    if !Tagged(d, "PrintArg", 3) then None
    else
      match (StrField(d, 1, "content"), StrField(d, 2, "format"))
      case (Some(content), Some(f)) =>
        (match ArgFormatOf(f)
         case Some(format) => Some(PrintArg(content, format))
         case None => None)
      case _ => None
  }

  function ReadStatement(d: PyData): Option<PrintStatement>
  {
    if !Tagged(d, "PrintStatement", 4) then None
    else
      match (ListField(d, 1, "args"), IntField(d, 2, "line_no"), IntField(d, 3, "indent"))
      case (Some(xs), Some(lineNo), Some(indent)) =>
        (match ReadAll(ReadArg, xs)
         case Some(args) => if indent >= 0 then Some(PrintStatement(args, lineNo, indent)) else None
         case None => None)
      case _ => None
  }

  function ReadPrintBlock(d: PyData): Option<PrintBlock>
  {
    if !Tagged(d, "PrintBlock", 2) then None
    else
      match ListField(d, 1, "statements")
      case Some(xs) =>
        (match ReadAll(ReadStatement, xs)
         case Some(ps) => Some(PrintBlock(ps))
         case None => None)
      case None => None
  }

  function ReadCodeLine(d: PyData): Option<CodeLine>
  {
    if d.PStr? then Some(Line(d.s))
    else
      match ReadPrintBlock(d)
      case Some(b) => Some(Output(b))
      case None => None
  }

  function ReadBlock(d: PyData): Option<Block>
  {
    if Tagged(d, "TextBlock", 3) then
      match (StrField(d, 1, "content"), StrField(d, 2, "format"))
      case (Some(content), Some(f)) =>
        (match TextFormatOf(f)
         case Some(format) => Some(Text(TextBlock(content, format)))
         case None => None)
      case _ => None
    else if Tagged(d, "CodeBlock", 3) then
      match (ListField(d, 1, "lines"), StrField(d, 2, "format"))
      case (Some(xs), Some(format)) =>
        (match ReadAll(ReadCodeLine, xs)
         case Some(ls) => Some(Code(CodeBlock(ls, format)))
         case None => None)
      case _ => None
    else if Tagged(d, "PlotBlock", 4) then
      match (StrField(d, 1, "html"), IntField(d, 2, "line_no"), StrField(d, 3, "format"))
      case (Some(html), Some(lineNo), Some(format)) => Some(Plot(PlotBlock(html, lineNo, format)))
      case _ => None
    else
      match ReadPrintBlock(d)
      case Some(p) => Some(Prints(p))
      case None => None
  }

  function ReadSection(d: PyData): Option<Section>
  {
    if !Tagged(d, "Section", 4) then None
    else
      match (Field(d, 1, "block"), OptStrField(d, 2, "title"), OptStrField(d, 3, "caption"))
      case (Some(b), Some(title), Some(caption)) =>
        (match ReadBlock(b)
         case Some(block) => Some(Section(block, title, caption))
         case None => None)
      case _ => None
  }

  /** The inverse of `simplify` on a list of sections. */
  function ReadSections(d: PyData): Option<seq<Section>>
  {
    if d.PList? then ReadAll(ReadSection, d.items) else None
  }

  /* ---------- round trips ---------- */

  /** A list reads back whole when each of its elements does. */
  lemma {:induction false} ReadAllRoundTrip<T>(enc: T -> PyData, read: PyData -> Option<T>, xs: seq<T>)
    requires forall i :: 0 <= i < |xs| ==> read(enc(xs[i])) == Some(xs[i])
    ensures ReadAll(read, EncodeAll(enc, xs)) == Some(xs)
  {
    if xs != [] {
      var ys := EncodeAll(enc, xs);
      assert read(ys[0]) == Some(xs[0]);
      ReadAllRoundTrip(enc, read, xs[1..]);
      assert ys[1..] == EncodeAll(enc, xs[1..]);
      assert [xs[0]] + xs[1..] == xs;
    }
  }

  lemma ArgRoundTrip(a: PrintArg)
    ensures ReadArg(SimplifyArg(a)) == Some(a)
  {
  }

  lemma StatementRoundTrip(p: PrintStatement)
    ensures ReadStatement(SimplifyStatement(p)) == Some(p)
  {
    forall i | 0 <= i < |p.args|
      ensures ReadArg(SimplifyArg(p.args[i])) == Some(p.args[i])
    {
      ArgRoundTrip(p.args[i]);
    }
    ReadAllRoundTrip(SimplifyArg, ReadArg, p.args);
  }

  lemma PrintBlockRoundTrip(b: PrintBlock)
    ensures ReadPrintBlock(SimplifyPrintBlock(b)) == Some(b)
  {
    forall i | 0 <= i < |b.statements|
      ensures ReadStatement(SimplifyStatement(b.statements[i])) == Some(b.statements[i])
    {
      StatementRoundTrip(b.statements[i]);
    }
    ReadAllRoundTrip(SimplifyStatement, ReadStatement, b.statements);
  }

  lemma CodeLineRoundTrip(l: CodeLine)
    ensures ReadCodeLine(SimplifyCodeLine(l)) == Some(l)
  {
    if l.Output? {
      PrintBlockRoundTrip(l.block);
    }
  }

  lemma BlockRoundTrip(b: Block)
    ensures ReadBlock(SimplifyBlock(b)) == Some(b)
  {
    match b
    case Text(t) =>
    case Code(c) =>
      forall i | 0 <= i < |c.lines|
        ensures ReadCodeLine(SimplifyCodeLine(c.lines[i])) == Some(c.lines[i])
      {
        CodeLineRoundTrip(c.lines[i]);
      }
      ReadAllRoundTrip(SimplifyCodeLine, ReadCodeLine, c.lines);
    case Prints(p) => PrintBlockRoundTrip(p);
    case Plot(p) =>
  }

  lemma SectionRoundTrip(s: Section)
    ensures ReadSection(SimplifySection(s)) == Some(s)
  {
    var d := SimplifySection(s);
    BlockRoundTrip(s.block);
    assert Field(d, 1, "block") == Some(SimplifyBlock(s.block));
    assert OptStrField(d, 2, "title") == Some(s.title);
    assert OptStrField(d, 3, "caption") == Some(s.caption);
  }

  /** Simplifying the sections loses nothing: they can be read back whole. */
  lemma SectionsRoundTrip(ss: seq<Section>)
    ensures ReadSections(SimplifySections(ss)) == Some(ss)
  {
    forall i | 0 <= i < |ss|
      ensures ReadSection(SimplifySection(ss[i])) == Some(ss[i])
    {
      SectionRoundTrip(ss[i]);
    }
    ReadAllRoundTrip(SimplifySection, ReadSection, ss);
  }

  /** Every record becomes a dict that starts with its class name under
      `*type`; a section's block is tagged with the block's own class. */
  lemma SectionTagged(s: Section)
    ensures Tagged(SimplifySection(s), "Section", 4)
    ensures SimplifySection(s).entries[1].1.entries[0] == ("*type", PStr(s.block.ClassName()))
  {
    match s.block
    case Text(_) => assert "Text" + "Block" == "TextBlock";
    case Code(_) => assert "Code" + "Block" == "CodeBlock";
    case Prints(_) => assert "Print" + "Block" == "PrintBlock";
    case Plot(_) => assert "Plot" + "Block" == "PlotBlock";
  }
}
