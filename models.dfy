/** The closed set of records the pipeline passes around (notbook/models.py).
    Dataclass defaults become default values of constructor parameters, so
    `PrintStatement(args, 7)` has indent 0 and `Section(b)` has no title and no
    caption, exactly as in Python.  Literal-typed `format` fields that admit
    several values become enumerations; the fixed ones keep their string. */
module Models {
  import opened Util

  /** `PrintArg.format`: one of 'py', 'json', 'str'. */
  datatype ArgFormat = Py | Json | Str {
    function Name(): (r: string)
      ensures r in {"py", "json", "str"}
    {
      match this
      case Py => "py"
      case Json => "json"
      case Str => "str"
    }
  }

  /** One positional argument of a captured `print` call, already rendered to text. */
  datatype PrintArg = PrintArg(content: string, format: ArgFormat)

  /** One captured `print` call: its arguments and the script line it ran on. */
  datatype PrintStatement = PrintStatement(args: seq<PrintArg>, lineNo: int, indent: nat := 0)

  /** An ordered batch of print statements shown together. */
  datatype PrintBlock = PrintBlock(statements: seq<PrintStatement>)

  /** `TextBlock.format`: one of 'md', 'html'. */
  datatype TextFormat = Md | Html {
    function Name(): (r: string)
      ensures r in {"md", "html"}
    {
      if Md? then "md" else "html"
    }
  }

  datatype TextBlock = TextBlock(content: string, format: TextFormat)

  /** An element of `CodeBlock.lines`: a source line or a batch of prints. */
  datatype CodeLine = Line(text: string) | Output(block: PrintBlock)

  datatype CodeBlock = CodeBlock(lines: seq<CodeLine>, format: string := "py")

  /** A rendered plot and the script line that produced it. */
  datatype PlotBlock = PlotBlock(html: string, lineNo: int, format: string := "bokeh")

  /** `Union[TextBlock, CodeBlock, PrintBlock, PlotBlock]` */
  datatype Block =
    | Text(text: TextBlock)
    | Code(code: CodeBlock)
    | Prints(prints: PrintBlock)
    | Plot(plot: PlotBlock)
  {
    /** The word in front of `Block` in the class name. */
    function Kind(): string
    {
      match this
      case Text(_) => "Text"
      case Code(_) => "Code"
      case Prints(_) => "Print"
      case Plot(_) => "Plot"
    }

    /** `b.__class__.__name__` */
    function ClassName(): string
    {
      Kind() + "Block"
    }
  }

  datatype Section = Section(block: Block, title: Option<string> := None, caption: Option<string> := None)

  /** An element of the merged list `List[Union[str, PrintStatement, PlotBlock]]`. */
  datatype Item = Src(text: string) | PrintItem(stmt: PrintStatement) | PlotItem(plot: PlotBlock)

  /** A captured event: anything in the merged list that is not a source line. */
  type Event = i: Item | !i.Src? witness PlotItem(PlotBlock("", 0))

  /** `attrgetter('line_no')` on an event. */
  function LineNo(e: Event): int
  {
    if e.PrintItem? then e.stmt.lineNo else e.plot.lineNo
  }
}
