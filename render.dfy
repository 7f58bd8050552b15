/** HTML output of notbook/render.py.  The markdown renderer (misaka) and
    the syntax highlighter (pygments) are parameters: `markdown` turns
    markdown into HTML, `hasLexer` says whether `get_lexer_by_name` knows a
    language, and `highlight` is what `highlight(code, lexer, formatter)`
    returns for it. */
module Render {
  import opened Util
  import opened Models

  datatype Env = Env(markdown: string -> string, hasLexer: string -> bool, highlight: (string, string) -> string)

  /** The `AssertionError` raised on a block `render` does not accept. */
  datatype RenderError = AssertionError

  /* ---------- the pure helpers ---------- */

  const HighlightedOpen := "<div class=\"code-highlighted\">"
  const RawOpen := "<code class=\"code-raw\">"

  /** `render_code`: highlighted if the language has a lexer, otherwise the
      code as it is, unescaped, in a raw `<code>`. */
  function RenderCode(env: Env, lang: string, code: string): (r: string)
    ensures StartsWith(r, HighlightedOpen) <==> env.hasLexer(lang)
    ensures env.hasLexer(lang) ==> Enclosed(r, HighlightedOpen, "</div>")
    ensures !env.hasLexer(lang) ==> Enclosed(r, RawOpen, "</code>")
  {
    if env.hasLexer(lang) then
      EncloseIn(HighlightedOpen, env.highlight(lang, code), "</div>");
      HighlightedOpen + env.highlight(lang, code) + "</div>"
    else
      var r := RawOpen + code + "</code>";
      EncloseIn(RawOpen, code, "</code>");
      assert r[1] != HighlightedOpen[1];
      r
  }

  /** `render_print_arg` */
  function RenderPrintArg(env: Env, a: PrintArg): string
  {
    RenderCode(env, a.format.Name(), a.content)
  }

  /** `render_print_statement`: the arguments separated by spaces. */
  function RenderPrintStatement(env: Env, s: PrintStatement): (r: string)
    ensures Enclosed(r, "<code>", "</code>")
    ensures s.args == [] ==> r == "<code></code>"
  {
    EncloseIn("<code>", Join(ArgsHtml(env, s.args), " "), "</code>");
    "<code>" + Join(ArgsHtml(env, s.args), " ") + "</code>"
  }

  /** `map(render_print_arg, s.args)` */
  function ArgsHtml(env: Env, args: seq<PrintArg>): (r: seq<string>)
    ensures |r| == |args|
    ensures forall i :: 0 <= i < |args| ==> r[i] == RenderPrintArg(env, args[i])
  {
    seq(|args|, i requires 0 <= i < |args| => RenderPrintArg(env, args[i]))
  }

  const PrintBlockOpen := "<div class=\"print-block\">"

  /** `render_print`: one line per statement. */
  function RenderPrint(env: Env, p: PrintBlock): (r: string)
    ensures Enclosed(r, PrintBlockOpen, "</div>")
    ensures p.statements == [] ==> r == PrintBlockOpen + "</div>"
    ensures |p.statements| == 1 ==> r == PrintBlockOpen + RenderPrintStatement(env, p.statements[0]) + "</div>"
  {
    EncloseIn(PrintBlockOpen, Join(StatementsHtml(env, p.statements), "\n"), "</div>");
    PrintBlockOpen + Join(StatementsHtml(env, p.statements), "\n") + "</div>"
  }

  /** `map(render_print_statement, p.statements)` */
  function StatementsHtml(env: Env, ss: seq<PrintStatement>): (r: seq<string>)
    ensures |r| == |ss|
    ensures forall i :: 0 <= i < |ss| ==> r[i] == RenderPrintStatement(env, ss[i])
  {
    seq(|ss|, i requires 0 <= i < |ss| => RenderPrintStatement(env, ss[i]))
  }

  /** Without a lexer the code appears verbatim between the raw tags, so
      markup in it is not escaped. */
  lemma RawCodeVerbatim(env: Env, lang: string, code: string)
    requires !env.hasLexer(lang)
    ensures var r := RenderCode(env, lang, code);
      |r| == |code| + 30 && r[23..|r| - 7] == code
  {
  }

  /** The recovered indent plays no part in the output. */
  lemma IndentIgnored(env: Env, s: PrintStatement, indent: nat)
    ensures RenderPrintStatement(env, s.(indent := indent)) == RenderPrintStatement(env, s)
  {
  }

  /** A statement with one argument is that argument's code in `<code>`. */
  lemma OneArgStatement(env: Env, a: PrintArg, lineNo: int)
    ensures RenderPrintStatement(env, PrintStatement([a], lineNo)) == "<code>" + RenderPrintArg(env, a) + "</code>"
  {
    assert ArgsHtml(env, [a]) == [RenderPrintArg(env, a)];
  }

  /** One more argument adds a space and that argument's code before the
      closing `</code>`: the arguments appear in order, separated by single
      spaces. */
  lemma StatementAppend(env: Env, s: PrintStatement, a: PrintArg)
    requires s.args != []
    ensures var prev := RenderPrintStatement(env, s);
      RenderPrintStatement(env, s.(args := s.args + [a])) == prev[..|prev| - 7] + " " + RenderPrintArg(env, a) + "</code>"
  {
    var xs, x := ArgsHtml(env, s.args), RenderPrintArg(env, a);
    ArgsHtmlSnoc(env, s.args, a);
    JoinAppend(xs, x, " ");
    ReplaceClose("<code>", Join(xs, " "), " ", x, "</code>");
  }

  /** One more statement adds a newline and that statement's `<code>` before
      the closing `</div>`: the statements appear in order, one per line. */
  lemma PrintBlockAppend(env: Env, p: PrintBlock, st: PrintStatement)
    requires p.statements != []
    ensures var prev := RenderPrint(env, p);
      RenderPrint(env, PrintBlock(p.statements + [st])) == prev[..|prev| - 6] + "\n" + RenderPrintStatement(env, st) + "</div>"
  {
    var xs, x := StatementsHtml(env, p.statements), RenderPrintStatement(env, st);
    StatementsHtmlSnoc(env, p.statements, st);
    JoinAppend(xs, x, "\n");
    ReplaceClose(PrintBlockOpen, Join(xs, "\n"), "\n", x, "</div>");
  }

  lemma ArgsHtmlSnoc(env: Env, args: seq<PrintArg>, a: PrintArg)
    ensures ArgsHtml(env, args + [a]) == ArgsHtml(env, args) + [RenderPrintArg(env, a)]
  {
    var l, r := ArgsHtml(env, args + [a]), ArgsHtml(env, args) + [RenderPrintArg(env, a)];
    assert forall i :: 0 <= i < |l| ==> l[i] == r[i];
  }

  lemma StatementsHtmlSnoc(env: Env, ss: seq<PrintStatement>, st: PrintStatement)
    ensures StatementsHtml(env, ss + [st]) == StatementsHtml(env, ss) + [RenderPrintStatement(env, st)]
  {
    var l, r := StatementsHtml(env, ss + [st]), StatementsHtml(env, ss) + [RenderPrintStatement(env, st)];
    assert forall i :: 0 <= i < |l| ==> l[i] == r[i];
  }

  /** Text added to the body of an element lands before its closing tag. */
  lemma ReplaceClose(open: string, body: string, sep: string, x: string, close: string)
    ensures var prev := open + body + close;
      open + (body + sep + x) + close == prev[..|prev| - |close|] + sep + x + close
  {
    var prev := open + body + close;
    assert prev[..|prev| - |close|] == open + body;
  }

  /* ---------- the CSS class of a block ---------- */

  function UpperChar(c: char): (r: char)
    ensures IsLowerAlpha(c) ==> IsUpper(r)
    ensures !IsLowerAlpha(c) ==> r == c
  {
    if IsLowerAlpha(c) then (c as int - 'a' as int + 'A' as int) as char else c
  }

  predicate IsAlpha(c: char) { IsUpper(c) || IsLowerAlpha(c) }

  /** `re.sub(r'(?<!^)(?=[A-Z])', '-', name).lower()`: a dash before every
      capital but the first, then everything lower case. */
  function KebabCase(name: string): string
  {
    if name == [] then [] else [LowerChar(name[0])] + Hyphenate(name[1..])
  }

  /** The part of `KebabCase` after the first character. */
  function Hyphenate(s: string): string
  {
    if s == [] then []
    else (if IsUpper(s[0]) then ['-', LowerChar(s[0])] else [LowerChar(s[0])]) + Hyphenate(s[1..])
  }

  /** Lower-case letters and dashes, each dash followed by a letter. */
  predicate HyphenShaped(r: string)
  {
    && (forall i :: 0 <= i < |r| ==> IsLowerAlpha(r[i]) || r[i] == '-')
    && (forall i :: 0 <= i < |r| && r[i] == '-' ==> i + 1 < |r| && IsLowerAlpha(r[i + 1]))
  }

  /** A CSS class name as `render` makes them: starts with a letter, and
      never has a dash at the end or two in a row. */
  predicate KebabShaped(r: string)
  {
    HyphenShaped(r) && (r != [] ==> IsLowerAlpha(r[0]))
  }

  lemma {:induction false} HyphenateShape(s: string)
    requires forall i :: 0 <= i < |s| ==> IsAlpha(s[i])
    ensures HyphenShaped(Hyphenate(s))
  {
    if s != [] {
      HyphenateShape(s[1..]);
      var head := if IsUpper(s[0]) then ['-', LowerChar(s[0])] else [LowerChar(s[0])];
      var rest := Hyphenate(s[1..]);
      var r := head + rest;
      forall i | 0 <= i < |r| && r[i] == '-'
        ensures i + 1 < |r| && IsLowerAlpha(r[i + 1])
      {
        if i >= |head| {
          assert r[i] == rest[i - |head|];
          assert r[i + 1] == rest[i - |head| + 1];
        }
      }
      forall i | 0 <= i < |r|
        ensures IsLowerAlpha(r[i]) || r[i] == '-'
      {
        if i >= |head| {
          assert r[i] == rest[i - |head|];
        }
      }
    }
  }

  /** For a name made of letters, the class name is lower-case letters and
      single dashes between them. */
  lemma KebabShape(name: string)
    requires forall i :: 0 <= i < |name| ==> IsAlpha(name[i])
    ensures KebabShaped(KebabCase(name))
  {
    if name != [] {
      HyphenateShape(name[1..]);
      var rest := Hyphenate(name[1..]);
      var r := [LowerChar(name[0])] + rest;
      forall i | 0 <= i < |r| && r[i] == '-'
        ensures i + 1 < |r| && IsLowerAlpha(r[i + 1])
      {
        assert r[i] == rest[i - 1];
        assert r[i + 1] == rest[i];
      }
      forall i | 0 <= i < |r|
        ensures IsLowerAlpha(r[i]) || r[i] == '-'
      {
        if i >= 1 {
          assert r[i] == rest[i - 1];
        }
      }
    }
  }

  /** The way back from a class name to the Python class name. */
  function CamelCase(k: string): string
  {
    if k == [] then [] else [UpperChar(k[0])] + Unhyphenate(k[1..])
  }

  function Unhyphenate(s: string): string
  {
    if s == [] then []
    else if s[0] == '-' && |s| >= 2 then [UpperChar(s[1])] + Unhyphenate(s[2..])
    else [s[0]] + Unhyphenate(s[1..])
  }

  lemma {:induction false} UnhyphenateHyphenate(s: string)
    requires forall i :: 0 <= i < |s| ==> IsAlpha(s[i])
    ensures Unhyphenate(Hyphenate(s)) == s
  {
    if s != [] {
      UnhyphenateHyphenate(s[1..]);
      var rest := Hyphenate(s[1..]);
      if IsUpper(s[0]) {
        var h := ['-', LowerChar(s[0])] + rest;
        assert h[2..] == rest;
      } else {
        var h := [LowerChar(s[0])] + rest;
        assert h[1..] == rest;
      }
      assert [s[0]] + s[1..] == s;
    }
  }

  /** The class name can be read back into the Python class name, for any
      name of letters that starts with a capital. */
  lemma KebabRoundTrip(name: string)
    requires |name| >= 1 && IsUpper(name[0])
    requires forall i :: 0 <= i < |name| ==> IsAlpha(name[i])
    ensures CamelCase(KebabCase(name)) == name
  {
    UnhyphenateHyphenate(name[1..]);
    assert ([LowerChar(name[0])] + Hyphenate(name[1..]))[1..] == Hyphenate(name[1..]);
    assert [name[0]] + name[1..] == name;
  }

  /** The class name `render` gives each kind of block. */
  function CssClass(b: Block): string
  {
    match b
    case Text(_) => "text-block"
    case Code(_) => "code-block"
    case Prints(_) => "print-block"
    case Plot(_) => "plot-block"
  }

  lemma {:induction false} HyphenateAppend(a: string, b: string)
    ensures Hyphenate(a + b) == Hyphenate(a) + Hyphenate(b)
  {
    if a != [] {
      HyphenateAppend(a[1..], b);
      assert (a + b)[0] == a[0];
      assert (a + b)[1..] == a[1..] + b;
      var head := if IsUpper(a[0]) then ['-', LowerChar(a[0])] else [LowerChar(a[0])];
      assert Hyphenate(a) == head + Hyphenate(a[1..]);
      assert Hyphenate(a + b) == head + Hyphenate(a[1..] + b);
    } else {
      assert a + b == b;
    }
  }

  lemma {:induction false} HyphenateLower(s: string)
    requires forall i :: 0 <= i < |s| ==> IsLowerAlpha(s[i])
    ensures Hyphenate(s) == s
  {
    if s != [] {
      HyphenateLower(s[1..]);
      assert [s[0]] + s[1..] == s;
    }
  }

  /** The class name of a two-word Python class name such as `TextBlock`. */
  lemma TwoWords(first: char, rest: string, second: char, tail: string)
    requires IsUpper(first) && IsUpper(second)
    requires forall i :: 0 <= i < |rest| ==> IsLowerAlpha(rest[i])
    requires forall i :: 0 <= i < |tail| ==> IsLowerAlpha(tail[i])
    ensures KebabCase([first] + rest + [second] + tail) == [LowerChar(first)] + rest + ['-', LowerChar(second)] + tail
  {
    var name := [first] + rest + [second] + tail;
    assert name[1..] == rest + ([second] + tail);
    HyphenateAppend(rest, [second] + tail);
    HyphenateLower(rest);
    HyphenateLower(tail);
    assert ([second] + tail)[1..] == tail;
  }

  lemma TextClass(b: Block)
    requires b.Text?
    ensures CssClass(b) == KebabCase(b.ClassName())
  {
    TwoWords('T', "ext", 'B', "lock");
    assert b.ClassName() == ['T'] + "ext" + ['B'] + "lock";
  }

  lemma CodeClass(b: Block)
    requires b.Code?
    ensures CssClass(b) == KebabCase(b.ClassName())
  {
    TwoWords('C', "ode", 'B', "lock");
    assert b.ClassName() == ['C'] + "ode" + ['B'] + "lock";
  }

  lemma PrintsClass(b: Block)
    requires b.Prints?
    ensures CssClass(b) == KebabCase(b.ClassName())
  {
    TwoWords('P', "rint", 'B', "lock");
    assert b.ClassName() == ['P'] + "rint" + ['B'] + "lock";
  }

  lemma PlotClass(b: Block)
    requires b.Plot?
    ensures CssClass(b) == KebabCase(b.ClassName())
  {
    TwoWords('P', "lot", 'B', "lock");
    assert b.ClassName() == ['P'] + "lot" + ['B'] + "lock";
  }

  /** `CssClass` is the kebab case of the Python class name of the block. */
  lemma CssClassIsKebab(b: Block)
    ensures CssClass(b) == KebabCase(b.ClassName())
  {
    match b
    case Text(_) => TextClass(b);
    case Code(_) => CodeClass(b);
    case Prints(_) => PrintsClass(b);
    case Plot(_) => PlotClass(b);
  }

  /* ---------- runs of code lines ---------- */

  /** A part of a code block's output: a run of source lines rendered as one
      piece of code, or a print block. */
  datatype Piece = Run(code: seq<string>) | Out(block: PrintBlock)

  function LinesOf(code: seq<string>): (r: seq<CodeLine>)
    ensures |r| == |code|
    ensures forall i :: 0 <= i < |code| ==> r[i] == Line(code[i])
  {
    seq(|code|, i requires 0 <= i < |code| => Line(code[i]))
  }

  /** The code lines the pieces stand for. */
  function Flatten(ps: seq<Piece>): seq<CodeLine>
  {
    if ps == [] then []
    else (match ps[0] case Run(code) => LinesOf(code) case Out(b) => [Output(b)]) + Flatten(ps[1..])
  }

  /** No run is empty and no two runs are adjacent: every run is maximal. */
  predicate Maximal(ps: seq<Piece>)
  {
    forall i :: 0 <= i < |ps| && ps[i].Run? ==> ps[i].code != [] && (i + 1 < |ps| ==> ps[i + 1].Out?)
  }

  /** The loop of render.py:30-42 as a function: `pending` is the list `code`. */
  function GroupFrom(pending: seq<string>, lines: seq<CodeLine>): seq<Piece>
    decreases |lines|
  {
    if lines == [] then (if pending != [] then [Run(pending)] else [])
    else
      match lines[0]
      case Line(text) => GroupFrom(pending + [text], lines[1..])
      case Output(b) => (if pending != [] then [Run(pending)] else []) + [Out(b)] + GroupFrom([], lines[1..])
  }

  function Group(lines: seq<CodeLine>): seq<Piece>
  {
    GroupFrom([], lines)
  }

  lemma {:induction false} GroupFromFlatten(pending: seq<string>, lines: seq<CodeLine>)
    ensures Flatten(GroupFrom(pending, lines)) == LinesOf(pending) + lines
    decreases |lines|
  {
    if lines == [] {
      if pending != [] {
        assert Flatten([Run(pending)]) == LinesOf(pending) + Flatten([]);
      }
    } else {
      match lines[0]
      case Line(text) =>
        GroupFromFlatten(pending + [text], lines[1..]);
        assert LinesOf(pending + [text]) == LinesOf(pending) + [Line(text)];
        assert [lines[0]] + lines[1..] == lines;
      case Output(b) =>
        GroupFromFlatten([], lines[1..]);
        var pre := if pending != [] then [Run(pending)] else [];
        var g := GroupFrom([], lines[1..]);
        FlattenAppend(pre, [Out(b)] + g);
        assert Flatten([Out(b)] + g) == [Output(b)] + Flatten(g);
        assert Flatten(pre) == LinesOf(pending) by {
          if pending != [] {
            assert Flatten(pre) == LinesOf(pending) + Flatten([]);
          }
        }
        assert pre + [Out(b)] + g == pre + ([Out(b)] + g);
        assert [lines[0]] + lines[1..] == lines;
    }
  }

  lemma {:induction false} FlattenAppend(a: seq<Piece>, b: seq<Piece>)
    ensures Flatten(a + b) == Flatten(a) + Flatten(b)
  {
    if a != [] {
      FlattenAppend(a[1..], b);
      assert (a + b)[0] == a[0];
      assert (a + b)[1..] == a[1..] + b;
      var head := match a[0] case Run(code) => LinesOf(code) case Out(blk) => [Output(blk)];
      assert Flatten(a) == head + Flatten(a[1..]);
      assert Flatten(a + b) == head + Flatten(a[1..] + b);
    } else {
      assert a + b == b;
    }
  }

  /** The pieces account for every line of the block, in order. */
  lemma GroupFlatten(lines: seq<CodeLine>)
    ensures Flatten(Group(lines)) == lines
  {
    GroupFromFlatten([], lines);
  }

  lemma {:induction false} GroupFromMaximal(pending: seq<string>, lines: seq<CodeLine>)
    ensures Maximal(GroupFrom(pending, lines))
    decreases |lines|
  {
    if lines != [] {
      match lines[0]
      case Line(text) =>
        GroupFromMaximal(pending + [text], lines[1..]);
      case Output(b) =>
        GroupFromMaximal([], lines[1..]);
        var pre := if pending != [] then [Run(pending)] else [];
        var g := GroupFrom([], lines[1..]);
        var r := pre + [Out(b)] + g;
        forall i | 0 <= i < |r| && r[i].Run?
          ensures r[i].code != [] && (i + 1 < |r| ==> r[i + 1].Out?)
        {
          if i >= |pre| + 1 {
            assert r[i] == g[i - |pre| - 1];
            if i + 1 < |r| {
              assert r[i + 1] == g[i - |pre|];
            }
          }
        }
    }
  }

  /** Every run is maximal: runs are separated by print blocks. */
  lemma GroupMaximal(lines: seq<CodeLine>)
    ensures Maximal(Group(lines))
  {
    GroupFromMaximal([], lines);
  }

  lemma {:induction false} GroupFromRun(pending: seq<string>, code: seq<string>, rest: seq<CodeLine>)
    ensures GroupFrom(pending, LinesOf(code) + rest) == GroupFrom(pending + code, rest)
    decreases |code|
  {
    if code != [] {
      var ls := LinesOf(code) + rest;
      assert ls[0] == Line(code[0]);
      assert ls[1..] == LinesOf(code[1..]) + rest;
      GroupFromRun(pending + [code[0]], code[1..], rest);
      assert pending + [code[0]] + code[1..] == pending + code;
    } else {
      assert LinesOf(code) + rest == rest;
      assert pending + code == pending;
    }
  }

  lemma {:induction false} GroupFromPieces(pending: seq<string>, ps: seq<Piece>)
    requires Maximal(ps)
    ensures GroupFrom(pending, Flatten(ps)) ==
      if pending == [] then ps
      else if ps != [] && ps[0].Run? then [Run(pending + ps[0].code)] + ps[1..]
      else [Run(pending)] + ps
    decreases |ps|
  {
    if ps != [] {
      var tail := ps[1..];
      MaximalTail(ps);
      match ps[0]
      case Run(code) =>
        assert Flatten(ps) == LinesOf(code) + Flatten(tail);
        GroupFromRun(pending, code, Flatten(tail));
        GroupFromPieces(pending + code, tail);
        RunThenTail(pending, ps);
      case Out(b) =>
        GroupFromPieces([], tail);
        assert Flatten(ps) == [Output(b)] + Flatten(tail);
        assert [Out(b)] + tail == ps;
    }
  }

  lemma MaximalTail(ps: seq<Piece>)
    requires Maximal(ps) && ps != []
    ensures Maximal(ps[1..])
  {
    var tail := ps[1..];
    forall i | 0 <= i < |tail| && tail[i].Run?
      ensures tail[i].code != [] && (i + 1 < |tail| ==> tail[i + 1].Out?)
    {
      assert tail[i] == ps[i + 1];
    }
  }

  /** The step of `GroupFromPieces` for a leading run: the run joins what
      is pending, and the piece after it, if any, is a print block. */
  lemma RunThenTail(pending: seq<string>, ps: seq<Piece>)
    requires Maximal(ps) && ps != [] && ps[0].Run?
    ensures var code, tail := ps[0].code, ps[1..];
      (if pending + code == [] then tail
       else if tail != [] && tail[0].Run? then [Run(pending + code + tail[0].code)] + tail[1..]
       else [Run(pending + code)] + tail)
      ==
      (if pending == [] then ps
       else [Run(pending + code)] + tail)
  {
    assert [] + ps[0].code == ps[0].code;
    assert ps[0].code != [];
    assert [Run(ps[0].code)] + ps[1..] == ps;
  }

  /** The grouping is the only one with maximal runs: any pieces that are
      maximal and stand for the lines are exactly `Group`'s. */
  lemma GroupUnique(ps: seq<Piece>)
    requires Maximal(ps)
    ensures Group(Flatten(ps)) == ps
  {
    GroupFromPieces([], ps);
  }

  /** The HTML of each piece: a run joined with newlines and rendered once. */
  function PieceHtml(env: Env, format: string, p: Piece): string
  {
    match p
    case Run(code) => RenderCode(env, format, Join(code, "\n"))
    case Out(b) => RenderPrint(env, b)
  }

  function PiecesHtml(env: Env, format: string, ps: seq<Piece>): (r: seq<string>)
    ensures |r| == |ps|
    ensures forall i :: 0 <= i < |ps| ==> r[i] == PieceHtml(env, format, ps[i])
  {
    MapSeq((p: Piece) => PieceHtml(env, format, p), ps)
  }

  /* ---------- sections ---------- */

  /** `if section.title:` -- `None` and the empty string print no heading. */
  function Heading(s: Section): seq<string>
  {
    if s.title.Some? && s.title.value != "" then ["<h1>" + s.title.value + "</h1>"] else []
  }

  /** The list `html` of render.py:21-45 for one section. */
  function Parts(env: Env, s: Section): Result<seq<string>, RenderError>
  {
    match s.block
    case Text(t) => Ok(Heading(s) + [if t.format == Html then t.content else env.markdown(t.content)])
    case Code(c) => Ok(Heading(s) + PiecesHtml(env, c.format, Group(c.lines)))
    case Prints(p) => Ok(Heading(s) + [RenderPrint(env, p)])
    case Plot(_) => Err(AssertionError)
  }

  /** One element of `html_sections`. */
  function SectionHtml(env: Env, s: Section): Result<string, RenderError>
  {
    match Parts(env, s)
    case Ok(parts) => Ok("<div class=\"" + CssClass(s.block) + "\">" + Join(parts, "\n") + "</div>")
    case Err(e) => Err(e)
  }

  /** `html_sections` after the whole loop. */
  function SectionsHtml(env: Env, ss: seq<Section>): (r: Result<seq<string>, RenderError>)
    ensures r.Ok? ==> |r.value| == |ss|
  {
    if ss == [] then Ok([])
    else
      var init := SectionsHtml(env, ss[..|ss| - 1]);
      var last := SectionHtml(env, ss[|ss| - 1]);
      if init.Err? || last.Err? then Err(AssertionError)
      else Ok(init.value + [last.value])
  }

  function Wrap(hs: seq<string>): (r: seq<string>)
    ensures |r| == |hs|
  {
    seq(|hs|, i requires 0 <= i < |hs| => "<section>" + hs[i] + "</section>")
  }

  /** What `render(sections)` returns. */
  function RenderSpec(env: Env, ss: seq<Section>): Result<string, RenderError>
  {
    match SectionsHtml(env, ss)
    case Ok(hs) => Ok(Join(Wrap(hs), "\n"))
    case Err(e) => Err(e)
  }

  /* ---------- the imperative `render` ---------- */

  /** `render`: the sections in order, each wrapped in `<section>`. */
  method Render(env: Env, ss: seq<Section>) returns (r: Result<string, RenderError>)
    ensures r == RenderSpec(env, ss)
  {
    var htmlSections: seq<string> := [];
    for i := 0 to |ss|
      invariant SectionsHtml(env, ss[..i]) == Ok(htmlSections)
    {
      var h := RenderSection(env, ss[i]);
      if h.Err? {
        SectionsHtmlErr(env, ss, i);
        return Err(AssertionError);
      }
      SectionsHtmlStep(env, ss, i, htmlSections, h.value);
      htmlSections := htmlSections + [h.value];
    }
    assert ss[..|ss|] == ss;
    return Ok(Join(Wrap(htmlSections), "\n"));
  }

  lemma SectionsHtmlStep(env: Env, ss: seq<Section>, i: nat, hs: seq<string>, h: string)
    requires i < |ss| && SectionsHtml(env, ss[..i]) == Ok(hs) && SectionHtml(env, ss[i]) == Ok(h)
    ensures SectionsHtml(env, ss[..i + 1]) == Ok(hs + [h])
  {
    assert ss[..i + 1][..i] == ss[..i];
  }

  /** A section that fails makes the whole list fail. */
  lemma {:induction false} SectionsHtmlErr(env: Env, ss: seq<Section>, i: nat)
    requires i < |ss| && SectionHtml(env, ss[i]).Err?
    ensures SectionsHtml(env, ss) == Err(AssertionError)
  {
    if i < |ss| - 1 {
      assert ss[..|ss| - 1][i] == ss[i];
      SectionsHtmlErr(env, ss[..|ss| - 1], i);
    }
  }

  /** The body of the loop of `render` for one section. */
  method RenderSection(env: Env, s: Section) returns (r: Result<string, RenderError>)
    ensures r == SectionHtml(env, s)
  {
    var html: seq<string> := [];
    if s.title.Some? && s.title.value != "" {
      html := html + ["<h1>" + s.title.value + "</h1>"];
    }
    match s.block {
      case Text(t) =>
        if t.format == Html {
          html := html + [t.content];
        } else {
          html := html + [env.markdown(t.content)];
        }
      case Code(c) =>
        var code := RenderCodeLines(env, c);
        html := html + code;
      case Prints(p) =>
        html := html + [RenderPrint(env, p)];
      case Plot(_) =>
        return Err(AssertionError);
    }
    var cssClassName := CssClass(s.block);
    return Ok("<div class=\"" + cssClassName + "\">" + Join(html, "\n") + "</div>");
  }

  /** render.py:30-42: source lines gather in `code` until a print block
      interrupts them or the lines end; a gathered run is rendered as one
      piece of code, and an empty one not at all. */
  method RenderCodeLines(env: Env, c: CodeBlock) returns (html: seq<string>)
    ensures html == PiecesHtml(env, c.format, Group(c.lines))
  {
    html := [];
    var code: seq<string> := [];
    ghost var goal := PiecesHtml(env, c.format, Group(c.lines));
    for i := 0 to |c.lines|
      invariant html + PiecesHtml(env, c.format, GroupFrom(code, c.lines[i..])) == goal
    {
      var line := c.lines[i];
      assert c.lines[i..] == [line] + c.lines[i + 1..];
      match line {
        case Line(text) =>
          GroupFromLine(code, text, c.lines[i + 1..]);
          code := code + [text];
        case Output(b) =>
          OutputStep(env, c.format, html, code, b, c.lines[i + 1..], goal);
          ghost var done := html + (if code != [] then [RenderCode(env, c.format, Join(code, "\n"))] else []) + [RenderPrint(env, b)];
          if code != [] {
            html := html + [RenderCode(env, c.format, Join(code, "\n"))];
            code := [];
          }
          html := html + [RenderPrint(env, b)];
          assert html == done;
      }
    }
    assert c.lines[|c.lines|..] == [];
    if code != [] {
      assert PiecesHtml(env, c.format, [Run(code)]) == [RenderCode(env, c.format, Join(code, "\n"))];
      html := html + [RenderCode(env, c.format, Join(code, "\n"))];
    }
  }

  /** The invariant of `RenderCodeLines` across a print block. */
  lemma OutputStep(env: Env, format: string, html: seq<string>, code: seq<string>, b: PrintBlock, rest: seq<CodeLine>, goal: seq<string>)
    requires html + PiecesHtml(env, format, GroupFrom(code, [Output(b)] + rest)) == goal
    ensures html + (if code != [] then [RenderCode(env, format, Join(code, "\n"))] else []) + [RenderPrint(env, b)]
            + PiecesHtml(env, format, GroupFrom([], rest)) == goal
  {
    GroupFromOutput(env, format, code, b, rest);
    var pre := if code != [] then [RenderCode(env, format, Join(code, "\n"))] else [];
    var later := PiecesHtml(env, format, GroupFrom([], rest));
    Assoc(html, pre + [RenderPrint(env, b)], later);
    Assoc(html, pre, [RenderPrint(env, b)]);
  }

  lemma GroupFromLine(code: seq<string>, text: string, rest: seq<CodeLine>)
    ensures GroupFrom(code, [Line(text)] + rest) == GroupFrom(code + [text], rest)
  {
    assert ([Line(text)] + rest)[1..] == rest;
  }

  /** One print block of `RenderCodeLines`: the pending run, if any, then
      the print block, then whatever follows. */
  lemma GroupFromOutput(env: Env, format: string, code: seq<string>, b: PrintBlock, rest: seq<CodeLine>)
    ensures PiecesHtml(env, format, GroupFrom(code, [Output(b)] + rest))
         == (if code != [] then [RenderCode(env, format, Join(code, "\n"))] else [])
            + [RenderPrint(env, b)] + PiecesHtml(env, format, GroupFrom([], rest))
  {
    var ls := [Output(b)] + rest;
    assert ls[0] == Output(b) && ls[1..] == rest;
    var pre := if code != [] then [Run(code)] else [];
    assert GroupFrom(code, ls) == pre + [Out(b)] + GroupFrom([], rest);
    PiecesHtmlAppend(env, format, pre + [Out(b)], GroupFrom([], rest));
    PiecesHtmlAppend(env, format, pre, [Out(b)]);
    if code != [] {
      assert PiecesHtml(env, format, pre) == [RenderCode(env, format, Join(code, "\n"))];
    } else {
      assert PiecesHtml(env, format, pre) == [];
    }
    assert PiecesHtml(env, format, [Out(b)]) == [RenderPrint(env, b)];
  }

  lemma PiecesHtmlAppend(env: Env, format: string, a: seq<Piece>, b: seq<Piece>)
    ensures PiecesHtml(env, format, a + b) == PiecesHtml(env, format, a) + PiecesHtml(env, format, b)
  {
    MapSeqAppend((p: Piece) => PieceHtml(env, format, p), a, b);
  }

  /* ---------- properties of `render` ---------- */

  /** One section fails exactly when it holds a plot. */
  lemma SectionHtmlFails(env: Env, s: Section)
    ensures SectionHtml(env, s).Err? <==> s.block.Plot?
  {
  }

  /** Some section holds a plot. */
  predicate HasPlot(ss: seq<Section>)
  {
    exists i :: 0 <= i < |ss| && ss[i].block.Plot?
  }

  /** A plot is in the sections exactly when it is among all but the last
      or it is the last. */
  lemma HasPlotLast(ss: seq<Section>)
    requires ss != []
    ensures HasPlot(ss) <==> HasPlot(ss[..|ss| - 1]) || ss[|ss| - 1].block.Plot?
  {
    var init := ss[..|ss| - 1];
    if HasPlot(init) {
      var i :| 0 <= i < |init| && init[i].block.Plot?;
      assert ss[i] == init[i];
    }
    if HasPlot(ss) {
      var i :| 0 <= i < |ss| && ss[i].block.Plot?;
      if i < |init| {
        assert init[i] == ss[i];
      }
    }
  }

  lemma {:induction false} SectionsHtmlFails(env: Env, ss: seq<Section>)
    ensures SectionsHtml(env, ss).Err? <==> HasPlot(ss)
  {
    if ss != [] {
      SectionsHtmlFails(env, ss[..|ss| - 1]);
      SectionHtmlFails(env, ss[|ss| - 1]);
      HasPlotLast(ss);
    }
  }

  /** `render` fails exactly when some section holds a plot. */
  lemma RenderFailsOnPlot(env: Env, ss: seq<Section>)
    ensures RenderSpec(env, ss).Err? <==> exists i :: 0 <= i < |ss| && ss[i].block.Plot?
  {
    SectionsHtmlFails(env, ss);
  }

  /** No sections, no output. */
  lemma RenderNothing(env: Env)
    ensures RenderSpec(env, []) == Ok("")
  {
  }

  /** Adding a section adds a newline and that section, wrapped. */
  lemma RenderAppend(env: Env, ss: seq<Section>, s: Section, prev: string, h: string)
    requires ss != [] && RenderSpec(env, ss) == Ok(prev) && SectionHtml(env, s) == Ok(h)
    ensures RenderSpec(env, ss + [s]) == Ok(prev + "\n" + ("<section>" + h + "</section>"))
  {
    var hs := SectionsHtml(env, ss).value;
    assert (ss + [s])[..|ss + [s]| - 1] == ss;
    assert (ss + [s])[|ss|] == s;
    assert SectionsHtml(env, ss + [s]) == Ok(hs + [h]);
    assert Wrap(hs + [h]) == Wrap(hs) + ["<section>" + h + "</section>"];
    JoinAppend(Wrap(hs), "<section>" + h + "</section>", "\n");
  }

  lemma {:induction false} JoinAppend(parts: seq<string>, last: string, sep: string)
    requires parts != []
    ensures Join(parts + [last], sep) == Join(parts, sep) + sep + last
  {
    if |parts| > 1 {
      JoinAppend(parts[1..], last, sep);
      assert (parts + [last])[1..] == parts[1..] + [last];
    }
  }

  /** A titled section starts with its heading, inside the block's `div`. */
  lemma TitleFirst(env: Env, s: Section, title: string)
    requires s.title == Some(title) && title != "" && !s.block.Plot?
    ensures Parts(env, s).Ok? && Parts(env, s).value[0] == "<h1>" + title + "</h1>"
  {
  }

  /** An untitled HTML text block is its content, as it is, in a
      `text-block` div. */
  lemma HtmlVerbatim(env: Env, content: string)
    ensures SectionHtml(env, Section(Text(TextBlock(content, Html)))) == Ok("<div class=\"text-block\">" + content + "</div>")
  {
    var sec := Section(Text(TextBlock(content, Html)));
    assert Heading(sec) == [];
    assert Parts(env, sec).value == [] + [content] == [content];
    assert "<div class=\"" + "text-block" + "\">" == "<div class=\"text-block\">";
  }

  /** Two source lines, a print block and another line group into a run
      of two lines, the block, and a run of one. */
  lemma GroupRunsExample(a: string, b: string, p: PrintBlock, c: string)
    ensures Group([Line(a), Line(b), Output(p), Line(c)]) == [Run([a, b]), Out(p), Run([c])]
  {
    var lines := [Line(a), Line(b), Output(p), Line(c)];
    assert lines[1..] == [Line(b), Output(p), Line(c)];
    assert lines[2..] == [Output(p), Line(c)];
    assert lines[3..] == [Line(c)];
    assert [] + [a] == [a] && [a] + [b] == [a, b] && [] + [c] == [c];
    assert GroupFrom([], lines) == GroupFrom([a], lines[1..]);
    assert GroupFrom([a], lines[1..]) == GroupFrom([a, b], lines[2..]);
    assert GroupFrom([], lines[3..]) == GroupFrom([c], []) == [Run([c])];
    assert GroupFrom([a, b], lines[2..]) == [Run([a, b])] + [Out(p)] + [Run([c])];
  }

  lemma PiecesOfThree(env: Env, format: string, ps: seq<Piece>)
    requires |ps| == 3
    ensures PiecesHtml(env, format, ps) == [PieceHtml(env, format, ps[0]), PieceHtml(env, format, ps[1]), PieceHtml(env, format, ps[2])]
  {
  }

  /** Rendered, those pieces are the two lines highlighted together, then
      the prints, then the last line. */
  lemma CodeRunsExample(env: Env, a: string, b: string, p: PrintBlock, c: string)
    ensures Parts(env, Section(Code(CodeBlock([Line(a), Line(b), Output(p), Line(c)]))))
         == Ok([RenderCode(env, "py", a + "\n" + b), RenderPrint(env, p), RenderCode(env, "py", c)])
  {
    GroupRunsExample(a, b, p, c);
    var ps := [Run([a, b]), Out(p), Run([c])];
    assert Join([a, b], "\n") == a + "\n" + b;
    var got := PiecesHtml(env, "py", ps);
    PiecesOfThree(env, "py", ps);
    var want := [RenderCode(env, "py", a + "\n" + b), RenderPrint(env, p), RenderCode(env, "py", c)];
    assert PieceHtml(env, "py", ps[0]) == want[0];
    assert PieceHtml(env, "py", ps[2]) == want[2];
    var sec := Section(Code(CodeBlock([Line(a), Line(b), Output(p), Line(c)])));
    assert Parts(env, sec) == Ok(Heading(sec) + got);
    assert Heading(sec) == [];
    assert [] + want == want;
  }
}
