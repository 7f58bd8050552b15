/** What `MakeSections` (notbook/exec.py:67-168) makes of scripts built from
    markers, ordinary lines, triple-quote spans and events: one lemma per rule
    of the source, for every choice of titles, captions and lines.  The step
    lemmas say how the loop moves over one kind of input; the scenario lemmas
    compose them. */
module SectionScenarios {
  import opened Util
  import opened Models
  import opened Markers
  import opened Sections

  /* ---------- building inputs ---------- */

  /** An ordinary line: neither a block marker nor a quote opener. */
  predicate Plain(line: string)
  {
    !IsMarker(line) && !IsQuoteOpener(line)
  }

  predicate AllPlain(ls: seq<string>)
  {
    forall i :: 0 <= i < |ls| ==> Plain(ls[i])
  }

  /** No line holds the quotes `q`. */
  ghost predicate Unclosed(ls: seq<string>, q: Quote)
  {
    forall i, j :: 0 <= i < |ls| ==> !OccursAt(ls[i], q.Text(), j)
  }

  /** `items` holds the lines `ls` from position `pos` on. */
  predicate SrcsAt(items: seq<Item>, pos: nat, ls: seq<string>)
  {
    pos + |ls| <= |items| && forall i :: 0 <= i < |ls| ==> items[pos + i] == Src(ls[i])
  }

  /** The script starts with the open marker `open`, titled `title`. */
  predicate Opens(items: seq<Item>, open: string, title: string)
  {
    0 < |items| && items[0] == Src(open) && MatchOpen(open) == Some(title)
  }

  /** The script ends with the close marker `close` at `k`, captioned `caption`. */
  predicate ClosesAt(items: seq<Item>, k: nat, close: string, caption: string)
  {
    k + 1 == |items| && items[k] == Src(close) && MatchOpen(close).None? && MatchClose(close) == Some(caption)
  }

  /** At `pos` a quote span: the opening line `opener` with quotes `q` and the
      rest `rest`, lines `body` without the quotes, and a line `last`
      followed by the quotes. */
  ghost predicate QuoteAt(items: seq<Item>, pos: nat, opener: string, q: Quote, rest: string,
                          body: seq<string>, last: string)
  {
    pos < |items| && items[pos] == Src(opener) && MatchQuoteOpen(opener) == Some((q, rest))
    && SrcsAt(items, pos + 1, body + [last + q.Text()]) && Unclosed(body, q)
  }

  /* ---------- small facts ---------- */

  lemma AsLinesAppend(a: seq<string>, b: seq<string>)
    ensures AsLines(a + b) == AsLines(a) + AsLines(b)
  {
  }

  lemma AddLinesTwice(m: Maker, a: seq<string>, b: seq<string>)
    ensures AddLines(AddLines(m, a), b) == AddLines(m, a + b)
  {
    if m.code.Some? {
      AsLinesAppend(a, b);
      Assoc(m.code.value.lines, AsLines(a), AsLines(b));
    }
  }

  /* ---------- one kind of input at a time ---------- */

  /** A marker line moves the state as `section_divide` says. */
  lemma MarkerStep(items: seq<Item>, pos: nat, m: Maker)
    requires pos < |items| && items[pos].Src? && IsMarker(items[pos].text)
    ensures AssembleFrom(items, pos, m) == AssembleFrom(items, pos + 1, Divide(m, items[pos].text).value)
  {
  }

  /** A close marker with no block open is consumed and changes nothing. */
  lemma CloseNothingOpen(items: seq<Item>, pos: nat, m: Maker)
    requires pos < |items| && items[pos].Src?
    requires MatchOpen(items[pos].text).None? && MatchClose(items[pos].text).Some?
    requires m.code.None?
    ensures AssembleFrom(items, pos, m) == AssembleFrom(items, pos + 1, m)
  {
    MarkerStep(items, pos, m);
  }

  lemma AtEnd(items: seq<Item>, pos: nat, m: Maker)
    requires pos == |items|
    ensures AssembleFrom(items, pos, m) == Ok(Flush(m, None).sections)
  {
  }

  lemma QuoteIsNoMarker(line: string)
    requires IsQuoteOpener(line)
    ensures !IsMarker(line)
  {
    if IsMarker(line) {
      MarkerIsNoQuote(line);
    }
  }

  /** An ordinary line goes to the open block, or nowhere. */
  lemma PlainStep(items: seq<Item>, pos: nat, m: Maker)
    requires pos < |items| && items[pos].Src? && Plain(items[pos].text)
    ensures AssembleFrom(items, pos, m) == AssembleFrom(items, pos + 1, AddLines(m, [items[pos].text]))
  {
  }

  lemma AddNoLines(m: Maker)
    ensures AddLines(m, []) == m
  {
    if m.code.Some? {
      assert m.code.value.lines + AsLines([]) == m.code.value.lines;
    }
  }

  /** Ordinary lines go to the open block, or nowhere. */
  lemma {:induction false} PlainRun(items: seq<Item>, pos: nat, m: Maker, ls: seq<string>)
    requires SrcsAt(items, pos, ls) && AllPlain(ls)
    ensures AssembleFrom(items, pos, m) == AssembleFrom(items, pos + |ls|, AddLines(m, ls))
    decreases |ls|
  {
    if ls == [] {
      AddNoLines(m);
    } else {
      SrcsAtTail(items, pos, ls);
      assert Plain(ls[0]);
      PlainStep(items, pos, m);
      assert AllPlain(ls[1..]);
      PlainRun(items, pos + 1, AddLines(m, [ls[0]]), ls[1..]);
      AddLinesTwice(m, [ls[0]], ls[1..]);
      assert [ls[0]] + ls[1..] == ls;
    }
  }

  /** The first of the lines and the rest. */
  lemma SrcsAtTail(items: seq<Item>, pos: nat, ls: seq<string>)
    requires SrcsAt(items, pos, ls) && ls != []
    ensures items[pos] == Src(ls[0]) && SrcsAt(items, pos + 1, ls[1..])
  {
    assert items[pos + 0] == Src(ls[0]);
    forall i | 0 <= i < |ls[1..]|
      ensures items[pos + 1 + i] == Src(ls[1..][i])
    {
      assert items[pos + (i + 1)] == Src(ls[i + 1]);
    }
  }

  lemma UnclosedTail(ls: seq<string>, q: Quote)
    requires Unclosed(ls, q) && ls != []
    ensures MatchClosing(ls[0], q) == None && Unclosed(ls[1..], q)
  {
    MatchClosingLast(ls[0], q);
    assert forall j :: !OccursAt(ls[0], q.Text(), j);
    forall i, j | 0 <= i < |ls[1..]|
      ensures !OccursAt(ls[1..][i], q.Text(), j)
    {
      assert ls[1..][i] == ls[i + 1];
    }
  }

  /** The scan takes lines without the quotes whole. */
  lemma {:induction false} ScanUnclosed(items: seq<Item>, pos: nat, q: Quote, tagged: bool, body: seq<string>)
    requires SrcsAt(items, pos, body) && Unclosed(body, q)
    ensures ScanQuote(items, pos, q, tagged) == Extend(body, ScanQuote(items, pos + |body|, q, tagged))
    decreases |body|
  {
    var e := ScanQuote(items, pos + |body|, q, tagged);
    if body != [] {
      var line, tail := body[0], body[1..];
      SrcsAtTail(items, pos, body);
      UnclosedTail(body, q);
      ScanContinues(items, pos, q, tagged);
      assert pos + 1 + |tail| == pos + |body|;
      ScanUnclosed(items, pos + 1, q, tagged, tail);
      ExtendTwice([line], tail, e);
      assert [line] + tail == body;
    } else if e.Closed? {
      assert [] + e.body == e.body;
    }
  }

  /** A whole span: opening line, lines without the quotes, and a line that
      ends with them. */
  lemma QuoteSpan(items: seq<Item>, pos: nat, q: Quote, tagged: bool, body: seq<string>, last: string)
    requires SrcsAt(items, pos, body + [last + q.Text()]) && Unclosed(body, q)
    ensures ScanQuote(items, pos, q, tagged)
         == Closed(body + [if tagged then last else last + q.Text()], pos + |body| + 1)
  {
    assert SrcsAt(items, pos, body) by {
      forall i | 0 <= i < |body|
        ensures items[pos + i] == Src(body[i])
      {
        assert (body + [last + q.Text()])[i] == body[i];
      }
    }
    ScanUnclosed(items, pos, q, tagged, body);
    assert items[pos + |body|] == Src(last + q.Text()) by {
      assert (body + [last + q.Text()])[|body|] == last + q.Text();
    }
    ClosingAtEnd(last, q);
  }

  /** A quote span, from its opening line to the first line that ends with
      the quotes: a documentation quote keeps the text before them, a plain
      quote the whole line. */
  lemma QuoteStep(items: seq<Item>, pos: nat, m: Maker, opener: string, q: Quote, rest: string,
                  body: seq<string>, last: string)
    requires QuoteAt(items, pos, opener, q, rest, body, last)
    ensures var tag := MatchTag(rest);
      AssembleFrom(items, pos, m)
      == AssembleFrom(items, pos + |body| + 2,
                      AfterQuote(m, tag, QuoteHead(opener, tag) + (body + [if tag.Some? then last else last + q.Text()])))
  {
    var tag := MatchTag(rest);
    QuoteIsNoMarker(opener);
    QuoteSpan(items, pos + 1, q, tag.Some?, body, last);
    ClosedQuoteStep(items, pos, m, opener, q, rest,
                    body + [if tag.Some? then last else last + q.Text()], pos + |body| + 2);
  }

  /** The loop body at a quote opener whose span closes. */
  lemma ClosedQuoteStep(items: seq<Item>, pos: nat, m: Maker, opener: string, q: Quote, rest: string,
                        lines: seq<string>, next: nat)
    requires pos < |items| && items[pos] == Src(opener) && Divide(m, opener).None?
    requires MatchQuoteOpen(opener) == Some((q, rest))
    requires ScanQuote(items, pos + 1, q, MatchTag(rest).Some?) == Closed(lines, next)
    ensures AssembleFrom(items, pos, m)
         == AssembleFrom(items, next, AfterQuote(m, MatchTag(rest), QuoteHead(opener, MatchTag(rest)) + lines))
  {
  }

  /** A quote whose closing line never comes ends the loop with the final
      flush; its lines are lost. */
  lemma UnclosedQuoteStep(items: seq<Item>, pos: nat, m: Maker, opener: string, q: Quote, rest: string,
                          body: seq<string>)
    requires pos < |items| && items[pos] == Src(opener) && MatchQuoteOpen(opener) == Some((q, rest))
    requires SrcsAt(items, pos + 1, body) && pos + 1 + |body| == |items| && Unclosed(body, q)
    ensures AssembleFrom(items, pos, m) == Ok(Flush(m, None).sections)
  {
    QuoteIsNoMarker(opener);
    ScanUnclosed(items, pos + 1, q, MatchTag(rest).Some?, body);
  }

  /** An event where the scan expects a line is handed to `re.match`, which
      raises `TypeError`. */
  lemma EventInQuote(items: seq<Item>, pos: nat, m: Maker, opener: string, q: Quote, rest: string,
                         body: seq<string>)
    requires pos < |items| && items[pos] == Src(opener) && MatchQuoteOpen(opener) == Some((q, rest))
    requires SrcsAt(items, pos + 1, body) && pos + 1 + |body| < |items| && Unclosed(body, q)
    requires !items[pos + 1 + |body|].Src?
    ensures AssembleFrom(items, pos, m) == Err(TypeError)
  {
    QuoteIsNoMarker(opener);
    ScanUnclosed(items, pos + 1, q, MatchTag(rest).Some?, body);
  }

  /* ---------- whole scripts ----------

     Each lemma below is about every merged list laid out as it says: which
     element is at which position, and what the lines between them are. */

  /** Ordinary lines with no block open are dropped: a script without
      markers, quotes or events yields no section. */
  lemma LinesOutsideBlocksDropped(items: seq<Item>, ls: seq<string>)
    requires |items| == |ls| && SrcsAt(items, 0, ls) && AllPlain(ls)
    ensures Assemble(items) == Ok([])
  {
    PlainRun(items, 0, Start, ls);
    AtEnd(items, |ls|, Start);
  }

  /** A script that starts with an open marker begins with that block open. */
  lemma Opened(items: seq<Item>, open: string, title: string)
    requires Opens(items, open, title)
    ensures Assemble(items) == AssembleFrom(items, 1, OpenBlock(Start, title))
  {
    MarkerStep(items, 0, Start);
    assert Divide(Start, open) == Some(OpenBlock(Start, title));
  }

  /** A script between an open marker and a closing one, its last line: the
      state reached before the close is flushed with the caption. */
  lemma Enclosed(items: seq<Item>, open: string, title: string, close: string, caption: string,
                 k: nat, mid: Maker)
    requires Opens(items, open, title) && 1 <= k && ClosesAt(items, k, close, caption)
    requires AssembleFrom(items, 1, OpenBlock(Start, title)) == AssembleFrom(items, k, mid)
    ensures Assemble(items) == Ok(Flush(mid, NameOf(caption)).sections)
  {
    Opened(items, open, title);
    var after := Flush(mid, NameOf(caption));
    MarkerStep(items, k, mid);
    assert Divide(mid, close) == Some(after);
    AtEnd(items, k + 1, after);
  }

  /** `# { title`, ordinary lines, `# } caption`: one code section holding
      the lines, with the title and the caption, each `None` when empty. */
  lemma TitledBlock(items: seq<Item>, open: string, title: string, ls: seq<string>, close: string, caption: string)
    requires Opens(items, open, title) && SrcsAt(items, 1, ls) && AllPlain(ls) && ClosesAt(items, 1 + |ls|, close, caption)
    ensures Assemble(items) == Ok([Section(Code(CodeBlock(AsLines(ls))), NameOf(title), NameOf(caption))])
  {
    var m1 := OpenBlock(Start, title);
    PlainRun(items, 1, m1, ls);
    var m2 := AddLines(m1, ls);
    assert [] + AsLines(ls) == AsLines(ls);
    assert m2 == Maker([], NameOf(title), Some(CodeBlock(AsLines(ls))));
    Enclosed(items, open, title, close, caption, 1 + |ls|, m2);
    var x := Section(Code(CodeBlock(AsLines(ls))), NameOf(title), NameOf(caption));
    assert Flush(m2, NameOf(caption)).sections == [] + [x] == [x];
  }

  /** A block still open at the end of the script is flushed without a caption. */
  lemma UnclosedBlockFlushed(items: seq<Item>, open: string, title: string, ls: seq<string>)
    requires Opens(items, open, title) && SrcsAt(items, 1, ls) && AllPlain(ls) && |items| == |ls| + 1
    ensures Assemble(items) == Ok([Section(Code(CodeBlock(AsLines(ls))), NameOf(title), None)])
  {
    Opened(items, open, title);
    var m1 := OpenBlock(Start, title);
    PlainRun(items, 1, m1, ls);
    var m2 := AddLines(m1, ls);
    assert [] + AsLines(ls) == AsLines(ls);
    assert m2 == Maker([], NameOf(title), Some(CodeBlock(AsLines(ls))));
    AtEnd(items, 1 + |ls|, m2);
    var x := Section(Code(CodeBlock(AsLines(ls))), NameOf(title), None);
    assert Flush(m2, None).sections == [] + [x] == [x];
  }

  /** The lines of a documentation quote: the rest of the opening line after
      the tag if it is not empty, the lines in between, and the closing line
      up to the quotes. */
  function DocLines(tail: string, body: seq<string>, last: string): seq<string>
  {
    (if tail == [] then [] else [tail]) + (body + [last])
  }

  /** A documentation quote outside any block is a text section of its lines
      joined by newlines. */
  lemma DocQuote(items: seq<Item>, opener: string, q: Quote, rest: string, f: TextFormat, tail: string,
                 body: seq<string>, last: string)
    requires QuoteAt(items, 0, opener, q, rest, body, last) && |items| == |body| + 2 && MatchTag(rest) == Some((f, tail))
    ensures Assemble(items) == Ok([Section(Text(TextBlock(Join(DocLines(tail, body, last), "\n"), f)))])
  {
    QuoteStep(items, 0, Start, opener, q, rest, body, last);
    assert QuoteHead(opener, Some((f, tail))) + (body + [last]) == DocLines(tail, body, last);
    var x := Section(Text(TextBlock(Join(DocLines(tail, body, last), "\n"), f)));
    var m1 := AfterQuote(Start, Some((f, tail)), DocLines(tail, body, last));
    assert m1 == Maker([] + [x], None, None);
    assert [] + [x] == [x];
    AtEnd(items, |body| + 2, m1);
  }

  /** A quote span right after an open marker, followed by a close marker. */
  lemma QuoteEnclosed(items: seq<Item>, open: string, title: string, opener: string, q: Quote, rest: string,
                      body: seq<string>, last: string, close: string, caption: string)
    requires Opens(items, open, title) && QuoteAt(items, 1, opener, q, rest, body, last)
    requires ClosesAt(items, |body| + 3, close, caption)
    ensures var tag := MatchTag(rest);
      var span := QuoteHead(opener, tag) + (body + [if tag.Some? then last else last + q.Text()]);
      Assemble(items) == Ok(Flush(AfterQuote(OpenBlock(Start, title), tag, span), NameOf(caption)).sections)
  {
    QuoteStep(items, 1, OpenBlock(Start, title), opener, q, rest, body, last);
    var tag := MatchTag(rest);
    var span := QuoteHead(opener, tag) + (body + [if tag.Some? then last else last + q.Text()]);
    Enclosed(items, open, title, close, caption, |body| + 3, AfterQuote(OpenBlock(Start, title), tag, span));
  }

  /** Inside a block a documentation quote flushes the block, becomes a text
      section, and an anonymous empty block is opened in its place. */
  lemma DocQuoteInBlock(items: seq<Item>, open: string, title: string, opener: string, q: Quote, rest: string,
                        f: TextFormat, tail: string, body: seq<string>, last: string, close: string, caption: string)
    requires Opens(items, open, title) && QuoteAt(items, 1, opener, q, rest, body, last)
    requires ClosesAt(items, |body| + 3, close, caption) && MatchTag(rest) == Some((f, tail))
    ensures Assemble(items)
         == Ok([Section(Code(CodeBlock([])), NameOf(title)),
                Section(Text(TextBlock(Join(DocLines(tail, body, last), "\n"), f))),
                Section(Code(CodeBlock([])), None, NameOf(caption))])
  {
    QuoteEnclosed(items, open, title, opener, q, rest, body, last, close, caption);
    DocInBlockSections(title, opener, f, tail, body, last, caption);
  }

  lemma DocInBlockSections(title: string, opener: string, f: TextFormat, tail: string, body: seq<string>,
                           last: string, caption: string)
    ensures Flush(AfterQuote(OpenBlock(Start, title), Some((f, tail)), QuoteHead(opener, Some((f, tail))) + (body + [last])),
                  NameOf(caption)).sections
         == [Section(Code(CodeBlock([])), NameOf(title)),
             Section(Text(TextBlock(Join(DocLines(tail, body, last), "\n"), f))),
             Section(Code(CodeBlock([])), None, NameOf(caption))]
  {
    var m1 := OpenBlock(Start, title);
    var m2 := AfterQuote(m1, Some((f, tail)), DocLines(tail, body, last));
    assert QuoteHead(opener, Some((f, tail))) + (body + [last]) == DocLines(tail, body, last);
    var a := Section(Code(CodeBlock([])), NameOf(title));
    var b := Section(Text(TextBlock(Join(DocLines(tail, body, last), "\n"), f)));
    var c := Section(Code(CodeBlock([])), None, NameOf(caption));
    assert m2 == Maker([a, b], None, Some(CodeBlock([])));
    assert Flush(m2, NameOf(caption)).sections == [a, b] + [c] == [a, b, c];
  }

  /** Inside a block every line of a plain quote, from the opening line to the
      closing one, is kept verbatim; the lines in between are not examined,
      so a line shaped like a marker becomes code there. */
  lemma PlainQuoteInBlock(items: seq<Item>, open: string, title: string, opener: string, q: Quote, rest: string,
                          body: seq<string>, last: string, close: string, caption: string)
    requires Opens(items, open, title) && QuoteAt(items, 1, opener, q, rest, body, last)
    requires ClosesAt(items, |body| + 3, close, caption) && MatchTag(rest).None?
    ensures Assemble(items)
         == Ok([Section(Code(CodeBlock(AsLines([opener] + (body + [last + q.Text()])))), NameOf(title), NameOf(caption))])
  {
    QuoteEnclosed(items, open, title, opener, q, rest, body, last, close, caption);
    var span := [opener] + (body + [last + q.Text()]);
    assert QuoteHead(opener, None) + (body + [last + q.Text()]) == span;
    var m2 := AddLines(OpenBlock(Start, title), span);
    assert AfterQuote(OpenBlock(Start, title), None, span) == m2;
    assert [] + AsLines(span) == AsLines(span);
    assert m2 == Maker([], NameOf(title), Some(CodeBlock(AsLines(span))));
    var x := Section(Code(CodeBlock(AsLines(span))), NameOf(title), NameOf(caption));
    assert Flush(m2, NameOf(caption)).sections == [] + [x] == [x];
  }

  /** A quote left open at the end of the script is dropped with its lines;
      the open block is flushed as at the end of any script. */
  lemma UnterminatedQuote(items: seq<Item>, open: string, title: string, ls: seq<string>, opener: string,
                          q: Quote, rest: string, body: seq<string>)
    requires |items| == |ls| + |body| + 2 && Opens(items, open, title) && SrcsAt(items, 1, ls) && AllPlain(ls)
    requires items[1 + |ls|] == Src(opener) && MatchQuoteOpen(opener) == Some((q, rest))
    requires SrcsAt(items, |ls| + 2, body) && Unclosed(body, q)
    ensures Assemble(items) == Ok([Section(Code(CodeBlock(AsLines(ls))), NameOf(title), None)])
  {
    Opened(items, open, title);
    var m1 := OpenBlock(Start, title);
    PlainRun(items, 1, m1, ls);
    var m2 := AddLines(m1, ls);
    assert [] + AsLines(ls) == AsLines(ls);
    assert m2 == Maker([], NameOf(title), Some(CodeBlock(AsLines(ls))));
    UnclosedQuoteStep(items, 1 + |ls|, m2, opener, q, rest, body);
    var x := Section(Code(CodeBlock(AsLines(ls))), NameOf(title), None);
    assert Flush(m2, None).sections == [] + [x] == [x];
  }

  /** A plot while a block is open raises `NotImplementedError`. */
  lemma PlotInBlock(items: seq<Item>, open: string, title: string, ls: seq<string>, plot: PlotBlock)
    requires Opens(items, open, title) && SrcsAt(items, 1, ls) && AllPlain(ls)
    requires |ls| + 1 < |items| && items[1 + |ls|] == PlotItem(plot)
    ensures Assemble(items) == Err(NotImplemented)
  {
    Opened(items, open, title);
    var m1 := OpenBlock(Start, title);
    PlainRun(items, 1, m1, ls);
    var m2 := AddLines(m1, ls);
    assert AddPlot(m2, plot) == Err(NotImplemented);
  }

  /** Consecutive prints outside blocks share one print section; a plot
      separates them. */
  lemma PrintsCoalesce(items: seq<Item>, p1: PrintStatement, p2: PrintStatement, plot: PlotBlock, p3: PrintStatement)
    requires |items| == 4 && items[0] == PrintItem(p1) && items[1] == PrintItem(p2)
    requires items[2] == PlotItem(plot) && items[3] == PrintItem(p3)
    ensures Assemble(items)
         == Ok([Section(Prints(PrintBlock([p1, p2]))), Section(Plot(plot)), Section(Prints(PrintBlock([p3])))])
  {
    var m2 := AddPrint(AddPrint(Start, p1), p2);
    PrintStep(items, 0, Start, p1);
    PrintStep(items, 1, AddPrint(Start, p1), p2);
    PrintsCoalesceSections(p1, p2, plot, p3);
    PlotStep(items, 2, m2, plot);
    var m3 := AddPlot(m2, plot).value;
    PrintStep(items, 3, m3, p3);
    AtEnd(items, 4, AddPrint(m3, p3));
  }

  lemma PrintsCoalesceSections(p1: PrintStatement, p2: PrintStatement, plot: PlotBlock, p3: PrintStatement)
    ensures var m2 := AddPrint(AddPrint(Start, p1), p2);
      AddPlot(m2, plot).Ok?
      && Flush(AddPrint(AddPlot(m2, plot).value, p3), None).sections
         == [Section(Prints(PrintBlock([p1, p2]))), Section(Plot(plot)), Section(Prints(PrintBlock([p3])))]
  {
    var a := Section(Prints(PrintBlock([p1, p2])));
    var b := Section(Plot(plot));
    var c := Section(Prints(PrintBlock([p3])));
    PrintOpens([], p1);
    PrintJoins(p1, p2);
    var m2 := Maker([a], None, None);
    var m3 := Maker([a, b], None, None);
    assert [a] + [b] == [a, b];
    assert AddPlot(m2, plot) == Ok(m3);
    PrintOpens([a, b], p3);
    assert [a, b] + [c] == [a, b, c];
  }

  /** A print after anything but a print section starts a section of its own. */
  lemma PrintOpens(ss: seq<Section>, p: PrintStatement)
    requires ss == [] || !ss[|ss| - 1].block.Prints?
    ensures AddPrint(Maker(ss, None, None), p) == Maker(ss + [Section(Prints(PrintBlock([p])))], None, None)
  {
  }

  /** A print after a lone print section joins it. */
  lemma PrintJoins(p1: PrintStatement, p2: PrintStatement)
    ensures AddPrint(Maker([Section(Prints(PrintBlock([p1])))], None, None), p2)
         == Maker([Section(Prints(PrintBlock([p1, p2])))], None, None)
  {
    assert [p1] + [p2] == [p1, p2];
  }

  /** A plot outside any block moves the state as `plot_block` says. */
  lemma PlotStep(items: seq<Item>, pos: nat, m: Maker, plot: PlotBlock)
    requires pos < |items| && items[pos] == PlotItem(plot) && m.code.None?
    ensures AssembleFrom(items, pos, m) == AssembleFrom(items, pos + 1, AddPlot(m, plot).value)
  {
  }

  /** Inside a block, prints join the block's trailing print block; a line of
      code separates them. */
  lemma PrintsInBlock(items: seq<Item>, open: string, title: string, p1: PrintStatement, p2: PrintStatement,
                      line: string, p3: PrintStatement)
    requires Opens(items, open, title) && |items| == 5 && items[1] == PrintItem(p1) && items[2] == PrintItem(p2)
    requires items[3] == Src(line) && Plain(line) && items[4] == PrintItem(p3)
    ensures Assemble(items)
         == Ok([Section(Code(CodeBlock([Output(PrintBlock([p1, p2])), Line(line), Output(PrintBlock([p3]))])),
                        NameOf(title))])
  {
    Opened(items, open, title);
    var m1 := OpenBlock(Start, title);
    PrintsJoinInBlock(items, 1, m1, p1, p2);
    var m3 := m1.(code := Some(CodeBlock([] + [Output(PrintBlock([p1, p2]))])));
    PlainStep(items, 3, m3);
    var m4 := AddLines(m3, [line]);
    PrintStep(items, 4, m4, p3);
    AtEnd(items, 5, AddPrint(m4, p3));
    PrintsInBlockSections(title, p1, p2, line, p3);
  }

  lemma PrintsInBlockSections(title: string, p1: PrintStatement, p2: PrintStatement, line: string, p3: PrintStatement)
    ensures var m3 := OpenBlock(Start, title).(code := Some(CodeBlock([] + [Output(PrintBlock([p1, p2]))])));
      Flush(AddPrint(AddLines(m3, [line]), p3), None).sections
      == [Section(Code(CodeBlock([Output(PrintBlock([p1, p2])), Line(line), Output(PrintBlock([p3]))])), NameOf(title))]
  {
    var c3 := [Output(PrintBlock([p1, p2]))];
    assert [] + c3 == c3;
    var m3 := Maker([], NameOf(title), Some(CodeBlock(c3)));
    var c4 := c3 + [Line(line)];
    var m4 := Maker([], NameOf(title), Some(CodeBlock(c4)));
    assert AsLines([line]) == [Line(line)];
    assert AddLines(m3, [line]) == m4;
    var c5 := c4 + [Output(PrintBlock([p3]))];
    var m5 := Maker([], NameOf(title), Some(CodeBlock(c5)));
    assert AddPrint(m4, p3) == m5;
    var x := Section(Code(CodeBlock(c5)), NameOf(title));
    assert c5 == [Output(PrintBlock([p1, p2])), Line(line), Output(PrintBlock([p3]))];
    assert Flush(m5, None).sections == [] + [x] == [x];
  }

  /** Two prints in a row inside a block whose code does not end with
      output: they form one new print block. */
  lemma PrintsJoinInBlock(items: seq<Item>, pos: nat, m: Maker, p1: PrintStatement, p2: PrintStatement)
    requires pos + 1 < |items| && items[pos] == PrintItem(p1) && items[pos + 1] == PrintItem(p2)
    requires m.code.Some? && (m.code.value.lines == [] || !m.code.value.lines[|m.code.value.lines| - 1].Output?)
    ensures var c := m.code.value;
      AssembleFrom(items, pos, m)
      == AssembleFrom(items, pos + 2, m.(code := Some(c.(lines := c.lines + [Output(PrintBlock([p1, p2]))]))))
  {
    var c := m.code.value;
    PrintStep(items, pos, m, p1);
    var ls := c.lines + [Output(PrintBlock([p1]))];
    var m1 := m.(code := Some(c.(lines := ls)));
    assert AddPrint(m, p1) == m1;
    PrintStep(items, pos + 1, m1, p2);
    assert PrintIntoLines(ls, p2) == c.lines + [Output(PrintBlock([p1, p2]))] by {
      assert ls[..|ls| - 1] == c.lines;
      assert [p1] + [p2] == [p1, p2];
    }
  }

  /** A print statement moves the state as `print_statement` says. */
  lemma PrintStep(items: seq<Item>, pos: nat, m: Maker, p: PrintStatement)
    requires pos < |items| && items[pos] == PrintItem(p)
    ensures AssembleFrom(items, pos, m) == AssembleFrom(items, pos + 1, AddPrint(m, p))
  {
  }
}
