# notbook document assembly, modelled in Dafny

notbook turns a Python script into an HTML page. It runs the script once with
`print` replaced by a recorder (`MockPrint`). Plots are collected in a
module-global buffer (`notbook/context.py`). Each recorded event carries the
script line it came from. `exec_file` then merges the events back into the
script's lines, in line order, and recovers each print's indent.
`MakeSections` walks the merged list with one shared iterator and groups it
into sections:

- `# { title` … `# } caption` blocks of code;
- `"""md` / `"""html` documentation quotes, which become text sections;
- coalesced print output;
- plots.

`render` and the helpers in `render_tools.py` turn the sections into HTML
and slugs.

The model follows the source file by file:

| file | module | form |
|---|---|---|
| `notbook/models.py` | `Models` (`models.dfy`) | datatypes; dataclass defaults become default constructor arguments |
| `notbook/context.py` | `Context` (`context.dfy`) | a class `ExecContext` holding the global `_exec_context`, and a class `PyList` for the Python list it points to, so that `get()` returns the same list `append` grows |
| `notbook/exec.py`, capture | `Capture` (`capture.dfy`) | `parse_print_value` as a function; `MockPrint` as a class whose `Call` appends to `statements` |
| `notbook/exec.py:37-51`, merge | `Merge` (`merge.dfy`) | the insertion loop and the indent scan as methods with loop invariants, twice: as written (`MergeAsWritten`, proved against `MergedAsWritten`, with Python's wrapping index and clamping `list.insert`), and corrected (`Merge`, proved against `Merged`, a layout function: each script line, directly followed by the events of that line in the order of the recorded list, `mp.statements + context.get()`: prints in call order, then plots); the two are related by `AsWrittenReverses` |
| `notbook/exec.py:67-168` | `Sections` (`sections.dfy`) and `MakeSections` (`make_sections.dfy`) | the state machine: `Sections` is a pure reference definition (`Assemble`); `MakeSections.SectionMaker` is the class with `sections` / `current_name` / `current_code` fields and an iterator position, proved equal to it |
| `notbook/exec.py:67-168`, properties | `SectionProps` (`sections_props.dfy`), `SectionShape` (`sections_shape.dfy`), `SectionScenarios` (`sections_scenarios.dfy`) | what the state machine guarantees: no event lost, duplicated or reordered; coalesced print blocks; no marker line in code; and the behaviour of each kind of line |
| `notbook/exec.py:24-53` | `Exec` (`exec.dfy`) | `exec_file` with the script's run given as a sequence of actions: `ExecFile` uses the merge as written, `ExecFileCorrected` the corrected merge |
| `notbook/exec.py:56-64` | `Simplify` (`simplify.dfy`) | `simplify` on each record type, with an inverse that reads it back |
| `notbook/render.py` | `Render` (`render.dfy`) | `render` as a method with loops, proved against `RenderSpec`; the code-run grouping proved unique |
| `notbook/render_tools.py` | `RenderTools` (`render_tools.dfy`) | `slugify`, `header`, `list` and `triple_emphasis` as functions over strings; the two list regexes as scanners |

Regular expressions become functions on strings. Each comes with a
soundness lemma and a completeness lemma.

Where the written description of the program and its code disagree, the
model follows the code:

- A string is tried as JSON only if it is longer than ten characters. So
  `'{"a": 1}'` (8 characters) stays `'str'`. See `Capture.SmallObjectIsStr`.
- A quote still open at the end of the input is not an error. `next()`
  raises `StopIteration`, which the loop of `__init__` swallows. The quote's
  lines are lost and the open block is flushed. See
  `SectionScenarios.UnterminatedQuote`.
- The documentation tag must literally start with `md` or `html`, so
  `"""markdown` is a plain quote. See `Markers.MarkdownIsNoTag`.
- Inside a plain (untagged) quote, lines are not examined for markers. So a
  marker-shaped line can end up in a code block. See
  `SectionScenarios.PlainQuoteInBlock`; `SectionShape.AssembleShape` proves
  marker-freedom only for scripts without plain quotes (documentation
  quotes are allowed).

## Model

| member | source | states |
|---|---|---|
| Models.ArgFormat.Name | notbook/models.py:8 | `PrintArg.format` is one of 'py', 'json', 'str' |
| Models.TextFormat.Name | notbook/models.py:26 | `TextBlock.format` is one of 'md', 'html' |
| Util.Split | notbook/exec.py:37 | `split('\n')` yields at least one piece and no piece holds the separator |
| Util.JoinSplit | notbook/exec.py:37 | joining the pieces of a split with the separator gives the text back |
| Util.SplitJoin | notbook/exec.py:37 | splitting parts joined by a separator none of them holds gives the parts back |
| Util.IntToStringRoundTrip | notbook/exec.py:214 | `int(str(n)) == n` for every integer |
| Context.PyList.Add | notbook/context.py:19 | `list.append` adds the object at the end and keeps the earlier items |
| Context.ExecContext.constructor | notbook/context.py:1 | before `activate`, nothing is active and `get()` is `None` |
| Context.ExecContext.Activate | notbook/context.py:4-6 | `activate` installs a fresh empty list, discarding anything collected |
| Context.ExecContext.Append | notbook/context.py:17-19 | without activation the assertion fails; otherwise the object is added at the end of the active list, which stays the one `get()` returns |
| Context.CollectTwo | notbook/context.py:4-19 | an append before `activate` fails; after it, `get()` shows exactly the objects appended, in order |
| Capture.ObjectShapedMeans | notbook/exec.py:204 | `{".+}` with DOTALL fully matches exactly `{"`, at least one character, `}` |
| Capture.ArrayShapedMeans | notbook/exec.py:204 | `\[.+\]` with DOTALL fully matches exactly `[`, at least one character, `]` |
| Capture.ParsePrintValue | notbook/exec.py:194-214 | the format is 'py' iff the value is not a str, int or float; it is 'json' iff the value is a string longer than 10 characters of one of the two shapes that `json.loads` accepts |
| Capture.ShortStringIsStr | notbook/exec.py:201-203 | a string of at most 10 characters is printed as 'str', unchanged |
| Capture.SmallObjectIsStr | notbook/exec.py:201-203 | `'{"a": 1}'` stays 'str' |
| Capture.QuotedStringIsStr | notbook/exec.py:204 | a long JSON string literal is not one of the shapes tried, so it stays 'str' |
| Capture.UnparsableIsStr | notbook/exec.py:206-210 | a JSON-shaped string that does not parse falls back to 'str', unchanged |
| Capture.JsonContentReparses | notbook/exec.py:207-212 | given that `loads` inverts `dumps`, a 'json' argument's content reads back as the same value as the printed string |
| Capture.IntContentReparses | notbook/exec.py:214 | an integer is printed as 'str' whose text reads back as the integer |
| Capture.ParseArgs | notbook/exec.py:190 | one classified argument per value, in order |
| Capture.MockPrint.constructor | notbook/exec.py:175-177 | a new recorder has no statements |
| Capture.MockPrint.Call | notbook/exec.py:179-191 | with `file=` nothing is recorded; from another file it raises; otherwise exactly one statement with the classified args and the caller's line is appended |
| Capture.CaptureScript | notbook/exec.py:179-191 | three calls, the middle one with `file=`: the other two are recorded, in call order, with indent 0 |
| Merge.AtReverse | notbook/exec.py:39-51 | taking one line's events commutes with reversing the event list |
| Merge.SortDesc | notbook/exec.py:39 | `sorted(..., reverse=True)` by line: descending, and a permutation of its input |
| Merge.SortDescStable | notbook/exec.py:39 | the sort is stable: the events of each line keep their relative order |
| Merge.PrintCallIndentSound | notbook/exec.py:44-46 | a line matched by `^( *)print\(` is that many spaces followed by `print(` |
| Merge.PrintCallIndentComplete | notbook/exec.py:44-46 | every line of spaces followed by `print(` matches, with that indent |
| Merge.NearestPrintLine | notbook/exec.py:43-47 | the scan finds the nearest print line among the 99 lines up to `line_no - 1`, and none if there is none |
| Merge.RecoverIndentPrefix | notbook/exec.py:43-47 | the recovered indent depends only on the lines before `line_no` |
| Merge.FindIndent | notbook/exec.py:43-47 | the scan loop returns the nearest print line's indent, with the index kept non-negative |
| Merge.ScanAsWrittenAgrees | notbook/exec.py:43-47 | where the bounded scan finds a print line among source lines, the scan as written finds the same one |
| Merge.ScanWrapsToIndexError | notbook/exec.py:43-47 | the scan as written wraps a negative index and raises `IndexError` on a two-line script |
| Merge.InsertIntoLayout | notbook/exec.py:48-51 | `lines.insert(line_no, e)` on a layout whose events sit on `line_no` or below puts `e` first among its line's events and moves nothing above it |
| Merge.LayoutPrefix | notbook/exec.py:41-51 | while events are inserted in descending order, the list up to the next insertion point is still the script's lines |
| Merge.InsertStep | notbook/exec.py:41-51 | one round of the loop turns the merge of the events so far into the merge of one more |
| Merge.InsertPlaced | notbook/exec.py:48-51 | inserting an event at its line, above events of later lines, gives the layout with that event added |
| Merge.InsertEvents | notbook/exec.py:41-51 | the loop with the corrected bounded scan, on a descending event list whose lines are in the script, yields the layout of the reversed list, indents recovered |
| Merge.PyInsert | notbook/exec.py:48-51 | `list.insert` adds one item; an index inside the list inserts there, and an index at or past the end appends |
| Merge.PlaceAsWritten | notbook/exec.py:42-51 | a round keeps the event's line number; a plot is inserted unchanged |
| Merge.InsertedAsWritten | notbook/exec.py:41-51 | the rounds of the loop, when none raises, add exactly one item per event |
| Merge.ScanAsWritten | notbook/exec.py:43-47 | the scan raises nothing when the 99 lines it may look at all lie inside the list and are script lines |
| Merge.ScanLoopAsWritten | notbook/exec.py:43-47 | the scan loop as written, negative index and exceptions included, computes `ScanAsWritten` |
| Merge.InsertEventsAsWritten | notbook/exec.py:41-51 | the insertion loop as written, stopping at the first scan that raises, computes `InsertedAsWritten` |
| Merge.MergeAsWritten | notbook/exec.py:37-51 | the merge as written computes `MergedAsWritten`; when every line number and every scan stays inside the script it is the layout of the reversed event list |
| Merge.ScanAsWrittenNone | notbook/exec.py:43-47 | a scan over 99 script lines that finds no print line ends without exception and without an indent |
| Merge.PlaceAsWrittenAgrees | notbook/exec.py:42-51 | on a list whose lines up to the event's line are the script's, a scan that stays inside the script places the event as the layout does |
| Merge.InsertedFrom | notbook/exec.py:41-51 | the remaining rounds of the loop as written, from the layout of the earlier events, end in the layout of all of them |
| Merge.AsWrittenReverses | notbook/exec.py:37-51 | with line numbers and scans inside the script, the merge as written is the layout of the reversed event list |
| Merge.MergeWrapsToIndexError | notbook/exec.py:43-47 | on the script `x = 1` / `if x: print(x)`, a print recorded on line 2 makes the merge as written raise `IndexError` |
| Merge.PlotBeyondScriptAppended | notbook/exec.py:48-51 | a plot whose line number lies at or past the end of the script is appended after the last line |
| Merge.SameLineReversedAsWritten | notbook/exec.py:39-51 | two events of one line, with scans inside the script, come out swapped from their list order in the merge as written |
| Merge.PlacedOnPrintLine | notbook/exec.py:43-47 | a print on a line that starts a print call takes that line's indent, and its scan stays inside the script |
| Merge.LoopPrintsReversed | notbook/exec.py:39-51 | two prints recorded on one print-call line, such as a loop body `    print(i)`, come out second first, both with that line's indent |
| Merge.LoopBodyIndent | notbook/exec.py:44-46 | the loop body `    print(i)` matches the print pattern with indent 4 |
| Merge.DistinctLinesUnreversed | notbook/exec.py:39-51 | when no two events share a line, reversing the event list does not change the layout |
| Merge.Merge | notbook/exec.py:37-51 | the merge with the same-line order corrected: every script line, followed directly by its events in the order of the recorded list (prints, then plots) |
| Merge.LayoutNoEvents | notbook/exec.py:37-51 | with no events the merge returns `file_text.split('\n')` unchanged |
| Merge.LayoutKeepsLines | notbook/exec.py:41-51 | the script's lines all survive the merge, in order, and no event is taken for a line |
| Merge.OneLineLayout | notbook/exec.py:48-51 | events of one line sit right after that line, between the lines before and after it |
| Merge.ByLineSnoc | notbook/exec.py:41-51 | one more event adds itself once to the events of lines `k + 1` to `n` if its line is among them, and nothing otherwise |
| Merge.ByLineAll | notbook/exec.py:41-51 | when every event lies on one of lines 1 to `n`, those lines hold every event exactly once |
| Merge.ByLineNone | notbook/exec.py:41-51 | events on none of lines `k + 1` to `n` appear on none of them |
| Merge.MergedKeepsEvents | notbook/exec.py:37-51 | with every line number inside the script, the corrected merge keeps every event, indent recovered, exactly once |
| Merge.BeyondScriptDropped | notbook/exec.py:48-51 | events whose lines lie beyond the script, such as a plot shown from another module, are not among the corrected layout's events, where the merge as written appends them |
| Merge.PairOnOneLine | notbook/exec.py:48-51 | two events of one line sit right after it in the order given |
| Merge.SameLineOrder | notbook/exec.py:39-51 | two events of one line come out in list order in the corrected merge, and swapped in the layout of the reversed list |
| Markers.MatchMarkerComplete | notbook/exec.py:93-99 | every line shaped ` *# *{ *rest` (or `}`) matches, and the group is the rest |
| Markers.MatchMarkerOther | notbook/exec.py:93-99 | a `# }` line does not match the open pattern, and a `# {` line does not match the close pattern |
| Markers.MatchMarkerSound | notbook/exec.py:93-99 | only lines of the marker shape match, and the group never starts with a space |
| Markers.NameOf | notbook/exec.py:97-101 | `group(1) or None`: `None` exactly for the empty group |
| Markers.MatchQuoteOpenComplete | notbook/exec.py:107 | spaces, three quotes and anything open a quote with those quotes and that rest |
| Markers.MatchQuoteOpenSound | notbook/exec.py:107 | a quote opener is spaces, the quotes, then the rest returned |
| Markers.MarkerIsNoQuote | notbook/exec.py:93-107 | no marker line opens a quote |
| Markers.MatchTagComplete | notbook/exec.py:112-114 | `md` or `html`, word characters, then a rest: the renderer and that rest |
| Markers.MatchTagSound | notbook/exec.py:112-114 | a matched tag is the format's name, word characters, and a rest that does not start with one |
| Markers.MarkdownIsNoTag | notbook/exec.py:112 | `markdown` is no tag; `md` and `html x` are |
| Markers.LastOccurrence | notbook/exec.py:123 | the last start of the quotes at or before a position, or none |
| Markers.MatchClosingLast | notbook/exec.py:123 | `(.*)quotes` matches iff the quotes occur, and the group ends at their last occurrence |
| Markers.ClosingAtEnd | notbook/exec.py:123-126 | a line ending with the quotes closes the span, and the group is everything before them |
| Markers.ClosingExample | notbook/exec.py:123 | with the quotes twice in a line, the group runs to the last pair |
| Sections.Flush | notbook/exec.py:164-168 | an open block, even empty, becomes a section with its title and the caption; then nothing is open |
| Sections.OpenBlock | notbook/exec.py:93-98 | `# { title` flushes, then opens an empty block named by the title or `None` |
| Sections.Divide | notbook/exec.py:92-104 | `section_divide` changes the state exactly on marker lines |
| Sections.AddLines | notbook/exec.py:82-83 | lines go to the open block, in order, and are dropped when none is open |
| Sections.PrintIntoLines | notbook/exec.py:146-150 | in a block, a trailing `PrintBlock` grows, or one is added; nothing before it changes |
| Sections.PrintIntoSections | notbook/exec.py:151-155 | outside a block, a trailing print section grows, or one is added; nothing before it changes |
| Sections.AddPlot | notbook/exec.py:157-162 | a plot raises `NotImplementedError` iff a block is open; otherwise it is a section of its own |
| Sections.Assemble | notbook/exec.py:67-168 | `MakeSections` raises `NotImplementedError` only if the list holds a plot, and raises at all only if it holds an event |
| Sections.ScanQuote | notbook/exec.py:121-130 | a closed span ends after the scan's start, within the input, with one line per position read |
| Sections.ScanCloses | notbook/exec.py:122-129 | the first line holding the quotes ends the span; a documentation quote keeps only the text before the quotes |
| Sections.ScanContinues | notbook/exec.py:121-130 | any other line is taken whole and the scan goes on |
| MakeSections.SectionMaker.constructor | notbook/exec.py:68-72 | a fresh iterator at the start of the list, no sections, nothing open |
| MakeSections.SectionMaker.MaybeAddCurrentCode | notbook/exec.py:164-168 | the fields afterwards are `Flush` of the fields before |
| MakeSections.SectionMaker.SectionDivide | notbook/exec.py:92-104 | returns true iff the line is a marker, and updates the fields as `Divide` |
| MakeSections.SectionMaker.TripleQuote | notbook/exec.py:106-143 | false and no change for a non-opener; otherwise reads the span from the shared iterator: stops the loop when the input runs out, raises `TypeError` on an event, or updates the fields as `AfterQuote` |
| MakeSections.SectionMaker.ReadSpan | notbook/exec.py:121-130 | the loop reads the span `ScanQuote` describes and leaves the iterator after it |
| MakeSections.ScanSpan | notbook/exec.py:121-130 | the line-reading loop computes `ScanQuote` and where the iterator stops |
| MakeSections.SectionMaker.FinishQuote | notbook/exec.py:132-142 | the fields afterwards are `AfterQuote` of the fields before |
| MakeSections.SectionMaker.PrintStatement | notbook/exec.py:145-155 | the fields afterwards are `AddPrint` of the fields before |
| MakeSections.SectionMaker.PlotBlock | notbook/exec.py:157-162 | raises exactly when `AddPlot` fails, and otherwise updates the fields as it says |
| MakeSections.SectionMaker.Next | notbook/exec.py:74-87 | one round of the loop keeps the outcome of `AssembleFrom` |
| MakeSections.SectionMaker.SourceLine | notbook/exec.py:76-83 | the round for a script line keeps the outcome of `AssembleFrom` |
| MakeSections.SectionMaker.Run | notbook/exec.py:73-90 | the loop and the final flush compute `AssembleFrom` from the current state |
| MakeSections.MakeSectionsOf | notbook/exec.py:67-90 | `MakeSections(lines).sections`, or the exception raised, is `Assemble(lines)` |
| SectionProps.AddPrintEvents | notbook/exec.py:145-155 | `print_statement` shows the statement right after everything shown before |
| SectionProps.AddPlotEvents | notbook/exec.py:157-162 | `plot_block` shows the plot right after everything shown before |
| SectionProps.FlushEvents | notbook/exec.py:164-168 | flushing neither loses nor adds an event |
| SectionProps.AfterQuoteEvents | notbook/exec.py:132-142 | the end of a quote neither loses nor adds an event |
| SectionProps.AssembleKeepsEvents | notbook/exec.py:67-90 | the sections show every print statement and plot of the merged list exactly once, in list order |
| SectionShape.PrintIntoLinesShape | notbook/exec.py:146-150 | print output inside a block stays coalesced: no two print blocks in a row, none empty |
| SectionShape.PrintIntoSectionsShape | notbook/exec.py:151-155 | print sections stay coalesced: no two in a row, none empty |
| SectionShape.AssembleShape | notbook/exec.py:67-168 | the sections are coalesced (no two print sections in a row, no empty print block, no title or caption outside code sections); when no quote opener is plain (every line that opens a triple quote tags it `md` or `html`), no code block holds a marker line |
| SectionScenarios.MarkerStep | notbook/exec.py:77-78 | a marker line moves the state as `section_divide` says |
| SectionScenarios.CloseNothingOpen | notbook/exec.py:99-102 | a close marker with nothing open is consumed and changes nothing |
| SectionScenarios.AtEnd | notbook/exec.py:88-90 | at the end of input the open block is flushed with caption `None` |
| SectionScenarios.PlainRun | notbook/exec.py:82-83 | ordinary lines go to the open block, or nowhere |
| SectionScenarios.ScanUnclosed | notbook/exec.py:121-130 | lines without the quotes are taken whole |
| SectionScenarios.QuoteStep | notbook/exec.py:106-143 | a closed quote span moves the state as `triple_quote` says, consuming through its closing line |
| SectionScenarios.UnclosedQuoteStep | notbook/exec.py:88-90 | a quote never closed ends the loop with the final flush; its lines are lost |
| SectionScenarios.EventInQuote | notbook/exec.py:122-123 | an event where the quote scan expects a line raises `TypeError` |
| SectionScenarios.LinesOutsideBlocksDropped | notbook/exec.py:76-90 | a script of ordinary lines yields no section |
| SectionScenarios.TitledBlock | notbook/exec.py:92-104 | `# { title`, lines, `# } caption`: one code section with the lines, title and caption (`None` when empty) |
| SectionScenarios.UnclosedBlockFlushed | notbook/exec.py:88-90 | a block open at the end is flushed without a caption |
| SectionScenarios.DocQuote | notbook/exec.py:106-135 | a documentation quote outside blocks is a text section of its lines joined by newlines |
| SectionScenarios.DocQuoteInBlock | notbook/exec.py:132-137 | inside a block it flushes the block, adds the text section, and reopens an anonymous empty block |
| SectionScenarios.PlainQuoteInBlock | notbook/exec.py:119-139 | inside a block every line of a plain quote is kept verbatim, markers included |
| SectionScenarios.UnterminatedQuote | notbook/exec.py:88-90 | a quote left open is dropped and the block flushed, without error |
| SectionScenarios.PlotInBlock | notbook/exec.py:159-160 | a plot inside a block raises `NotImplementedError` |
| SectionScenarios.PrintsCoalesce | notbook/exec.py:151-162 | consecutive prints outside blocks share a section; a plot separates them |
| SectionScenarios.PrintsInBlock | notbook/exec.py:146-150 | inside a block consecutive prints share a print block; a code line separates them |
| SectionScenarios.PrintsJoinInBlock | notbook/exec.py:146-150 | two prints after code start one new print block |
| Exec.RecordedLines | notbook/exec.py:179-191 | every recorded statement names a line of the script if every call does |
| Exec.RunScript | notbook/exec.py:27-35 | running the actions raises iff one of them does; otherwise it returns the recorded statements and plots |
| Exec.Sectioned | notbook/exec.py:53 | the sections `MakeSections` made, or its exception, unchanged |
| Exec.ExecSpec | notbook/exec.py:24-53 | `exec_file` raises `ExecException` exactly when the run raises; otherwise it is the scan's exception or `MakeSections` of the merge as written |
| Exec.ExecSpecCorrected | notbook/exec.py:24-53 | with the corrected merge, `ExecException` exactly when the run raises, and no scan exception at all |
| Exec.ExecFile | notbook/exec.py:24-53 | `exec_file` returns `ExecSpec`: the run's exception, the scan's exception, or `MakeSections` of the merge as written of what the run recorded |
| Exec.ExecFileCorrected | notbook/exec.py:24-53 | with every line number inside the script, `exec_file` with the corrected merge returns `ExecSpecCorrected` |
| Exec.ExecKeepsEvents | notbook/exec.py:24-53 | when `exec_file` returns sections, the merge as written succeeded and every print and plot it placed appears in the sections, in its order |
| Exec.ExecCorrectedKeepsEvents | notbook/exec.py:24-53 | with the corrected merge the sections carry exactly the events of the corrected merged list, in its order |
| Exec.LayoutEvents | notbook/exec.py:41-51 | the events of the layout are the events of each script line, line by line |
| Exec.MergedEvents | notbook/exec.py:37-51 | the events of the corrected merge are the placed events of the script's lines, line by line, each line's in list order; events of other lines are not among them |
| Exec.ExecCorrectedKeepsRunEvents | notbook/exec.py:24-53 | when every line number of the run names a line of the script, the sections show every print and plot of the run exactly once, indent recovered, grouped by line in script order |
| Exec.ExecReversesEvents | notbook/exec.py:24-53 | with line numbers and scans inside the script, `exec_file` makes the sections of the layout of the reversed events |
| Exec.ExecAgreesOnDistinctLines | notbook/exec.py:24-53 | when no two events share a line and the scans stay inside the script, `exec_file` as written and corrected agree |
| Exec.RaiseFails | notbook/exec.py:32-35 | a run that raises makes `exec_file` raise, whatever the script |
| Exec.PlainScriptIsEmpty | notbook/exec.py:24-53 | a script of ordinary lines whose run records nothing yields no section |
| Simplify.SectionsRoundTrip | notbook/exec.py:56-64 | `simplify` loses nothing: the sections read back whole |
| Simplify.BlockRoundTrip | notbook/exec.py:56-64 | each block kind reads back from its simplified form |
| Simplify.SectionTagged | notbook/exec.py:59-60 | a section becomes a dict of its class name and its three fields; its block is tagged with the block's own class name |
| Render.RenderCode | notbook/render.py:66-76 | the output is a `code-highlighted` div exactly when the language has a lexer, and a raw `<code class="code-raw">` element otherwise |
| Render.RenderPrintStatement | notbook/render.py:57-59 | a statement is one `<code>` element; with no arguments it is empty |
| Render.RenderPrint | notbook/render.py:52-54 | a print block is one `print-block` div; empty when there are no statements, and exactly the one statement's `<code>` when there is one |
| Render.RawCodeVerbatim | notbook/render.py:66-76 | without a lexer, the code appears unescaped inside `<code class="code-raw">` |
| Render.IndentIgnored | notbook/render.py:57-59 | a statement's indent plays no part in its HTML |
| Render.OneArgStatement | notbook/render.py:57-63 | a one-argument statement is that argument's code inside `<code>` |
| Render.ArgsHtml | notbook/render.py:59 | the rendered arguments are one code string per argument, in argument order |
| Render.StatementsHtml | notbook/render.py:53 | the rendered statements are one `<code>` string per statement, in statement order |
| Render.StatementAppend | notbook/render.py:57-59 | one more argument adds a single space and that argument's code just before the closing `</code>`: arguments appear in order, separated by single spaces |
| Render.PrintBlockAppend | notbook/render.py:52-54 | one more statement adds a newline and that statement's `<code>` just before the closing `</div>`: statements appear in order, one per line |
| Render.KebabShape | notbook/render.py:46 | for a letters-only class name, the CSS class is lower-case letters with single dashes inside |
| Render.KebabRoundTrip | notbook/render.py:46 | the CSS class reads back into the class name |
| Render.TwoWords | notbook/render.py:46 | a two-word class name such as `CodeBlock` becomes `code-block` |
| Render.CssClassIsKebab | notbook/render.py:46 | each block's wrapper class is the kebab case of its class name |
| Render.GroupFlatten | notbook/render.py:29-42 | the runs and print blocks stand for every line of the code block, in order |
| Render.GroupMaximal | notbook/render.py:29-42 | every run is non-empty and maximal |
| Render.GroupUnique | notbook/render.py:29-42 | the grouping is the only one with maximal runs that stands for the lines |
| Render.RenderCodeLines | notbook/render.py:29-42 | the loop renders each maximal run of code once, in order around the print blocks |
| Render.RenderSection | notbook/render.py:19-47 | the loop body renders one section as `SectionHtml` |
| Render.Render | notbook/render.py:17-49 | `render` returns `RenderSpec`: each section wrapped, joined by newlines, or the assertion error |
| Render.SectionHtmlFails | notbook/render.py:43-44 | a section fails exactly when it holds a plot |
| Render.RenderFailsOnPlot | notbook/render.py:43-44 | `render` fails exactly when some section holds a plot |
| Render.RenderNothing | notbook/render.py:49 | no sections render to `''` |
| Render.RenderAppend | notbook/render.py:47-49 | one more section adds a newline and that section inside `<section>` |
| Render.TitleFirst | notbook/render.py:22-23 | a non-empty title puts `<h1>title</h1>` before the block content |
| Render.HtmlVerbatim | notbook/render.py:24-26 | an html text block is its content, as it is, in a `text-block` div |
| Render.GroupRunsExample | notbook/render.py:29-42 | two lines, a print block and a line group into a run of two lines, the block, and a run of one |
| Render.CodeRunsExample | notbook/render.py:29-42 | two lines, a print block and a line: the two lines are rendered together, then the prints, then the last line |
| RenderTools.DashSpaces | notbook/render_tools.py:72 | every space becomes a dash, nothing else changes |
| RenderTools.Keep | notbook/render_tools.py:73-77 | only allowed characters survive, and no more than were there |
| RenderTools.KeepAllowed | notbook/render_tools.py:73-77 | a string of allowed characters is unchanged |
| RenderTools.EntityLen | notbook/render_tools.py:66 | an entity match starts with `&`, ends with `;`, and is at least four characters long |
| RenderTools.NoAmpersandUnchanged | notbook/render_tools.py:75-76 | text without `&` keeps all its characters |
| RenderTools.NamedEntityDropped | notbook/render_tools.py:75-76 | a named entity such as `&amp;` disappears |
| RenderTools.NumericEntityDropped | notbook/render_tools.py:75-76 | a numeric entity such as `&#39;` disappears |
| RenderTools.CollapseNoDoubleDash | notbook/render_tools.py:78 | after collapsing, no two dashes are adjacent |
| RenderTools.CollapseFixed | notbook/render_tools.py:78 | a string without adjacent dashes is unchanged |
| RenderTools.CollapseOnlyDashes | notbook/render_tools.py:78 | collapsing removes only dashes, and keeps one of each run |
| RenderTools.Strip | notbook/render_tools.py:78 | `strip('_-')` removes only `_` and `-`, from both ends, and leaves neither at either end |
| RenderTools.StripClean | notbook/render_tools.py:78 | text with clean ends is unchanged |
| RenderTools.Slugify | notbook/render_tools.py:71-78 | a slug has only allowed characters, no capitals, no adjacent dashes, no `_` or `-` at either end |
| RenderTools.SlugFixed | notbook/render_tools.py:71-78 | every slug-shaped text is its own slug |
| RenderTools.SlugifyIdempotent | notbook/render_tools.py:71-78 | slugifying a slug changes nothing |
| RenderTools.Header | notbook/render_tools.py:31-33 | a heading tag whose `id` attribute is `level-slug`, which holds no `"` and so cannot end the attribute early, followed by the content verbatim |
| RenderTools.HeaderIdSafe | notbook/render_tools.py:31-33 | a heading id is `level-slug` made of `[a-z0-9_-]` only |
| RenderTools.HeaderIdsDistinct | notbook/render_tools.py:31-33 | headings of different levels never share an id |
| RenderTools.TripleEmphasis | notbook/render_tools.py:35-37 | the content, unchanged, inside `<u>` … `</u>` |
| RenderTools.Find | notbook/render_tools.py:13-14 | the first occurrence at or after a position, or none |
| RenderTools.DefinitionItem | notbook/render_tools.py:13-14 | both list patterns match a `<li>term::definition</li>` item, up to its closing tag |
| RenderTools.SkipChar | notbook/render_tools.py:24-25 | a character that cannot start an item is copied and counts nothing |
| RenderTools.DefinitionItemsScan | notbook/render_tools.py:24-25 | over definition items both counts equal the number of items, and the substitution gives one `<dt>`/`<dd>` pair per item, in order |
| RenderTools.List | notbook/render_tools.py:23-29 | a `<dl>` exactly when the list is unordered and both patterns match equally often, an `<ol>` exactly when it is ordered; otherwise the content is wrapped unchanged |
| RenderTools.DefinitionList | notbook/render_tools.py:23-25 | an unordered list whose every item is `term::definition` becomes a `<dl>` of those pairs |
| RenderTools.NoColonNoDefinitions | notbook/render_tools.py:24 | without `::` nothing matches the definition pattern |
| RenderTools.BulletItemsScan | notbook/render_tools.py:24 | plain items are counted one each by the item pattern |
| RenderTools.BulletList | notbook/render_tools.py:24-29 | a non-empty unordered list of plain items stays a `<ul>` |
| RenderTools.OrderedList | notbook/render_tools.py:26-27 | an ordered list is wrapped in `<ol>` as it is |
| RenderTools.NoItemsIsDefinitionList | notbook/render_tools.py:24-25 | a body with no item counts zero of both patterns, so an unordered one becomes a `<dl>` around the body |

## Left out

- Reading the script file, `compile`, `exec` and the `NOTBOOK` environment variable are not modelled. The script's run is a sequence of actions: `print` calls, plots and a raise.
- Frame introspection (`inspect.currentframe`, `f_lineno`, `samefile`) is modelled as two arguments of each `print` call: its line number and whether it came from the script.
- `pformat`, `json.loads` / `json.dumps`, misaka's markdown renderer and pygments' highlighter are parameters. `highlight_code`, `code_block` and `render_markdown` are not modelled, and nor is the `blockcode` hook that calls them.
- `ExecException` is imported from `render_tools`, which does not define it. It is the abstract error `Exec.ExecException`.
- `show_plot` and `bokeh_figure_to_html` in `notbook/__init__.py` are not part of this model. Plots enter as given events.
- `watch.py`, `cli.py` and `main.py` are not part of this model. They are the server, file watching and command-line wiring.
- Merge.Merge: requires every event's line number to name a line of the script. A print's number does, since `MockPrint` records only calls from the script's own file. A plot's need not: `show_plot` takes the line of its caller's frame, with no check that the caller is the script, and `list.insert` appends when the index is past the end. `Merge.MergeAsWritten` models that case (`Merge.PlotBeyondScriptAppended`). The layout `Merge.Merged` has no place for such a plot and leaves it out (`Merge.BeyondScriptDropped`), so the corrected merge keeps every event only for in-range runs (`Merge.MergedKeepsEvents`, `Exec.ExecCorrectedKeepsRunEvents`).
- Exec.ExecFileCorrected: requires every action's line number to name a line of the script, for the reason given for `Merge.Merge`. `Exec.ExecFile` has no such requirement.
- Markers.MatchTagComplete: `\w` is taken as ASCII letters, digits and `_`. Python 3 matches `\w` in a str pattern against Unicode word characters, so on `"""mdé x` the source drops `é` with the tag and keeps ` x`, where the model keeps `é x`. Unicode's character classes are not modelled.
- Markers.MatchTagSound: the same ASCII reading of `\w`; on non-ASCII word characters after the tag the model's rest starts earlier than Python's.
- RenderTools.EntityLen: `\d` is taken as the ASCII digits (`RenderTools.DigitRun`), and so is the premise of `RenderTools.NumericEntityDropped`. Python 3 also counts other Unicode decimal digits: `slugify("&#1٢;", path_like=False)` is `""` in the source and `"1"` in the model.
- Util.Lower: lower-cases ASCII letters only. Python's `str.lower` also maps non-ASCII capitals, and a few of them to more than one character.
- Capture.ParsePrintValue: a float's `str()` text is given with the value rather than computed. A `bool` prints as `True` / `False`.
- RenderTools.List: takes the list body misaka produces as a string. The lemmas cover bodies built from `<li>` items whose texts hold no `<`, plus bodies with no item at all.
- `p.indent` is written into the print statement in place in the source. The model computes the placed statement as a new value (`Merge.Placed`). Nothing else holds a reference to it while it is changed, so no reader can tell the difference.

## Findings

| source | as written | input that shows it | evidently intended | confidence | as-written member | corrected member |
|---|---|---|---|---|---|---|
| notbook/exec.py:39-51 | events are sorted by line with a stable `reverse=True` sort, then each is inserted at index `line_no`, so each later insertion lands in front of the earlier ones of the same line | the script `for i in range(2):` / `    print(i)`: both statements have line 2, recorded 0 then 1; line 2 is itself a print call, so the scan stays inside the script, and the merged list shows 1 then 0, so the print block reads `1`, `0` | the output of one line appears in the order it was printed | not executed | Merge.MergeAsWritten, Merge.SameLineReversedAsWritten, Merge.LoopPrintsReversed | Merge.Merge |
| notbook/exec.py:43-47 | the backward scan indexes `lines[p.line_no - back]` for `back` up to 99, and a negative index wraps to the end of the list | a two-line script `x = 1` / `if x: print(x)`: the print on line 2 has no line starting with `print(` above it, so the scan reaches `lines[-3]` and raises `IndexError` (after wrapping it may also hit an inserted event and raise `TypeError` in `re.search`) | stop at the start of the script and leave `indent` at 0 | not executed | Merge.ScanAsWritten, Merge.ScanWrapsToIndexError, Merge.MergeWrapsToIndexError | Merge.FindIndent |
