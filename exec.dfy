/** `exec_file` (notbook/exec.py:24-53) without its I/O: the script's text
    is given, and running it is modelled by the calls it makes, in order —
    `print` calls reaching `MockPrint`, plots handed to the execution
    context by `show_plot`, or an exception.  What the run records is merged
    into the script's lines and assembled into sections. */
module Exec {
  import opened Util
  import opened Models
  import opened Merge
  import opened Sections
  import opened MakeSections
  import opened Context
  import opened Capture
  import opened SectionProps
  import opened SectionScenarios

  /** One observable step of the script while it runs. */
  datatype Action<O> =
    | PrintCall(args: seq<Value<O>>, explicitFile: bool, sameFile: bool, lineNo: int)
    | ShowPlot(html: string, lineNo: int)
    | Raise

  /** Why `exec_file` fails: the script raised (a `RuntimeError` of
      `MockPrint` included), which becomes `ExecException`; the merge's
      indent scan raised `IndexError` or `TypeError`; or `MakeSections`
      raised. */
  datatype ExecError = ExecException | Scanning(scan: ScanError) | Sectioning(error: SectionError)

  /** A step that raises: an exception of the script, or a `print` from
      another file reaching `MockPrint`. */
  predicate Fatal<O>(a: Action<O>)
  {
    a.Raise? || (a.PrintCall? && !a.explicitFile && !a.sameFile)
  }

  /** The run stops with an exception at some step. */
  predicate Fails<O>(acts: seq<Action<O>>)
  {
    exists i :: 0 <= i < |acts| && Fatal(acts[i])
  }

  lemma FailsAppend<O>(acts: seq<Action<O>>, a: Action<O>)
    ensures Fails(acts + [a]) <==> Fails(acts) || Fatal(a)
  {
    if Fails(acts) {
      var i :| 0 <= i < |acts| && Fatal(acts[i]);
      assert (acts + [a])[i] == acts[i];
    }
    if Fatal(a) {
      assert (acts + [a])[|acts|] == a;
    }
  }

  /** Every step that carries a line number names a line of the script
      (the corrected merge is defined for such runs only). */
  predicate LinesIn<O>(acts: seq<Action<O>>, n: nat)
  {
    forall i :: 0 <= i < |acts| && !acts[i].Raise? ==> 1 <= acts[i].lineNo <= n
  }

  /** `mp.statements` after the steps `acts`. */
  function Recorded<O, J>(acts: seq<Action<O>>, pformat: O -> string, loads: string -> Option<J>, dumps: J -> string): seq<PrintStatement>
  {
    if acts == [] then []
    else
      var last := acts[|acts| - 1];
      Recorded(acts[..|acts| - 1], pformat, loads, dumps)
        + if last.PrintCall? && !last.explicitFile then [PrintStatement(ParseArgs(last.args, pformat, loads, dumps), last.lineNo)] else []
  }

  /** `context.get()` after the steps `acts`. */
  function Plots<O>(acts: seq<Action<O>>): seq<PlotBlock>
  {
    if acts == [] then []
    else
      var last := acts[|acts| - 1];
      Plots(acts[..|acts| - 1]) + if last.ShowPlot? then [PlotBlock(last.html, last.lineNo)] else []
  }

  /** `mp.statements + context.get()` as events. */
  function Events(ps: seq<PrintStatement>, plots: seq<PlotBlock>): (r: seq<Event>)
    ensures |r| == |ps| + |plots|
    ensures forall i :: 0 <= i < |ps| ==> r[i] == PrintItem(ps[i])
    ensures forall i :: 0 <= i < |plots| ==> r[|ps| + i] == PlotItem(plots[i])
  {
    seq(|ps| + |plots|, i requires 0 <= i < |ps| + |plots| =>
      if i < |ps| then PrintItem(ps[i]) else PlotItem(plots[i - |ps|]))
  }

  /** The events a run records: `mp.statements + context.get()`. */
  function RunEvents<O, J>(acts: seq<Action<O>>, pformat: O -> string, loads: string -> Option<J>, dumps: J -> string): seq<Event>
  {
    Events(Recorded(acts, pformat, loads, dumps), Plots(acts))
  }

  /** The sections `MakeSections` makes, or its exception as an `ExecError`. */
  function Sectioned(made: Result<seq<Section>, SectionError>): (r: Result<seq<Section>, ExecError>)
    ensures r.Ok? <==> made.Ok?
    ensures r.Ok? ==> r.value == made.value
  {
    match made
    case Ok(sections) => Ok(sections)
    case Err(e) => Err(Sectioning(e))
  }

  /** What `exec_file` returns for a script whose run makes the calls `acts`:
      the merge as written, so events of one line come out reversed and the
      indent scan may raise. */
  function ExecSpec<O, J>(text: string, acts: seq<Action<O>>, pformat: O -> string, loads: string -> Option<J>, dumps: J -> string): (r: Result<seq<Section>, ExecError>)
    ensures r == Err(ExecException) <==> Fails(acts)
  {
    if Fails(acts) then Err(ExecException)
    else
      match MergedAsWritten(Split(text, '\n'), RunEvents(acts, pformat, loads, dumps))
      case Err(e) => Err(Scanning(e))
      case Ok(lines) => Sectioned(Assemble(lines))
  }

  /** `exec_file` with the corrected merge: events of one line in their
      order in the recorded list (prints, then plots) and a scan that stops
      at the first line. */
  function ExecSpecCorrected<O, J>(text: string, acts: seq<Action<O>>, pformat: O -> string, loads: string -> Option<J>, dumps: J -> string): (r: Result<seq<Section>, ExecError>)
    ensures r == Err(ExecException) <==> Fails(acts)
    ensures !r.Err? || !r.error.Scanning?
  {
    if Fails(acts) then Err(ExecException)
    else Sectioned(Assemble(Merged(Split(text, '\n'), RunEvents(acts, pformat, loads, dumps))))
  }

  predicate StatementsIn(ps: seq<PrintStatement>, n: nat)
  {
    forall i :: 0 <= i < |ps| ==> 1 <= ps[i].lineNo <= n
  }

  predicate PlotsIn(plots: seq<PlotBlock>, n: nat)
  {
    forall i :: 0 <= i < |plots| ==> 1 <= plots[i].lineNo <= n
  }

  lemma {:induction false} RecordedLines<O, J>(acts: seq<Action<O>>, n: nat, pformat: O -> string, loads: string -> Option<J>, dumps: J -> string)
    requires LinesIn(acts, n)
    ensures StatementsIn(Recorded(acts, pformat, loads, dumps), n)
  {
    if acts != [] {
      var init, last := acts[..|acts| - 1], acts[|acts| - 1];
      RecordedLines(init, n, pformat, loads, dumps);
      var before := Recorded(init, pformat, loads, dumps);
      var ps := Recorded(acts, pformat, loads, dumps);
      assert !last.Raise? ==> 1 <= last.lineNo <= n;
      forall i | 0 <= i < |ps|
        ensures 1 <= ps[i].lineNo <= n
      {
        if i < |before| {
          assert ps[i] == before[i];
        } else {
          assert last.PrintCall?;
          assert ps[i] == PrintStatement(ParseArgs(last.args, pformat, loads, dumps), last.lineNo);
          assert 1 <= last.lineNo <= n;
        }
      }
    }
  }

  lemma {:induction false} PlotLines<O>(acts: seq<Action<O>>, n: nat)
    requires LinesIn(acts, n)
    ensures PlotsIn(Plots(acts), n)
  {
    if acts != [] {
      var init, last := acts[..|acts| - 1], acts[|acts| - 1];
      PlotLines(init, n);
      var ps := Plots(acts);
      assert !last.Raise? ==> 1 <= last.lineNo <= n;
      forall i | 0 <= i < |ps|
        ensures 1 <= ps[i].lineNo <= n
      {
        if i < |Plots(init)| {
          assert ps[i] == Plots(init)[i];
        } else {
          assert last.ShowPlot?;
          assert ps[i] == PlotBlock(last.html, last.lineNo);
        }
      }
    }
  }

  /** The events of a run all name lines of the script. */
  lemma EventsInRange(file: seq<string>, ps: seq<PrintStatement>, plots: seq<PlotBlock>)
    requires StatementsIn(ps, |file|) && PlotsIn(plots, |file|)
    ensures InRange(file, Events(ps, plots))
  {
    var es := Events(ps, plots);
    forall i | 0 <= i < |es|
      ensures 1 <= LineNo(es[i]) <= |file|
    {
      if i >= |ps| {
        assert es[|ps| + (i - |ps|)] == PlotItem(plots[i - |ps|]);
      }
    }
  }

  /** What one more step adds to the recorded statements and plots. */
  lemma RunStep<O, J>(acts: seq<Action<O>>, i: nat, pformat: O -> string, loads: string -> Option<J>, dumps: J -> string)
    requires i < |acts|
    ensures var a := acts[i];
      && Recorded(acts[..i + 1], pformat, loads, dumps) == Recorded(acts[..i], pformat, loads, dumps)
           + (if a.PrintCall? && !a.explicitFile then [PrintStatement(ParseArgs(a.args, pformat, loads, dumps), a.lineNo)] else [])
      && Plots(acts[..i + 1]) == Plots(acts[..i]) + (if a.ShowPlot? then [PlotBlock(a.html, a.lineNo)] else [])
  {
    assert acts[..i + 1][..i] == acts[..i];
  }

  /** The first part of `exec_file`: activate the context, install
      `MockPrint` and run the script; what it recorded, or `None` if it
      raised. */
  method RunScript<O, J>(acts: seq<Action<O>>, pformat: O -> string, loads: string -> Option<J>, dumps: J -> string)
    returns (r: Option<(seq<PrintStatement>, seq<PlotBlock>)>)
    ensures r.None? <==> Fails(acts)
    ensures r.Some? ==> r.value == (Recorded(acts, pformat, loads, dumps), Plots(acts))
  {
    var ctx := new ExecContext<PlotBlock>();
    ctx.Activate();
    var held := ctx.Get();
    var mp := new MockPrint(pformat, loads, dumps);
    var i := 0;
    while i < |acts|
      invariant 0 <= i <= |acts| && ctx.current == held && held != null
      invariant !Fails(acts[..i])
      invariant mp.statements == Recorded(acts[..i], pformat, loads, dumps)
      invariant held.items == Plots(acts[..i])
    {
      RunStep(acts, i, pformat, loads, dumps);
      match acts[i] {
        case PrintCall(args, explicitFile, sameFile, lineNo) =>
          var res := mp.Call(args, explicitFile, sameFile, lineNo);
          if res.Err? {
            assert acts[i] in acts;
            return None;
          }
        case ShowPlot(html, lineNo) =>
          var _ := ctx.Append(PlotBlock(html, lineNo));
        case Raise =>
          assert acts[i] in acts;
          return None;
      }
      assert acts[..i + 1] == acts[..i] + [acts[i]];
      FailsAppend(acts[..i], acts[i]);
      i := i + 1;
    }
    assert acts[..i] == acts;
    return Some((mp.statements, held.items));
  }

  /** `exec_file`: run the script, then merge what was recorded into the
      lines as the source does and make the sections. */
  method ExecFile<O, J>(text: string, acts: seq<Action<O>>, pformat: O -> string, loads: string -> Option<J>, dumps: J -> string)
    returns (r: Result<seq<Section>, ExecError>)
    ensures r == ExecSpec(text, acts, pformat, loads, dumps)
  {
    var recorded := RunScript(acts, pformat, loads, dumps);
    if recorded.None? {
      return Err(ExecException);
    }
    var (statements, plots) := recorded.value;
    var merged := MergeAsWritten(Split(text, '\n'), Events(statements, plots));
    if merged.Err? {
      return Err(Scanning(merged.error));
    }
    var made := MakeSectionsOf(merged.value);
    r := Sectioned(made);
  }

  /** `exec_file` with the corrected merge, for a run whose line numbers all
      name lines of the script. */
  method ExecFileCorrected<O, J>(text: string, acts: seq<Action<O>>, pformat: O -> string, loads: string -> Option<J>, dumps: J -> string)
    returns (r: Result<seq<Section>, ExecError>)
    requires LinesIn(acts, |Split(text, '\n')|)
    ensures r == ExecSpecCorrected(text, acts, pformat, loads, dumps)
  {
    var recorded := RunScript(acts, pformat, loads, dumps);
    if recorded.None? {
      return Err(ExecException);
    }
    var (statements, plots) := recorded.value;
    var lines := Split(text, '\n');
    RecordedLines(acts, |lines|, pformat, loads, dumps);
    PlotLines(acts, |lines|);
    EventsInRange(lines, statements, plots);
    var merged := Merge.Merge(lines, Events(statements, plots));
    var made := MakeSectionsOf(merged);
    r := Sectioned(made);
  }

  /** Every print statement and plot the merge as written placed reappears
      in the sections, in the order it placed them. */
  lemma ExecKeepsEvents<O, J>(text: string, acts: seq<Action<O>>, pformat: O -> string, loads: string -> Option<J>, dumps: J -> string, sections: seq<Section>)
    requires ExecSpec(text, acts, pformat, loads, dumps) == Ok(sections)
    ensures var merged := MergedAsWritten(Split(text, '\n'), RunEvents(acts, pformat, loads, dumps));
      merged.Ok? && SectionsEvents(sections) == ItemEvents(merged.value)
  {
    var merged := MergedAsWritten(Split(text, '\n'), RunEvents(acts, pformat, loads, dumps));
    AssembleKeepsEvents(merged.value, sections);
  }

  /** The same for the corrected merge: the sections carry exactly the
      events of the corrected merged list, in its order. */
  lemma ExecCorrectedKeepsEvents<O, J>(text: string, acts: seq<Action<O>>, pformat: O -> string, loads: string -> Option<J>, dumps: J -> string, sections: seq<Section>)
    requires ExecSpecCorrected(text, acts, pformat, loads, dumps) == Ok(sections)
    ensures SectionsEvents(sections) == ItemEvents(Merged(Split(text, '\n'), RunEvents(acts, pformat, loads, dumps)))
  {
    AssembleKeepsEvents(Merged(Split(text, '\n'), RunEvents(acts, pformat, loads, dumps)), sections);
  }

  /* ---------- the events of the corrected merge ---------- */

  lemma {:induction false} ItemEventsAppend(a: seq<Item>, b: seq<Item>)
    ensures ItemEvents(a + b) == ItemEvents(a) + ItemEvents(b)
  {
    if a != [] {
      assert (a + b)[1..] == a[1..] + b;
      ItemEventsAppend(a[1..], b);
    } else {
      assert a + b == b;
    }
  }

  lemma {:induction false} ItemEventsOfEvents(es: seq<Event>)
    ensures ItemEvents(es) == es
  {
    if es != [] {
      ItemEventsOfEvents(es[1..]);
    }
  }

  /** The events of the layout from line `k + 1` on are the events of those
      lines, line by line. */
  lemma {:induction false} LayoutEvents(file: seq<string>, es: seq<Event>, k: nat)
    ensures ItemEvents(LayoutFrom(file, es, k)) == ByLine(es, k, |file|)
    decreases |file| - k
  {
    if k < |file| {
      var at := At(es, k + 1);
      LayoutEvents(file, es, k + 1);
      ItemEventsAppend([Src(file[k])] + at, LayoutFrom(file, es, k + 1));
      ItemEventsAppend([Src(file[k])], at);
      ItemEventsOfEvents(at);
      assert ItemEvents([Src(file[k])]) == [];
    }
  }

  /** The events of the corrected merge: the placed events of each script
      line, line by line, each line's in list order.  An event whose line
      is not in the script is not among them. */
  lemma MergedEvents(file: seq<string>, es: seq<Event>)
    ensures ItemEvents(Merged(file, es)) == ByLine(PlaceEach(file, es), 0, |file|)
  {
    LayoutEvents(file, PlaceEach(file, es), 0);
  }

  /** When every line number of the run names a line of the script, the
      sections of `exec_file` with the corrected merge show every print
      statement and plot of the run exactly once, indent recovered, grouped
      by line in script order. */
  lemma ExecCorrectedKeepsRunEvents<O, J>(text: string, acts: seq<Action<O>>, pformat: O -> string, loads: string -> Option<J>, dumps: J -> string, sections: seq<Section>)
    requires LinesIn(acts, |Split(text, '\n')|)
    requires ExecSpecCorrected(text, acts, pformat, loads, dumps) == Ok(sections)
    ensures var file := Split(text, '\n');
      var placed := PlaceEach(file, RunEvents(acts, pformat, loads, dumps));
      && SectionsEvents(sections) == ByLine(placed, 0, |file|)
      && multiset(SectionsEvents(sections)) == multiset(placed)
  {
    var file, es := Split(text, '\n'), RunEvents(acts, pformat, loads, dumps);
    ExecCorrectedKeepsEvents(text, acts, pformat, loads, dumps, sections);
    MergedEvents(file, es);
    RecordedLines(acts, |file|, pformat, loads, dumps);
    PlotLines(acts, |file|);
    EventsInRange(file, Recorded(acts, pformat, loads, dumps), Plots(acts));
    MergedKeepsEvents(file, es);
    assert InRange(file, PlaceEach(file, es));
  }

  /** When every line number and every scan stays inside the script,
      `exec_file` makes the sections of the layout of the reversed events. */
  lemma ExecReversesEvents<O, J>(text: string, acts: seq<Action<O>>, pformat: O -> string, loads: string -> Option<J>, dumps: J -> string)
    requires !Fails(acts)
    requires var file, es := Split(text, '\n'), RunEvents(acts, pformat, loads, dumps);
      InRange(file, es) && ScansStayIn(file, es)
    ensures ExecSpec(text, acts, pformat, loads, dumps)
         == Sectioned(Assemble(Merged(Split(text, '\n'), Reverse(RunEvents(acts, pformat, loads, dumps)))))
  {
    AsWrittenReverses(Split(text, '\n'), RunEvents(acts, pformat, loads, dumps));
  }

  /** Where no two events share a line and every scan stays inside the
      script, `exec_file` as written and the corrected one agree. */
  lemma ExecAgreesOnDistinctLines<O, J>(text: string, acts: seq<Action<O>>, pformat: O -> string, loads: string -> Option<J>, dumps: J -> string)
    requires var file, es := Split(text, '\n'), RunEvents(acts, pformat, loads, dumps);
      InRange(file, es) && ScansStayIn(file, es) && DistinctLines(es)
    ensures ExecSpec(text, acts, pformat, loads, dumps) == ExecSpecCorrected(text, acts, pformat, loads, dumps)
  {
    var file, es := Split(text, '\n'), RunEvents(acts, pformat, loads, dumps);
    AsWrittenReverses(file, es);
    DistinctLinesUnreversed(file, es);
  }

  /** A run that raises makes `exec_file` raise, whatever the script's text. */
  lemma RaiseFails<O, J>(text: string, before: seq<Action<O>>, after: seq<Action<O>>, pformat: O -> string, loads: string -> Option<J>, dumps: J -> string)
    ensures ExecSpec(text, before + [Raise] + after, pformat, loads, dumps) == Err(ExecException)
  {
    assert (before + [Raise] + after)[|before|] == Raise;
  }

  /** A script with no markers and no quote openers whose run records
      nothing produces no sections. */
  lemma PlainScriptIsEmpty<O, J>(text: string, acts: seq<Action<O>>, pformat: O -> string, loads: string -> Option<J>, dumps: J -> string)
    requires !Fails(acts) && Recorded(acts, pformat, loads, dumps) == [] && Plots(acts) == []
    requires AllPlain(Split(text, '\n'))
    ensures ExecSpec(text, acts, pformat, loads, dumps) == Ok([])
  {
    var file := Split(text, '\n');
    assert RunEvents(acts, pformat, loads, dumps) == [];
    assert SortDesc([]) == [];
    LinesOutsideBlocksDropped(SrcLines(file), file);
  }
}
