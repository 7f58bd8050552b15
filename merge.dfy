/** The merge step of `exec_file` (notbook/exec.py:37-51): captured print
    statements and plots are put back into the script's lines, each directly
    after the line it was produced on, and every print statement gets the
    indent of the nearest `print(` line at or above it.

    `Layout` is the specification: the script's lines in order, each followed
    by the events of that line.  `Merge` is the corrected procedure (events of
    one line keep their order in the recorded list, `mp.statements +
    context.get()`: prints in call order, then plots) and `MergeAsWritten` the
    procedure as the source has it (events of one line come out reversed,
    and the scan may raise). */
module Merge {
  import opened Util
  import opened Models

  /* ---------- events of one line ---------- */

  /** The events of `es` produced on line `k`, in the order they occur in `es`. */
  function At(es: seq<Event>, k: int): (r: seq<Event>)
    ensures |r| <= |es|
  {
    if es == [] then []
    else At(es[..|es| - 1], k) + (if LineNo(es[|es| - 1]) == k then [es[|es| - 1]] else [])
  }

  lemma {:induction false} AtAppend(a: seq<Event>, b: seq<Event>, k: int)
    ensures At(a + b, k) == At(a, k) + At(b, k)
  {
    if b != [] {
      assert (a + b)[..|a + b| - 1] == a + b[..|b| - 1];
      AtAppend(a, b[..|b| - 1], k);
    } else {
      assert a + b == a;
    }
  }

  lemma {:induction false} AtNone(es: seq<Event>, k: int)
    requires forall i :: 0 <= i < |es| ==> LineNo(es[i]) != k
    ensures At(es, k) == []
  {
    if es != [] {
      AtNone(es[..|es| - 1], k);
    }
  }

  lemma {:induction false} AtAll(es: seq<Event>, k: int)
    requires forall i :: 0 <= i < |es| ==> LineNo(es[i]) == k
    ensures At(es, k) == es
  {
    if es != [] {
      AtAll(es[..|es| - 1], k);
    }
  }

  /** Picking the events of one line commutes with reversing the list. */
  lemma {:induction false} AtReverse(es: seq<Event>, k: int)
    ensures At(Reverse(es), k) == Reverse(At(es, k))
  {
    if es != [] {
      AtReverse(es[1..], k);
      assert Reverse(es) == Reverse(es[1..]) + [es[0]];
      AtAppend(Reverse(es[1..]), [es[0]], k);
      assert es == [es[0]] + es[1..];
      AtAppend([es[0]], es[1..], k);
      ReverseAppend(At([es[0]], k), At(es[1..], k));
      assert [es[0]][..0] == [];
    }
  }

  /* ---------- sorted(..., key=attrgetter('line_no'), reverse=True) ---------- */

  ghost predicate Descending(es: seq<Event>)
  {
    forall i, j :: 0 <= i < j < |es| ==> LineNo(es[i]) >= LineNo(es[j])
  }

  /** Puts `e` after every element of the descending list `s` whose line is
      not below its own: the step of a stable descending sort. */
  function InsertDesc(s: seq<Event>, e: Event): (r: seq<Event>)
    ensures |r| == |s| + 1
    ensures multiset(r) == multiset(s) + multiset{e}
  {
    if s == [] then [e]
    else if LineNo(s[0]) >= LineNo(e) then
      assert s == [s[0]] + s[1..];
      [s[0]] + InsertDesc(s[1..], e)
    else [e] + s
  }

  lemma {:induction false} InsertDescDescending(s: seq<Event>, e: Event)
    requires Descending(s)
    ensures Descending(InsertDesc(s, e))
  {
    if s != [] {
      if LineNo(s[0]) >= LineNo(e) {
        InsertDescDescending(s[1..], e);
        InsertDescBound(s[1..], e, LineNo(s[0]));
        DescendingCons(s[0], InsertDesc(s[1..], e));
      } else {
        DescendingCons(e, s);
      }
    }
  }

  /** Inserting keeps every line at or above a common bound. */
  lemma {:induction false} InsertDescBound(s: seq<Event>, e: Event, b: int)
    requires forall i :: 0 <= i < |s| ==> LineNo(s[i]) <= b
    requires LineNo(e) <= b
    ensures forall i :: 0 <= i < |s| + 1 ==> LineNo(InsertDesc(s, e)[i]) <= b
  {
    if s != [] && LineNo(s[0]) >= LineNo(e) {
      InsertDescBound(s[1..], e, b);
    }
  }

  lemma DescendingCons(h: Event, t: seq<Event>)
    requires Descending(t)
    requires forall i :: 0 <= i < |t| ==> LineNo(t[i]) <= LineNo(h)
    ensures Descending([h] + t)
  {
  }

  lemma {:induction false} InsertDescAt(s: seq<Event>, e: Event, k: int)
    requires Descending(s)
    ensures At(InsertDesc(s, e), k) == At(s, k) + At([e], k)
  {
    if s == [] {
    } else if LineNo(s[0]) >= LineNo(e) {
      InsertDescAt(s[1..], e, k);
      InsertDescAtBehind(s, e, k);
    } else {
      InsertDescAtFront(s, e, k);
    }
  }

  lemma InsertDescAtBehind(s: seq<Event>, e: Event, k: int)
    requires s != [] && LineNo(s[0]) >= LineNo(e)
    requires At(InsertDesc(s[1..], e), k) == At(s[1..], k) + At([e], k)
    ensures At(InsertDesc(s, e), k) == At(s, k) + At([e], k)
  {
    AtAppend([s[0]], InsertDesc(s[1..], e), k);
    assert s == [s[0]] + s[1..];
    AtAppend([s[0]], s[1..], k);
    Assoc(At([s[0]], k), At(s[1..], k), At([e], k));
  }

  lemma InsertDescAtFront(s: seq<Event>, e: Event, k: int)
    requires Descending(s) && s != [] && LineNo(s[0]) < LineNo(e)
    ensures At(InsertDesc(s, e), k) == At(s, k) + At([e], k)
  {
    if LineNo(e) == k {
      AtOwnLine(s, e);
      AtNone(s, k);
    } else {
      AtOtherLine(s, e, k);
      assert [e][..0] == [];
    }
  }

  /** Python's `sorted` by line number with `reverse=True`: a stable sort, so
      events of one line keep their relative order. */
  function SortDesc(es: seq<Event>): (r: seq<Event>)
    ensures Descending(r)
    ensures multiset(r) == multiset(es)
  {
    if es == [] then []
    else
      assert es == es[..|es| - 1] + [es[|es| - 1]];
      InsertDescDescending(SortDesc(es[..|es| - 1]), es[|es| - 1]);
      InsertDesc(SortDesc(es[..|es| - 1]), es[|es| - 1])
  }

  /** Stability: sorting leaves the events of each line in their original order. */
  lemma {:induction false} SortDescStable(es: seq<Event>, k: int)
    ensures At(SortDesc(es), k) == At(es, k)
  {
    if es != [] {
      var init, last := es[..|es| - 1], es[|es| - 1];
      var sorted := SortDesc(init);
      assert SortDesc(es) == InsertDesc(sorted, last);
      SortDescStable(init, k);
      InsertDescAt(sorted, last, k);
      assert At(es, k) == At(init, k) + At([last], k);
    }
  }

  /* ---------- indent recovery ---------- */

  /** `re.search(r'^( *)print\(', line)`: the indent of a line that starts a print call. */
  function PrintCallIndent(line: string): Option<nat>
  {
    var n := LeadingSpaces(line);
    if StartsWith(line[n..], "print(") then Some(n) else None
  }

  /** A recognised line is spaces, then `print(`, with the indent counting the spaces. */
  lemma PrintCallIndentSound(line: string)
    requires PrintCallIndent(line).Some?
    ensures var n := PrintCallIndent(line).value;
      n + 6 <= |line| && line == Spaces(n) + "print(" + line[n + 6..]
  {
    var n := LeadingSpaces(line);
    SpacesPrefix(line);
    assert line[n..] == "print(" + line[n + 6..];
  }

  /** Every line made of spaces and a print call is recognised, with its indent. */
  lemma PrintCallIndentComplete(n: nat, rest: string)
    ensures PrintCallIndent(Spaces(n) + "print(" + rest) == Some(n)
  {
    var line := Spaces(n) + "print(" + rest;
    LeadingSpacesOfSpaces(n, "print(" + rest);
    assert line[n..] == "print(" + rest;
  }

  predicate IsPrintLine(lines: seq<Item>, i: int)
  {
    0 <= i < |lines| && lines[i].Src? && PrintCallIndent(lines[i].text).Some?
  }

  /** The scan `for back in range(1, 100)` from position `back` on, stopping at
      the start of the list: the index of the nearest print line among
      `lineNo - back` down to `lineNo - 99`. */
  function NearestPrintLine(lines: seq<Item>, lineNo: int, back: nat): (r: Option<nat>)
    requires 1 <= back <= 100
    ensures r.Some? ==> lineNo - 99 <= r.value <= lineNo - back && IsPrintLine(lines, r.value)
    ensures r.Some? ==> forall j :: r.value < j <= lineNo - back ==> !IsPrintLine(lines, j)
    ensures r.None? ==> forall j :: lineNo - 99 <= j <= lineNo - back ==> !IsPrintLine(lines, j)
    decreases 100 - back
  {
    if back == 100 then None
    else if lineNo - back < 0 then None
    else if IsPrintLine(lines, lineNo - back) then Some(lineNo - back)
    else NearestPrintLine(lines, lineNo, back + 1)
  }

  /** The indent the merge gives a print statement on line `lineNo`, if any. */
  function RecoverIndent(lines: seq<Item>, lineNo: int): Option<nat>
  {
    match NearestPrintLine(lines, lineNo, 1)
    case Some(i) => PrintCallIndent(lines[i].text)
    case None => None
  }

  /** The scan only looks at the lines before `lineNo`. */
  lemma {:induction false} NearestPrintLinePrefix(a: seq<Item>, b: seq<Item>, lineNo: int, back: nat)
    requires 1 <= back <= 100
    requires 0 <= lineNo <= |a| && lineNo <= |b| && a[..lineNo] == b[..lineNo]
    ensures NearestPrintLine(a, lineNo, back) == NearestPrintLine(b, lineNo, back)
    decreases 100 - back
  {
    if back < 100 && lineNo - back >= 0 {
      assert a[lineNo - back] == a[..lineNo][lineNo - back];
      assert b[lineNo - back] == b[..lineNo][lineNo - back];
      assert IsPrintLine(a, lineNo - back) == IsPrintLine(b, lineNo - back);
      NearestPrintLinePrefix(a, b, lineNo, back + 1);
    }
  }

  lemma RecoverIndentPrefix(a: seq<Item>, b: seq<Item>, lineNo: int)
    requires 0 <= lineNo <= |a| && lineNo <= |b| && a[..lineNo] == b[..lineNo]
    ensures RecoverIndent(a, lineNo) == RecoverIndent(b, lineNo)
  {
    NearestPrintLinePrefix(a, b, lineNo, 1);
    var r := NearestPrintLine(a, lineNo, 1);
    if r.Some? {
      assert a[r.value] == a[..lineNo][r.value];
      assert b[r.value] == b[..lineNo][r.value];
    }
  }

  /** The scan loop of exec.py:43-47, with the index kept non-negative. */
  method FindIndent(lines: seq<Item>, lineNo: int) returns (indent: Option<nat>)
    requires lineNo <= |lines|
    ensures indent == RecoverIndent(lines, lineNo)
  {
    indent := None;
    var back := 1;
    while back < 100 && lineNo - back >= 0
      invariant 1 <= back <= 100
      invariant NearestPrintLine(lines, lineNo, back) == NearestPrintLine(lines, lineNo, 1)
    {
      var line := lines[lineNo - back];
      if line.Src? {
        var m := PrintCallIndent(line.text);
        if m.Some? {
          indent := m;
          return;
        }
      }
      back := back + 1;
    }
  }

  datatype ScanError = IndexError | TypeError

  /** The scan exactly as exec.py:43-47 writes it: a negative index counts from
      the end of the list (which may hold an inserted event, a `TypeError` in
      `re.search`), and one below `-len(lines)` raises `IndexError`. */
  function ScanAsWritten(lines: seq<Item>, lineNo: int, back: nat): (r: Result<Option<nat>, ScanError>)
    requires 1 <= back <= 100
    ensures (0 <= lineNo - 99 && lineNo - back < |lines|
             && forall j :: lineNo - 99 <= j <= lineNo - back ==> lines[j].Src?) ==> r.Ok?
    decreases 100 - back
  {
    if back == 100 then Ok(None)
    else
      var i := lineNo - back;
      var j := if i < 0 then i + |lines| else i;
      if j < 0 || j >= |lines| then Err(IndexError)
      else if !lines[j].Src? then Err(TypeError)
      else match PrintCallIndent(lines[j].text)
        case Some(n) => Ok(Some(n))
        case None => ScanAsWritten(lines, lineNo, back + 1)
  }

  /** Where the bounded scan finds a print line among source lines, the scan as
      written finds the same one. */
  lemma {:induction false} ScanAsWrittenAgrees(lines: seq<Item>, lineNo: int, back: nat)
    requires 1 <= back <= 100 && lineNo <= |lines|
    requires forall j :: 0 <= j < lineNo ==> lines[j].Src?
    requires NearestPrintLine(lines, lineNo, back).Some?
    ensures ScanAsWritten(lines, lineNo, back)
         == Ok(PrintCallIndent(lines[NearestPrintLine(lines, lineNo, back).value].text))
    decreases 100 - back
  {
    if !IsPrintLine(lines, lineNo - back) {
      ScanAsWrittenAgrees(lines, lineNo, back + 1);
    }
  }

  /** A two-line script whose print call is not at the start of its line:
      the scan as written wraps past the start of the list and raises
      `IndexError`, where the bounded scan leaves the indent at 0. */
  lemma ScanWrapsToIndexError()
    ensures ScanAsWritten([Src("x = 1"), Src("if x: print(x)")], 2, 1) == Err(IndexError)
    ensures RecoverIndent([Src("x = 1"), Src("if x: print(x)")], 2) == None
  {
    var lines := [Src("x = 1"), Src("if x: print(x)")];
    assert LeadingSpaces("x = 1") == 0;
    assert LeadingSpaces("if x: print(x)") == 0;
    assert !StartsWith("x = 1", "print(");
    assert !StartsWith("if x: print(x)", "print(");
    assert PrintCallIndent("x = 1") == None;
    assert PrintCallIndent("if x: print(x)") == None;
    assert ScanAsWritten(lines, 2, 5) == Err(IndexError);
    assert ScanAsWritten(lines, 2, 4) == Err(IndexError);
    assert ScanAsWritten(lines, 2, 3) == Err(IndexError);
    assert ScanAsWritten(lines, 2, 2) == Err(IndexError);
  }

  /* ---------- the layout ---------- */

  function SrcLines(file: seq<string>): (r: seq<Item>)
    ensures |r| == |file|
    ensures forall i :: 0 <= i < |file| ==> r[i] == Src(file[i])
  {
    seq(|file|, i requires 0 <= i < |file| => Src(file[i]))
  }

  /** What the merge puts into the list for event `e`: a print statement whose
      scan finds a print line gets that line's indent, anything else is kept. */
  function Placed(file: seq<string>, e: Event): (r: Event)
    ensures LineNo(r) == LineNo(e)
  {
    if e.PrintItem? then
      match RecoverIndent(SrcLines(file), e.stmt.lineNo)
      case Some(n) => PrintItem(e.stmt.(indent := n))
      case None => e
    else e
  }

  function PlaceEach(file: seq<string>, es: seq<Event>): (r: seq<Event>)
    ensures |r| == |es|
    ensures forall i :: 0 <= i < |es| ==> r[i] == Placed(file, es[i])
  {
    if es == [] then [] else PlaceEach(file, es[..|es| - 1]) + [Placed(file, es[|es| - 1])]
  }

  lemma {:induction false} AtPlaceEach(file: seq<string>, es: seq<Event>, k: int)
    ensures At(PlaceEach(file, es), k) == PlaceEach(file, At(es, k))
  {
    if es != [] {
      var init := es[..|es| - 1];
      AtPlaceEach(file, init, k);
      var p := PlaceEach(file, es);
      assert p[..|p| - 1] == PlaceEach(file, init);
      if LineNo(es[|es| - 1]) == k {
        var a := At(init, k);
        assert (a + [es[|es| - 1]])[..|a|] == a;
      }
    }
  }

  lemma PlaceEachAppend(file: seq<string>, a: seq<Event>, b: seq<Event>)
    ensures PlaceEach(file, a + b) == PlaceEach(file, a) + PlaceEach(file, b)
  {
  }

  lemma PlaceEachReverse(file: seq<string>, es: seq<Event>)
    ensures PlaceEach(file, Reverse(es)) == Reverse(PlaceEach(file, es))
  {
  }

  /** Lines `k..` of the script, each followed by the events of its line
      (line numbers are 1-based, so index `k` holds line `k + 1`). */
  function LayoutFrom(file: seq<string>, es: seq<Event>, k: nat): (r: seq<Item>)
    ensures |r| >= |file| - k
    decreases |file| - k
  {
    if k >= |file| then []
    else [Src(file[k])] + At(es, k + 1) + LayoutFrom(file, es, k + 1)
  }

  /** Every line of the script in order, each directly followed by the events
      produced on it, in the order they occur in `es`. */
  function Layout(file: seq<string>, es: seq<Event>): seq<Item>
  {
    LayoutFrom(file, es, 0)
  }

  /** The specification of the merge: the layout of the events with their
      indents recovered. */
  function Merged(file: seq<string>, events: seq<Event>): seq<Item>
  {
    Layout(file, PlaceEach(file, events))
  }

  /** The layout depends on the events only through the events of each line. */
  lemma {:induction false} LayoutCongruent(file: seq<string>, a: seq<Event>, b: seq<Event>, k: nat)
    requires forall m :: k < m ==> At(a, m) == At(b, m)
    ensures LayoutFrom(file, a, k) == LayoutFrom(file, b, k)
    decreases |file| - k
  {
    if k < |file| {
      LayoutCongruent(file, a, b, k + 1);
    }
  }

  lemma LayoutUnfold(file: seq<string>, es: seq<Event>, k: nat)
    requires k < |file|
    ensures LayoutFrom(file, es, k) == [Src(file[k])] + At(es, k + 1) + LayoutFrom(file, es, k + 1)
  {
  }

  lemma LayoutUnfoldAssoc(file: seq<string>, es: seq<Event>, k: nat)
    requires k < |file|
    ensures LayoutFrom(file, es, k) == [Src(file[k])] + (At(es, k + 1) + LayoutFrom(file, es, k + 1))
  {
    Assoc([Src(file[k])], At(es, k + 1), LayoutFrom(file, es, k + 1));
  }

  /** `list.insert(i, x)` at an index inside the list. */
  function Insert(s: seq<Item>, i: nat, x: Item): (r: seq<Item>)
    requires i <= |s|
    ensures |r| == |s| + 1
  {
    s[..i] + [x] + s[i..]
  }

  lemma InsertCons(h: Item, t: seq<Item>, i: nat, x: Item)
    requires i <= |t|
    ensures Insert([h] + t, i + 1, x) == [h] + Insert(t, i, x)
  {
    assert ([h] + t)[..i + 1] == [h] + t[..i];
    assert ([h] + t)[i + 1..] == t[i..];
  }

  /** `lines.insert(line_no, e)` on a layout whose events all sit on line
      `line_no` or below it puts `e` first among the events of its line. */
  lemma {:induction false} InsertIntoLayout(file: seq<string>, d: seq<Event>, e: Event, k: nat)
    requires k < LineNo(e) <= |file|
    requires forall i :: 0 <= i < |d| ==> LineNo(d[i]) >= LineNo(e)
    ensures LineNo(e) - k <= |LayoutFrom(file, d, k)|
    ensures Insert(LayoutFrom(file, d, k), LineNo(e) - k, e) == LayoutFrom(file, [e] + d, k)
    decreases |file| - k, 1
  {
    if k + 1 == LineNo(e) {
      InsertAtOwnLine(file, d, e);
    } else {
      InsertAboveOwnLine(file, d, e, k);
    }
  }

  /** The base case: the layout from the event's own line. */
  lemma InsertAtOwnLine(file: seq<string>, d: seq<Event>, e: Event)
    requires 1 <= LineNo(e) <= |file|
    ensures Insert(LayoutFrom(file, d, LineNo(e) - 1), 1, e) == LayoutFrom(file, [e] + d, LineNo(e) - 1)
  {
    var L := LineNo(e);
    var line := Src(file[L - 1]);
    var tail: seq<Item> := At(d, L) + LayoutFrom(file, d, L);
    LayoutUnfoldAssoc(file, d, L - 1);
    LayoutOwnLine(file, d, e);
    InsertCons(line, tail, 0, e);
    InsertFront(tail, e);
  }

  /** The layout from an event's own line, with the event added. */
  lemma LayoutOwnLine(file: seq<string>, d: seq<Event>, e: Event)
    requires 1 <= LineNo(e) <= |file|
    ensures var L := LineNo(e);
      LayoutFrom(file, [e] + d, L - 1) == [Src(file[L - 1])] + ([e] + (At(d, L) + LayoutFrom(file, d, L)))
  {
    var L := LineNo(e);
    var ed := [e] + d;
    LayoutUnfoldAssoc(file, ed, L - 1);
    AtOwnLine(d, e);
    LayoutBelowEvent(file, d, e);
    Assoc([e], At(d, L), LayoutFrom(file, d, L));
  }

  lemma InsertFront(t: seq<Item>, x: Item)
    ensures Insert(t, 0, x) == [x] + t
  {
    assert t[..0] == [] && t[0..] == t;
  }

  /** An event does not show in the layout below its own line. */
  lemma LayoutBelowEvent(file: seq<string>, d: seq<Event>, e: Event)
    requires 0 <= LineNo(e)
    ensures LayoutFrom(file, [e] + d, LineNo(e)) == LayoutFrom(file, d, LineNo(e))
  {
    forall m | LineNo(e) < m
      ensures At([e] + d, m) == At(d, m)
    {
      AtOtherLine(d, e, m);
    }
    LayoutCongruent(file, [e] + d, d, LineNo(e));
  }

  lemma AtOwnLine(d: seq<Event>, e: Event)
    ensures At([e] + d, LineNo(e)) == [e] + At(d, LineNo(e))
  {
    AtAppend([e], d, LineNo(e));
    assert [e][..0] == [];
  }

  lemma AtOtherLine(d: seq<Event>, e: Event, m: int)
    requires LineNo(e) != m
    ensures At([e] + d, m) == At(d, m)
  {
    AtAppend([e], d, m);
    assert [e][..0] == [];
  }

  /** The inductive case: a line above the event's own, which gets no event. */
  lemma {:induction false} InsertAboveOwnLine(file: seq<string>, d: seq<Event>, e: Event, k: nat)
    requires k + 1 < LineNo(e) <= |file|
    requires forall i :: 0 <= i < |d| ==> LineNo(d[i]) >= LineNo(e)
    ensures LineNo(e) - k <= |LayoutFrom(file, d, k)|
    ensures Insert(LayoutFrom(file, d, k), LineNo(e) - k, e) == LayoutFrom(file, [e] + d, k)
    decreases |file| - k, 0
  {
    var i := LineNo(e) - k - 1;
    var h, t := Src(file[k]), LayoutFrom(file, d, k + 1);
    InsertIntoLayout(file, d, e, k + 1);
    LayoutAboveEvent(file, d, e, k);
    InsertCons(h, t, i, e);
    calc {
      Insert(LayoutFrom(file, d, k), LineNo(e) - k, e);
      Insert([h] + t, i + 1, e);
      [h] + Insert(t, i, e);
      [h] + LayoutFrom(file, [e] + d, k + 1);
      LayoutFrom(file, [e] + d, k);
    }
  }

  /** Above the first event's line the layout is just the script's line. */
  lemma LayoutAboveEvent(file: seq<string>, d: seq<Event>, e: Event, k: nat)
    requires k + 1 < LineNo(e) && k < |file|
    requires forall i :: 0 <= i < |d| ==> LineNo(d[i]) >= LineNo(e)
    ensures LayoutFrom(file, d, k) == [Src(file[k])] + LayoutFrom(file, d, k + 1)
    ensures LayoutFrom(file, [e] + d, k) == [Src(file[k])] + LayoutFrom(file, [e] + d, k + 1)
  {
    AtOtherLine(d, e, k + 1);
    AtNone(d, k + 1);
    LayoutUnfold(file, d, k);
    LayoutUnfold(file, [e] + d, k);
  }

  /** With every event on line `L` or below it, the first `L` items of the
      layout are the first `L` lines of the script. */
  lemma {:induction false} LayoutPrefix(file: seq<string>, d: seq<Event>, k: nat, L: nat)
    requires k <= L <= |file|
    requires forall i :: 0 <= i < |d| ==> LineNo(d[i]) >= L
    ensures L - k <= |LayoutFrom(file, d, k)|
    ensures LayoutFrom(file, d, k)[..L - k] == SrcLines(file)[k..L]
    decreases |file| - k
  {
    if k < L {
      if k + 1 < L {
        AtNone(d, k + 1);
      }
      LayoutUnfold(file, d, k);
      LayoutPrefix(file, d, k + 1, L);
    }
  }

  ghost predicate InRange(file: seq<string>, es: seq<Event>)
  {
    forall i :: 0 <= i < |es| ==> 1 <= LineNo(es[i]) <= |file|
  }

  /** The loop of exec.py:41-51 with the corrected scan `FindIndent` and
      every line number inside the script: each event of `order`, taken in
      turn, is inserted at index `line_no` after its indent has been
      recovered.  Since
      `order` descends, no insertion moves the spot a later one lands on; since
      each insertion goes in front of the events already at that spot, the
      events of one line come out in the reverse of their order in `order`. */
  method InsertEvents(file: seq<string>, order: seq<Event>) returns (lines: seq<Item>)
    requires Descending(order) && InRange(file, order)
    ensures lines == Merged(file, Reverse(order))
  {
    lines := SrcLines(file);
    LayoutNoEvents(file);
    assert Reverse(order[..0]) == [];
    var j := 0;
    while j < |order|
      invariant 0 <= j <= |order|
      invariant lines == Merged(file, Reverse(order[..j]))
    {
      var e := order[j];
      var L := LineNo(e);
      InsertStep(file, order, j);
      var item: Event := e;
      if e.PrintItem? {
        var indent := FindIndent(lines, L);
        RecoverIndentPrefix(lines, SrcLines(file), L);
        if indent.Some? {
          item := PrintItem(e.stmt.(indent := indent.value));
        }
      }
      lines := Insert(lines, L, item);
      j := j + 1;
    }
    assert order[..j] == order;
  }

  /** One round of the loop of `InsertEvents`: before it, the list holds the
      script's lines up to the event's line unchanged; inserting the placed
      event there gives the merge of one more event. */
  lemma InsertStep(file: seq<string>, order: seq<Event>, j: nat)
    requires Descending(order) && InRange(file, order) && j < |order|
    ensures var L, lines := LineNo(order[j]), Merged(file, Reverse(order[..j]));
      && 1 <= L <= |lines| && lines[..L] == SrcLines(file)[..L]
      && Insert(lines, L, Placed(file, order[j])) == Merged(file, Reverse(order[..j + 1]))
  {
    var e := order[j];
    var done := PlaceEach(file, Reverse(order[..j]));
    DoneBelow(file, order, j);
    InsertPlaced(file, done, e);
    PlaceNext(file, order, j);
  }

  /** Inserting the placed event `e` into the layout of events that all sit
      on its line or below it. */
  lemma InsertPlaced(file: seq<string>, done: seq<Event>, e: Event)
    requires 1 <= LineNo(e) <= |file|
    requires forall i :: 0 <= i < |done| ==> LineNo(done[i]) >= LineNo(e)
    ensures var L, lines := LineNo(e), Layout(file, done);
      && 1 <= L <= |lines| && lines[..L] == SrcLines(file)[..L]
      && Insert(lines, L, Placed(file, e)) == Layout(file, [Placed(file, e)] + done)
  {
    var p := Placed(file, e);
    LayoutPrefix(file, done, 0, LineNo(e));
    InsertIntoLayout(file, done, p, 0);
  }

  /** The events placed before round `j` all sit on its event's line or below. */
  lemma DoneBelow(file: seq<string>, order: seq<Event>, j: nat)
    requires Descending(order) && j < |order|
    ensures var done := PlaceEach(file, Reverse(order[..j]));
      forall i :: 0 <= i < |done| ==> LineNo(done[i]) >= LineNo(order[j])
  {
  }

  /** Round `j` puts its placed event in front of those placed before it. */
  lemma PlaceNext(file: seq<string>, order: seq<Event>, j: nat)
    requires j < |order|
    ensures PlaceEach(file, Reverse(order[..j + 1]))
         == [Placed(file, order[j])] + PlaceEach(file, Reverse(order[..j]))
  {
    assert order[..j + 1] == order[..j] + [order[j]];
    ReverseAppend(order[..j], [order[j]]);
    PlaceEachAppend(file, [order[j]], Reverse(order[..j]));
  }

  /** The corrected merge, for events on lines of the script: sorting the
      reversed list (`sorted(reversed(events), ...)`) cancels the reversal of
      the insertions, so events of one line keep their order in the list, and the
      scan stops at the first line of the script. */
  method Merge(file: seq<string>, events: seq<Event>) returns (lines: seq<Item>)
    requires InRange(file, events)
    ensures lines == Merged(file, events)
  {
    var order := SortDesc(Reverse(events));
    SortDescInRange(file, Reverse(events));
    lines := InsertEvents(file, order);
    MergedCongruent(file, Reverse(order), events) by {
      forall m | 0 < m
        ensures At(Reverse(order), m) == At(events, m)
      {
        AtReverse(order, m);
        SortDescStable(Reverse(events), m);
        AtReverse(events, m);
        ReverseReverse(At(events, m));
      }
    }
  }

  lemma SortDescInRange(file: seq<string>, es: seq<Event>)
    requires InRange(file, es)
    ensures InRange(file, SortDesc(es))
  {
    var r := SortDesc(es);
    assert forall i :: 0 <= i < |r| ==> r[i] in multiset(es);
  }

  lemma MergedCongruent(file: seq<string>, a: seq<Event>, b: seq<Event>)
    requires forall m :: 0 < m ==> At(a, m) == At(b, m)
    ensures Merged(file, a) == Merged(file, b)
  {
    forall m | 0 < m
      ensures At(PlaceEach(file, a), m) == At(PlaceEach(file, b), m)
    {
      AtPlaceEach(file, a, m);
      AtPlaceEach(file, b, m);
    }
    LayoutCongruent(file, PlaceEach(file, a), PlaceEach(file, b), 0);
  }

  /* ---------- the loop as written ---------- */

  /** `list.insert(i, x)` for any index, as Python does it: a negative index
      counts from the end, and an index beyond either end is clamped to it. */
  function PyInsert(s: seq<Item>, i: int, x: Item): (r: seq<Item>)
    ensures |r| == |s| + 1
    ensures 0 <= i <= |s| ==> r == Insert(s, i, x)
    ensures i >= |s| ==> r == s + [x]
  {
    if i < 0 then Insert(s, if i + |s| < 0 then 0 else i + |s|, x)
    else if i > |s| then
      assert s[..|s|] == s && s[|s|..] == [];
      Insert(s, |s|, x)
    else
      assert i == |s| ==> s[..|s|] == s && s[|s|..] == [];
      Insert(s, i, x)
  }

  /** What the loop as written inserts for `e` into `lines`: a print
      statement gets the indent its scan finds, unless the scan raises. */
  function PlaceAsWritten(lines: seq<Item>, e: Event): (r: Result<Event, ScanError>)
    ensures r.Ok? ==> LineNo(r.value) == LineNo(e)
    ensures !e.PrintItem? ==> r == Ok(e)
  {
    if e.PrintItem? then
      match ScanAsWritten(lines, e.stmt.lineNo, 1)
      case Err(err) => Err(err)
      case Ok(None) => Ok(e)
      case Ok(Some(n)) => Ok(PrintItem(e.stmt.(indent := n)))
    else Ok(e)
  }

  /** The rounds of the loop of exec.py:41-51 as written, over `order`,
      starting from the list `lines`: the final list, or the exception of the
      first scan that raises. */
  function InsertedAsWritten(lines: seq<Item>, order: seq<Event>): (r: Result<seq<Item>, ScanError>)
    ensures r.Ok? ==> |r.value| == |lines| + |order|
    decreases |order|
  {
    if order == [] then Ok(lines)
    else match PlaceAsWritten(lines, order[0])
      case Err(err) => Err(err)
      case Ok(p) => InsertedAsWritten(PyInsert(lines, LineNo(order[0]), p), order[1..])
  }

  /** exec.py:37-51 as written: the result of the loop over the stably
      sorted events, or the exception of its scan. */
  function MergedAsWritten(file: seq<string>, events: seq<Event>): Result<seq<Item>, ScanError>
  {
    InsertedAsWritten(SrcLines(file), SortDesc(events))
  }

  /** The scan loop of exec.py:43-47 as written. */
  method ScanLoopAsWritten(lines: seq<Item>, lineNo: int) returns (r: Result<Option<nat>, ScanError>)
    ensures r == ScanAsWritten(lines, lineNo, 1)
  {
    var back := 1;
    while back < 100
      invariant 1 <= back <= 100
      invariant ScanAsWritten(lines, lineNo, back) == ScanAsWritten(lines, lineNo, 1)
    {
      var i := lineNo - back;
      if i < 0 {
        i := i + |lines|;
      }
      if i < 0 || i >= |lines| {
        return Err(IndexError);
      }
      if !lines[i].Src? {
        return Err(TypeError);
      }
      var m := PrintCallIndent(lines[i].text);
      if m.Some? {
        return Ok(m);
      }
      back := back + 1;
    }
    return Ok(None);
  }

  /** The loop of exec.py:41-51 as written, over the events in `order`. */
  method InsertEventsAsWritten(file: seq<string>, order: seq<Event>) returns (r: Result<seq<Item>, ScanError>)
    ensures r == InsertedAsWritten(SrcLines(file), order)
  {
    var lines := SrcLines(file);
    var j := 0;
    while j < |order|
      invariant 0 <= j <= |order|
      invariant InsertedAsWritten(lines, order[j..]) == InsertedAsWritten(SrcLines(file), order)
    {
      var e := order[j];
      assert order[j..] == [e] + order[j + 1..];
      var item: Event := e;
      if e.PrintItem? {
        var indent := ScanLoopAsWritten(lines, e.stmt.lineNo);
        if indent.Err? {
          return Err(indent.error);
        }
        if indent.value.Some? {
          item := PrintItem(e.stmt.(indent := indent.value.value));
        }
      }
      lines := PyInsert(lines, LineNo(e), item);
      j := j + 1;
    }
    r := Ok(lines);
  }

  /** exec.py:37-51 as written: sort stably by descending line, then insert
      each event at its line number.  With every line number inside the
      script and every scan inside it too, this is the layout of the
      reversed event list: the events of one line come out in the reverse of
      their order in the list. */
  method MergeAsWritten(file: seq<string>, events: seq<Event>) returns (r: Result<seq<Item>, ScanError>)
    ensures r == MergedAsWritten(file, events)
    ensures InRange(file, events) && ScansStayIn(file, events) ==> r == Ok(Merged(file, Reverse(events)))
  {
    var order := SortDesc(events);
    r := InsertEventsAsWritten(file, order);
    if InRange(file, events) && ScansStayIn(file, events) {
      AsWrittenReverses(file, events);
    }
  }

  /** The scan of a print on line `lineNo` finds a print line of the script
      before it would pass the first line, or looks at 99 lines all inside
      the script. */
  ghost predicate ScanStaysIn(file: seq<string>, lineNo: int)
  {
    lineNo >= 99 || NearestPrintLine(SrcLines(file), lineNo, 1).Some?
  }

  ghost predicate ScansStayIn(file: seq<string>, es: seq<Event>)
  {
    forall i :: 0 <= i < |es| && es[i].PrintItem? ==> ScanStaysIn(file, LineNo(es[i]))
  }

  /** A scan over source lines that finds nothing and stays at index 0 or
      above ends without an exception and without an indent. */
  lemma {:induction false} ScanAsWrittenNone(lines: seq<Item>, lineNo: int, back: nat)
    requires 1 <= back <= 100 && 99 <= lineNo <= |lines|
    requires forall j :: 0 <= j < lineNo ==> lines[j].Src?
    requires NearestPrintLine(lines, lineNo, back).None?
    ensures ScanAsWritten(lines, lineNo, back) == Ok(None)
    decreases 100 - back
  {
    if back < 100 {
      ScanAsWrittenNone(lines, lineNo, back + 1);
    }
  }

  /** On a list that starts with the script's lines up to `lineNo`, a scan
      that stays inside the script places the event as the layout does. */
  lemma PlaceAsWrittenAgrees(file: seq<string>, lines: seq<Item>, e: Event)
    requires 1 <= LineNo(e) <= |lines| && LineNo(e) <= |file|
    requires lines[..LineNo(e)] == SrcLines(file)[..LineNo(e)]
    requires e.PrintItem? ==> ScanStaysIn(file, LineNo(e))
    ensures PlaceAsWritten(lines, e) == Ok(Placed(file, e))
  {
    if e.PrintItem? {
      var L := LineNo(e);
      forall j | 0 <= j < L
        ensures lines[j].Src?
      {
        assert lines[j] == lines[..L][j];
      }
      RecoverIndentPrefix(lines, SrcLines(file), L);
      NearestPrintLinePrefix(lines, SrcLines(file), L, 1);
      if NearestPrintLine(lines, L, 1).Some? {
        ScanAsWrittenAgrees(lines, L, 1);
      } else {
        ScanAsWrittenNone(lines, L, 1);
      }
    }
  }

  /** The rounds from `j` on, started from the layout of the events before
      `j`, end in the layout of all of them. */
  lemma {:induction false} InsertedFrom(file: seq<string>, order: seq<Event>, j: nat)
    requires Descending(order) && InRange(file, order) && ScansStayIn(file, order) && j <= |order|
    ensures InsertedAsWritten(Merged(file, Reverse(order[..j])), order[j..]) == Ok(Merged(file, Reverse(order)))
    decreases |order| - j
  {
    if j == |order| {
      assert order[..j] == order;
      assert order[j..] == [];
    } else {
      var e := order[j];
      var lines := Merged(file, Reverse(order[..j]));
      InsertStep(file, order, j);
      PlaceAsWrittenAgrees(file, lines, e);
      assert order[j..][1..] == order[j + 1..];
      InsertedFrom(file, order, j + 1);
    }
  }

  /** Sorting keeps every print's scan inside the script. */
  lemma SortDescStaysIn(file: seq<string>, es: seq<Event>)
    requires ScansStayIn(file, es)
    ensures ScansStayIn(file, SortDesc(es))
  {
    var r := SortDesc(es);
    assert forall i :: 0 <= i < |r| ==> r[i] in multiset(es);
  }

  /** The merge as written, when every line number and every scan stays
      inside the script, lays out the reversed event list. */
  lemma AsWrittenReverses(file: seq<string>, events: seq<Event>)
    requires InRange(file, events) && ScansStayIn(file, events)
    ensures MergedAsWritten(file, events) == Ok(Merged(file, Reverse(events)))
  {
    var order := SortDesc(events);
    SortDescInRange(file, events);
    SortDescStaysIn(file, events);
    assert order[..0] == [] && order[0..] == order;
    LayoutNoEvents(file);
    InsertedFrom(file, order, 0);
    MergedCongruent(file, Reverse(order), Reverse(events)) by {
      forall m | 0 < m
        ensures At(Reverse(order), m) == At(Reverse(events), m)
      {
        AtReverse(order, m);
        SortDescStable(events, m);
        AtReverse(events, m);
      }
    }
  }

  /** The two-line script of `ScanWrapsToIndexError` with one print on line
      2: the merge as written raises `IndexError`. */
  lemma MergeWrapsToIndexError(args: seq<PrintArg>)
    ensures MergedAsWritten(["x = 1", "if x: print(x)"], [PrintItem(PrintStatement(args, 2))]) == Err(IndexError)
  {
    var e: Event := PrintItem(PrintStatement(args, 2));
    var file := ["x = 1", "if x: print(x)"];
    assert SortDesc([e]) == [e];
    assert SrcLines(file) == [Src("x = 1"), Src("if x: print(x)")];
    ScanWrapsToIndexError();
  }

  /** A plot whose line lies beyond the script (one shown from another
      module) is appended after the script's last line. */
  lemma PlotBeyondScriptAppended(file: seq<string>, plot: PlotBlock)
    requires plot.lineNo >= |file|
    ensures MergedAsWritten(file, [PlotItem(plot)]) == Ok(SrcLines(file) + [PlotItem(plot)])
  {
    var e: Event := PlotItem(plot);
    var lines := SrcLines(file);
    assert SortDesc([e]) == [e];
    assert PlaceAsWritten(lines, e) == Ok(e);
    assert PyInsert(lines, LineNo(e), e) == lines + [e];
    assert [e][1..] == [];
    assert InsertedAsWritten(lines, [e]) == InsertedAsWritten(lines + [e], []);
  }

  /** The finding's two events of one line, both with scans inside the
      script: the merge as written shows them swapped. */
  lemma SameLineReversedAsWritten(file: seq<string>, a: Event, b: Event)
    requires 1 <= LineNo(a) == LineNo(b) <= |file|
    requires ScansStayIn(file, [a, b])
    ensures var L := LineNo(a);
      MergedAsWritten(file, [a, b]) == Ok(SrcLines(file)[..L] + [Placed(file, b), Placed(file, a)] + SrcLines(file)[L..])
  {
    AsWrittenReverses(file, [a, b]);
    SameLineOrder(file, a, b);
  }

  /** No two events share a line. */
  ghost predicate DistinctLines(es: seq<Event>)
  {
    forall i, j :: 0 <= i < j < |es| ==> LineNo(es[i]) != LineNo(es[j])
  }

  lemma {:induction false} AtDistinct(es: seq<Event>, k: int)
    requires DistinctLines(es)
    ensures |At(es, k)| <= 1
  {
    if es != [] {
      var init, last := es[..|es| - 1], es[|es| - 1];
      AtDistinct(init, k);
      if LineNo(last) == k {
        forall i | 0 <= i < |init|
          ensures LineNo(init[i]) != k
        {
          assert init[i] == es[i];
        }
        AtNone(init, k);
      }
    }
  }

  /** With no two events on one line, the order of same-line events cannot
      show: the layout of the reversed list is the layout of the list. */
  lemma DistinctLinesUnreversed(file: seq<string>, es: seq<Event>)
    requires DistinctLines(es)
    ensures Merged(file, Reverse(es)) == Merged(file, es)
  {
    forall m | 0 < m
      ensures At(Reverse(es), m) == At(es, m)
    {
      AtReverse(es, m);
      AtDistinct(es, m);
    }
    MergedCongruent(file, Reverse(es), es);
  }

  /** A print on a line that itself starts a print call takes that line's
      indent, and its scan stays inside the script. */
  lemma PlacedOnPrintLine(file: seq<string>, st: PrintStatement)
    requires 1 <= st.lineNo <= |file| && PrintCallIndent(file[st.lineNo - 1]).Some?
    ensures ScanStaysIn(file, st.lineNo)
    ensures Placed(file, PrintItem(st)) == PrintItem(st.(indent := PrintCallIndent(file[st.lineNo - 1]).value))
  {
    assert IsPrintLine(SrcLines(file), st.lineNo - 1);
  }

  /** Two prints recorded on a line that is itself a print call, such as the
      body `    print(i)` of `for i in range(2):`: the merge as written shows
      the second print first, both with that line's indent. */
  lemma LoopPrintsReversed(file: seq<string>, L: nat, first: seq<PrintArg>, second: seq<PrintArg>)
    requires 1 <= L <= |file| && PrintCallIndent(file[L - 1]).Some?
    ensures var n, src := PrintCallIndent(file[L - 1]).value, SrcLines(file);
      MergedAsWritten(file, [PrintItem(PrintStatement(first, L)), PrintItem(PrintStatement(second, L))])
        == Ok(src[..L] + [PrintItem(PrintStatement(second, L, n)), PrintItem(PrintStatement(first, L, n))] + src[L..])
  {
    var a, b := PrintStatement(first, L), PrintStatement(second, L);
    var ea: Event, eb: Event := PrintItem(a), PrintItem(b);
    PlacedOnPrintLine(file, a);
    PlacedOnPrintLine(file, b);
    ScansStayInPair(file, ea, eb);
    SameLineReversedAsWritten(file, ea, eb);
  }

  lemma ScansStayInPair(file: seq<string>, x: Event, y: Event)
    requires x.PrintItem? ==> ScanStaysIn(file, LineNo(x))
    requires y.PrintItem? ==> ScanStaysIn(file, LineNo(y))
    ensures ScansStayIn(file, [x, y])
  {
  }

  /** The body `    print(i)` is a print call with indent 4. */
  lemma LoopBodyIndent()
    ensures PrintCallIndent("    print(i)") == Some(4)
  {
    PrintCallIndentComplete(4, "i)");
    assert Spaces(4) + "print(" + "i)" == "    print(i)";
  }

  /* ---------- properties of the layout ---------- */

  /** With no events the merge returns `file_text.split('\n')` unchanged. */
  lemma LayoutNoEvents(file: seq<string>)
    ensures Merged(file, []) == SrcLines(file)
  {
    LayoutNoEventsFrom(file, 0);
  }

  lemma {:induction false} LayoutNoEventsFrom(file: seq<string>, k: nat)
    requires k <= |file|
    ensures LayoutFrom(file, [], k) == SrcLines(file)[k..]
    decreases |file| - k
  {
    if k < |file| {
      LayoutNoEventsFrom(file, k + 1);
    }
  }

  /** The source lines of a list, in order. */
  function Sources(items: seq<Item>): seq<string>
  {
    if items == [] then []
    else (if items[0].Src? then [items[0].text] else []) + Sources(items[1..])
  }

  lemma {:induction false} SourcesAppend(a: seq<Item>, b: seq<Item>)
    ensures Sources(a + b) == Sources(a) + Sources(b)
  {
    if a != [] {
      assert (a + b)[1..] == a[1..] + b;
      SourcesAppend(a[1..], b);
    } else {
      assert a + b == b;
    }
  }

  lemma {:induction false} SourcesOfEvents(es: seq<Event>)
    ensures Sources(es) == []
  {
    if es != [] {
      SourcesOfEvents(es[1..]);
    }
  }

  /** The script's lines all survive the merge, in order, and nothing else in
      the merged list is a line of text. */
  lemma {:induction false} LayoutKeepsLines(file: seq<string>, es: seq<Event>, k: nat)
    requires k <= |file|
    ensures Sources(LayoutFrom(file, es, k)) == file[k..]
    decreases |file| - k
  {
    if k < |file| {
      LayoutKeepsLines(file, es, k + 1);
      var evs: seq<Item> := At(es, k + 1);
      SourcesOfEvents(At(es, k + 1));
      SourcesAppend([Src(file[k])], evs);
      SourcesAppend([Src(file[k])] + evs, LayoutFrom(file, es, k + 1));
      assert file[k..] == [file[k]] + file[k + 1..];
    }
  }

  /** When every event is on line `L`, the merged list is the script up to
      line `L`, the events in the order given, then the rest of the script. */
  lemma OneLineLayout(file: seq<string>, es: seq<Event>, L: nat)
    requires 1 <= L <= |file|
    requires forall i :: 0 <= i < |es| ==> LineNo(es[i]) == L
    ensures Layout(file, es) == SrcLines(file)[..L] + es + SrcLines(file)[L..]
  {
    OneLineLayoutFrom(file, es, L, 0);
  }

  lemma {:induction false} OneLineLayoutFrom(file: seq<string>, es: seq<Event>, L: nat, k: nat)
    requires k < L <= |file|
    requires forall i :: 0 <= i < |es| ==> LineNo(es[i]) == L
    ensures LayoutFrom(file, es, k) == SrcLines(file)[k..L] + es + SrcLines(file)[L..]
    decreases L - k
  {
    var src := SrcLines(file);
    LayoutUnfold(file, es, k);
    if k == L - 1 {
      AtAll(es, L);
      forall m | L < m
        ensures At(es, m) == At([], m)
      {
        AtNone(es, m);
      }
      LayoutCongruent(file, es, [], L);
      LayoutNoEventsFrom(file, L);
      assert src[k..L] == [Src(file[k])];
    } else {
      AtNone(es, k + 1);
      OneLineLayoutFrom(file, es, L, k + 1);
      assert src[k..L] == [Src(file[k])] + src[k + 1..L];
      Assoc([Src(file[k])], src[k + 1..L] + es, src[L..]);
      Assoc([Src(file[k])], src[k + 1..L], es);
    }
  }

  /** Two events of one line, laid out in the order given. */
  lemma PairOnOneLine(file: seq<string>, x: Event, y: Event)
    requires 1 <= LineNo(x) == LineNo(y) <= |file|
    ensures var L := LineNo(x);
      Merged(file, [x, y]) == SrcLines(file)[..L] + [Placed(file, x), Placed(file, y)] + SrcLines(file)[L..]
  {
    var px, py := Placed(file, x), Placed(file, y);
    assert PlaceEach(file, [x, y]) == [px, py];
    OneLineLayout(file, [px, py], LineNo(x));
  }

  /** Two events of one line: the merge shows them in list order, while
      laying out the reversed list, as the loop of exec.py does, shows them
      swapped. */
  lemma SameLineOrder(file: seq<string>, a: Event, b: Event)
    requires 1 <= LineNo(a) == LineNo(b) <= |file|
    ensures var L, pa, pb := LineNo(a), Placed(file, a), Placed(file, b);
      && Merged(file, [a, b]) == SrcLines(file)[..L] + [pa, pb] + SrcLines(file)[L..]
      && Merged(file, Reverse([a, b])) == SrcLines(file)[..L] + [pb, pa] + SrcLines(file)[L..]
  {
    PairOnOneLine(file, a, b);
    PairOnOneLine(file, b, a);
    assert Reverse([a, b]) == [b, a];
  }

  /* ---------- which events the layout keeps ---------- */

  /** The events of lines `k + 1` to `n`, line by line, each line's events
      in their order in `es`. */
  function ByLine(es: seq<Event>, k: nat, n: nat): seq<Event>
    decreases n - k
  {
    if k >= n then [] else At(es, k + 1) + ByLine(es, k + 1, n)
  }

  /** One more event at the end of the list adds it once, if its line is
      among lines `k + 1` to `n`, and otherwise not at all. */
  lemma {:induction false} ByLineSnoc(es: seq<Event>, e: Event, k: nat, n: nat)
    ensures multiset(ByLine(es + [e], k, n))
         == multiset(ByLine(es, k, n)) + (if k < LineNo(e) <= n then multiset{e} else multiset{})
    decreases n - k
  {
    if k < n {
      var here := if LineNo(e) == k + 1 then [e] else [];
      AtSnoc(es, e, k + 1);
      ByLineSnoc(es, e, k + 1, n);
      MultisetOfThree(At(es, k + 1), here, ByLine(es + [e], k + 1, n));
    }
  }

  lemma AtSnoc(es: seq<Event>, e: Event, k: int)
    ensures At(es + [e], k) == At(es, k) + (if LineNo(e) == k then [e] else [])
  {
    assert (es + [e])[..|es|] == es;
  }

  lemma MultisetOfThree(a: seq<Event>, b: seq<Event>, c: seq<Event>)
    ensures multiset(a + b + c) == multiset(a) + multiset(b) + multiset(c)
  {
  }

  /** When every event lies on one of lines `1` to `n`, the lines hold every
      event exactly once. */
  lemma {:induction false} ByLineAll(es: seq<Event>, n: nat)
    requires forall i :: 0 <= i < |es| ==> 1 <= LineNo(es[i]) <= n
    ensures multiset(ByLine(es, 0, n)) == multiset(es)
  {
    if es == [] {
      ByLineEmpty(0, n);
    } else {
      var init, last := es[..|es| - 1], es[|es| - 1];
      ByLineAll(init, n);
      ByLineSnoc(init, last, 0, n);
      assert init + [last] == es;
    }
  }

  lemma {:induction false} ByLineEmpty(k: nat, n: nat)
    ensures ByLine([], k, n) == []
    decreases n - k
  {
    if k < n {
      ByLineEmpty(k + 1, n);
    }
  }

  /** Events on no line from `k + 1` to `n` appear on none of them. */
  lemma {:induction false} ByLineNone(es: seq<Event>, k: nat, n: nat)
    requires forall i :: 0 <= i < |es| ==> LineNo(es[i]) <= k || LineNo(es[i]) > n
    ensures ByLine(es, k, n) == []
    decreases n - k
  {
    if k < n {
      AtNone(es, k + 1);
      ByLineNone(es, k + 1, n);
    }
  }

  /** The corrected merge keeps every event, indent recovered, exactly once
      when every line number names a line of the script. */
  lemma MergedKeepsEvents(file: seq<string>, es: seq<Event>)
    requires InRange(file, es)
    ensures multiset(ByLine(PlaceEach(file, es), 0, |file|)) == multiset(PlaceEach(file, es))
  {
    ByLineAll(PlaceEach(file, es), |file|);
  }

  /** Events whose lines lie beyond the script, such as a plot shown from
      another module, have no line to follow in the corrected layout: none
      of them is among the layout's events.  The merge as written appends
      them instead (`PlotBeyondScriptAppended`), which is why the corrected
      merge is stated only for runs whose line numbers all name lines of
      the script. */
  lemma BeyondScriptDropped(file: seq<string>, es: seq<Event>)
    requires forall i :: 0 <= i < |es| ==> LineNo(es[i]) > |file|
    ensures ByLine(PlaceEach(file, es), 0, |file|) == []
  {
    ByLineNone(PlaceEach(file, es), 0, |file|);
  }
}
