/** The line patterns `MakeSections` recognises (notbook/exec.py:92-137), as
    functions on one line.  Each regular expression of the source is matched
    from the start of the line (`re.match`), and a `.*` group takes the rest of
    the line, which never holds a newline because the script was split on
    newlines.  Every matcher comes with a lemma that it accepts exactly the
    lines of the pattern's shape and returns the group the source reads. */
module Markers {
  import opened Util
  import opened Models

  /* ---------- block markers: ` *# *{ *(.*)` and ` *# *} *(.*)` ---------- */

  /** `line` without its leading spaces: what follows a ` *` at the start. */
  function SkipSpaces(line: string): (r: string)
    ensures r == [] || r[0] != ' '
  {
    line[LeadingSpaces(line)..]
  }

  lemma SkipSpacesOf(n: nat, rest: string)
    requires rest == [] || rest[0] != ' '
    ensures SkipSpaces(Spaces(n) + rest) == rest
  {
    LeadingSpacesOfSpaces(n, rest);
  }

  /** The group of ` *# *<brace> *(.*)` if `line` matches it. */
  function MatchMarker(line: string, brace: char): Option<string>
  {
    var s := SkipSpaces(line);
    if s != [] && s[0] == '#' then
      var t := SkipSpaces(s[1..]);
      if t != [] && t[0] == brace then Some(SkipSpaces(t[1..])) else None
    else None
  }

  /** `# {` opens a block; the group is its title. */
  function MatchOpen(line: string): Option<string>
  {
    MatchMarker(line, '{')
  }

  /** `# }` closes a block; the group is its caption. */
  function MatchClose(line: string): Option<string>
  {
    MatchMarker(line, '}')
  }

  /** The shape of a marker line: spaces, `#`, spaces, the brace, spaces, rest. */
  function MarkerLine(a: nat, b: nat, brace: char, c: nat, rest: string): string
  {
    Spaces(a) + ("#" + (Spaces(b) + ([brace] + (Spaces(c) + rest))))
  }

  /** Every line of the marker's shape matches, and the group is what follows
      the spaces after the brace. */
  lemma MatchMarkerComplete(a: nat, b: nat, brace: char, c: nat, rest: string)
    requires brace != ' '
    requires rest == [] || rest[0] != ' '
    ensures MatchMarker(MarkerLine(a, b, brace, c, rest), brace) == Some(rest)
  {
    var u := Spaces(c) + rest;
    var t := [brace] + u;
    var s := "#" + (Spaces(b) + t);
    SkipSpacesOf(a, s);
    assert s[1..] == Spaces(b) + t;
    SkipSpacesOf(b, t);
    assert t[1..] == u;
    SkipSpacesOf(c, rest);
  }

  /** A line of the marker's shape does not match the other brace: `# }` is
      no `# {`. */
  lemma MatchMarkerOther(a: nat, b: nat, brace: char, c: nat, rest: string, other: char)
    requires brace != ' ' && other != brace
    ensures MatchMarker(MarkerLine(a, b, brace, c, rest), other) == None
  {
    var u := Spaces(c) + rest;
    var t := [brace] + u;
    var s := "#" + (Spaces(b) + t);
    SkipSpacesOf(a, s);
    assert s[1..] == Spaces(b) + t;
    SkipSpacesOf(b, t);
  }

  /** Only lines of the marker's shape match, and the group starts with no space. */
  lemma MatchMarkerSound(line: string, brace: char)
    requires MatchMarker(line, brace).Some?
    ensures var rest := MatchMarker(line, brace).value;
      && (rest == [] || rest[0] != ' ')
      && exists a, b, c :: line == MarkerLine(a, b, brace, c, rest)
  {
    var s := SkipSpaces(line);
    var t := SkipSpaces(s[1..]);
    var rest := SkipSpaces(t[1..]);
    assert MatchMarker(line, brace) == Some(rest);
    SpacesPrefix(line);
    SpacesPrefix(s[1..]);
    SpacesPrefix(t[1..]);
    var a, b, c := LeadingSpaces(line), LeadingSpaces(s[1..]), LeadingSpaces(t[1..]);
    HeadTail(t);
    assert t == [brace] + (Spaces(c) + rest);
    HeadTail(s);
    assert s == "#" + (Spaces(b) + t);
    assert line == MarkerLine(a, b, brace, c, rest);
  }

  lemma HeadTail(s: string)
    requires s != []
    ensures s == [s[0]] + s[1..]
  {
  }

  /** `group(1) or None`: an empty title or caption counts as none. */
  function NameOf(rest: string): (r: Option<string>)
    ensures r.None? <==> rest == []
    ensures r.Some? ==> r.value == rest
  {
    if rest == [] then None else Some(rest)
  }

  predicate IsMarker(line: string)
  {
    MatchOpen(line).Some? || MatchClose(line).Some?
  }

  /* ---------- quote openers: ` *("""|''')(.*)` ---------- */

  datatype Quote = DoubleQuotes | SingleQuotes
  {
    /** The three quote characters. */
    function Text(): (r: string)
      ensures |r| == 3
    {
      if DoubleQuotes? then "\"\"\"" else "'''"
    }
  }

  /** The quotes and the rest of the line if `line` opens a triple quote;
      `"""` is tried before `'''`, as in the alternation. */
  function MatchQuoteOpen(line: string): Option<(Quote, string)>
  {
    var s := SkipSpaces(line);
    if StartsWith(s, DoubleQuotes.Text()) then Some((DoubleQuotes, s[3..]))
    else if StartsWith(s, SingleQuotes.Text()) then Some((SingleQuotes, s[3..]))
    else None
  }

  predicate IsQuoteOpener(line: string)
  {
    MatchQuoteOpen(line).Some?
  }

  /** Spaces, three quotes and anything: the line opens a quote with those quotes. */
  lemma MatchQuoteOpenComplete(a: nat, q: Quote, rest: string)
    ensures MatchQuoteOpen(Spaces(a) + q.Text() + rest) == Some((q, rest))
  {
    var t := q.Text() + rest;
    assert Spaces(a) + q.Text() + rest == Spaces(a) + t;
    assert t[0] == q.Text()[0] != ' ';
    SkipSpacesOf(a, t);
    assert t[..3] == q.Text();
    assert t[3..] == rest;
    if q.SingleQuotes? {
      assert t[..3][0] == '\'';
    }
  }

  lemma MatchQuoteOpenSound(line: string)
    requires MatchQuoteOpen(line).Some?
    ensures var (q, rest) := MatchQuoteOpen(line).value;
      line == Spaces(LeadingSpaces(line)) + q.Text() + rest
  {
    var n := LeadingSpaces(line);
    var s := SkipSpaces(line);
    SpacesPrefix(line);
    assert line == Spaces(n) + s;
    var (q, rest) := MatchQuoteOpen(line).value;
    assert s[..3] == q.Text() && rest == s[3..];
    assert s == s[..3] + s[3..];
    Assoc(Spaces(n), q.Text(), rest);
  }

  /** A marker line is not a quote opener: after the spaces comes `#`. */
  lemma MarkerIsNoQuote(line: string)
    requires IsMarker(line)
    ensures !IsQuoteOpener(line)
  {
    var s := SkipSpaces(line);
    assert s != [] && s[0] == '#' by {
      assert MatchMarker(line, '{').Some? || MatchMarker(line, '}').Some?;
    }
    NoQuoteAt(s, DoubleQuotes);
    NoQuoteAt(s, SingleQuotes);
  }

  lemma NoQuoteAt(s: string, q: Quote)
    requires s != [] && s[0] == '#'
    ensures !StartsWith(s, q.Text())
  {
    if |s| >= 3 {
      assert s[..3][0] == '#';
      assert q.Text()[0] != '#';
    }
  }

  /* ---------- the documentation tag: `(md|html)\w*(.*)` ---------- */

  /** `\w` on ASCII: letters, digits and the underscore. */
  predicate IsWordChar(c: char)
  {
    IsUpper(c) || IsLowerAlpha(c) || IsDigit(c) || c == '_'
  }

  /** Length of the run of word characters that starts `s`. */
  function WordSpan(s: string): (n: nat)
    ensures n <= |s|
    ensures forall i :: 0 <= i < n ==> IsWordChar(s[i])
    ensures n == |s| || !IsWordChar(s[n])
  {
    if s == [] || !IsWordChar(s[0]) then 0 else 1 + WordSpan(s[1..])
  }

  /** The renderer and the rest of the line if the text after the opening
      quotes starts with `md` or `html`: the word characters that follow the
      tag are dropped and the rest is kept. */
  function MatchTag(s: string): Option<(TextFormat, string)>
  {
    if StartsWith(s, "md") then Some((Md, s[2 + WordSpan(s[2..])..]))
    else if StartsWith(s, "html") then Some((Html, s[4 + WordSpan(s[4..])..]))
    else None
  }

  lemma WordSpanOf(w: string, rest: string)
    requires forall i :: 0 <= i < |w| ==> IsWordChar(w[i])
    requires rest == [] || !IsWordChar(rest[0])
    ensures WordSpan(w + rest) == |w|
  {
    if w != [] {
      assert (w + rest)[1..] == w[1..] + rest;
      WordSpanOf(w[1..], rest);
    }
  }

  /** The tag, a run of word characters, then a rest that does not continue
      the run: the rest is what the source keeps. */
  lemma MatchTagComplete(f: TextFormat, w: string, rest: string)
    requires forall i :: 0 <= i < |w| ==> IsWordChar(w[i])
    requires rest == [] || !IsWordChar(rest[0])
    ensures MatchTag(f.Name() + w + rest) == Some((f, rest))
  {
    var n := |f.Name()|;
    var s := f.Name() + w + rest;
    assert s[..n] == f.Name();
    assert s[n..] == w + rest;
    WordSpanOf(w, rest);
    assert s[n + |w|..] == rest;
    if f.Html? {
      assert s[0] == 'h';
      assert !StartsWith(s, "md") by {
        if |s| >= 2 {
          assert s[..2][0] == 'h';
        }
      }
    }
  }

  lemma MatchTagSound(s: string)
    requires MatchTag(s).Some?
    ensures var (f, rest) := MatchTag(s).value;
      var n := |f.Name()|;
      && StartsWith(s, f.Name())
      && |rest| <= |s| - n
      && s == f.Name() + s[n..|s| - |rest|] + rest
      && (forall i :: n <= i < |s| - |rest| ==> IsWordChar(s[i]))
      && (rest == [] || !IsWordChar(rest[0]))
  {
    var (f, rest) := MatchTag(s).value;
    var n := |f.Name()|;
    assert s == s[..n] + s[n..|s| - |rest|] + s[|s| - |rest|..];
  }

  /** `"""markdown` is not a documentation quote: `md` must be the literal start. */
  lemma MarkdownIsNoTag()
    ensures MatchTag("markdown") == None
    ensures MatchTag("md") == Some((Md, ""))
    ensures MatchTag("html x") == Some((Html, " x"))
  {
    assert "markdown"[..2][1] == 'a';
    assert "markdown"[..4][0] == 'm';
    assert "md"[..2] == "md";
    assert WordSpan("") == 0;
    assert "html x"[..2][0] == 'h';
    assert "html x"[..4] == "html";
    assert " x"[0] == ' ';
    assert WordSpan(" x") == 0;
  }

  /* ---------- the closing line: `(.*)<quotes>` ---------- */

  predicate OccursAt(line: string, q: string, j: int)
  {
    0 <= j && j + |q| <= |line| && line[j..j + |q|] == q
  }

  /** The last start position of `q` in `line` at or before `j`. */
  function LastOccurrence(line: string, q: string, j: int): (r: Option<nat>)
    ensures r.Some? ==> r.value <= j && OccursAt(line, q, r.value)
    ensures r.Some? ==> forall i :: r.value < i <= j ==> !OccursAt(line, q, i)
    ensures r.None? ==> forall i :: i <= j ==> !OccursAt(line, q, i)
    decreases j + 1
  {
    if j < 0 then None
    else if OccursAt(line, q, j) then Some(j)
    else LastOccurrence(line, q, j - 1)
  }

  /** The group of `(.*)<quotes>`: the greedy `.*` makes it everything before
      the last occurrence of the quotes. */
  function MatchClosing(line: string, q: Quote): (r: Option<string>)
    ensures r.Some? ==> |r.value| + 3 <= |line| && line[..|r.value|] == r.value
    ensures r.Some? ==> OccursAt(line, q.Text(), |r.value|)
  {
    match LastOccurrence(line, q.Text(), |line|)
    case Some(j) => Some(line[..j])
    case None => None
  }

  /** The line closes the span exactly when the quotes occur in it, and the
      group ends at their last occurrence. */
  lemma MatchClosingLast(line: string, q: Quote)
    ensures MatchClosing(line, q).Some? <==> exists j :: OccursAt(line, q.Text(), j)
    ensures MatchClosing(line, q).Some? ==>
      forall i :: |MatchClosing(line, q).value| < i ==> !OccursAt(line, q.Text(), i)
  {
    var r := LastOccurrence(line, q.Text(), |line|);
    if r.None? {
      forall j
        ensures !OccursAt(line, q.Text(), j)
      {
        if j > |line| {
          assert j + 3 > |line|;
        }
      }
    }
  }

  /** A line that ends with the quotes closes the span, and the group is all
      of the line before them, whatever it holds. */
  lemma ClosingAtEnd(before: string, q: Quote)
    ensures MatchClosing(before + q.Text(), q) == Some(before)
  {
    var line := before + q.Text();
    assert line[|before|..|before| + 3] == q.Text();
    assert OccursAt(line, q.Text(), |before|);
    var r := LastOccurrence(line, q.Text(), |line|);
    assert r.Some? && r.value == |before|;
    assert line[..|before|] == before;
  }

  lemma ClosingExample()
    ensures MatchClosing("end \"\"\" and \"\"\"!", DoubleQuotes) == Some("end \"\"\" and ")
    ensures MatchClosing("no quotes", SingleQuotes) == None
  {
    var line := "end \"\"\" and \"\"\"!";
    assert OccursAt(line, "\"\"\"", 12);
    assert line[13..16][2] == '!';
    assert !OccursAt(line, "\"\"\"", 14);
    assert !OccursAt(line, "\"\"\"", 15);
    assert !OccursAt(line, "\"\"\"", 16);
    assert line[..12] == "end \"\"\" and ";
    NoOccurrence("no quotes", "'''");
    MatchClosingLast("no quotes", SingleQuotes);
  }

  /** A line without the first quote character holds no closing quotes. */
  lemma NoOccurrence(line: string, q: string)
    requires q != [] && forall i :: 0 <= i < |line| ==> line[i] != q[0]
    ensures forall j :: !OccursAt(line, q, j)
  {
    forall j
      ensures !OccursAt(line, q, j)
    {
      if 0 <= j && j + |q| <= |line| {
        assert line[j..j + |q|][0] != q[0];
      }
    }
  }
}
