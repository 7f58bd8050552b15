/** The markdown renderer hooks and `slugify` of notbook/render_tools.py.
    Regular-expression substitutions are written out as left-to-right scans
    with the same matching rules: leftmost match first, matches never
    overlap, and the non-greedy groups take the shortest span that lets the
    rest of the pattern match. */
module RenderTools {
  import opened Util

  /* ---------- slugify ---------- */

  /** `v.replace(' ', '-')` */
  function DashSpaces(v: string): (r: string)
    ensures |r| == |v|
    ensures forall i :: 0 <= i < |v| ==> r[i] == (if v[i] == ' ' then '-' else v[i])
  {
    MapSeq((c: char) => if c == ' ' then '-' else c, v)
  }

  /** `[a-zA-Z0-9_\-/.]` */
  predicate PathChar(c: char)
  {
    IsUpper(c) || IsLowerAlpha(c) || IsDigit(c) || c == '_' || c == '-' || c == '/' || c == '.'
  }

  /** `[a-z0-9_\-]` */
  predicate TitleChar(c: char)
  {
    IsLowerAlpha(c) || IsDigit(c) || c == '_' || c == '-'
  }

  /** The characters a slug of the given kind keeps. */
  predicate Allowed(c: char, pathLike: bool)
  {
    if pathLike then PathChar(c) else TitleChar(c)
  }

  /** `RE_URI_NOT_ALLOWED.sub('', v)` or `RE_TITLE_NOT_ALLOWED.sub('', v)`:
      every character outside the class removed. */
  function Keep(v: string, pathLike: bool): (r: string)
    ensures |r| <= |v|
    ensures forall i :: 0 <= i < |r| ==> Allowed(r[i], pathLike)
  {
    if v == [] then []
    else (if Allowed(v[0], pathLike) then [v[0]] else []) + Keep(v[1..], pathLike)
  }

  /** Removal works character by character: the kept part of a
      concatenation is the concatenation of the kept parts. */
  lemma {:induction false} KeepAppend(a: string, b: string, pathLike: bool)
    ensures Keep(a + b, pathLike) == Keep(a, pathLike) + Keep(b, pathLike)
  {
    if a == [] {
      assert a + b == b;
    } else {
      KeepAppend(a[1..], b, pathLike);
      assert (a + b)[0] == a[0];
      assert (a + b)[1..] == a[1..] + b;
      var h := if Allowed(a[0], pathLike) then [a[0]] else [];
      assert Keep(a + b, pathLike) == h + Keep(a[1..] + b, pathLike);
      Assoc(h, Keep(a[1..], pathLike), Keep(b, pathLike));
    }
  }

  /** Nothing is removed from a string of allowed characters. */
  lemma {:induction false} KeepAllowed(v: string, pathLike: bool)
    requires forall i :: 0 <= i < |v| ==> Allowed(v[i], pathLike)
    ensures Keep(v, pathLike) == v
  {
    if v != [] {
      KeepAllowed(v[1..], pathLike);
      assert [v[0]] + v[1..] == v;
    }
  }

  /** Any property of every character survives the removal. */
  lemma {:induction false} KeepPreserves(v: string, pathLike: bool, p: char -> bool)
    requires forall i :: 0 <= i < |v| ==> p(v[i])
    ensures forall i :: 0 <= i < |Keep(v, pathLike)| ==> p(Keep(v, pathLike)[i])
  {
    if v != [] {
      KeepPreserves(v[1..], pathLike, p);
      var head := if Allowed(v[0], pathLike) then [v[0]] else [];
      var r := head + Keep(v[1..], pathLike);
      forall i | 0 <= i < |r|
        ensures p(r[i])
      {
        if i >= |head| {
          assert r[i] == Keep(v[1..], pathLike)[i - |head|];
        }
      }
    }
  }

  function DigitRun(s: string): (n: nat)
    ensures n <= |s|
    ensures forall i :: 0 <= i < n ==> IsDigit(s[i])
    ensures n < |s| ==> !IsDigit(s[n])
  {
    if s != [] && IsDigit(s[0]) then 1 + DigitRun(s[1..]) else 0
  }

  predicate EntityNameChar(c: char)
  {
    IsLowerAlpha(c) || IsDigit(c)
  }

  function NameRun(s: string): (n: nat)
    ensures n <= |s|
    ensures forall i :: 0 <= i < n ==> EntityNameChar(s[i])
    ensures n < |s| ==> !EntityNameChar(s[n])
  {
    if s != [] && EntityNameChar(s[0]) then 1 + NameRun(s[1..]) else 0
  }

  /** The length of the match of `RE_HTML_SYMBOL`, `&(?:#\d{2,}|[a-z0-9]{2,});`,
      at the front of `s`, or 0.  The repetitions are greedy and `;` is in
      neither class, so only the maximal run can be followed by `;`. */
  function EntityLen(s: string): (n: nat)
    ensures n == 0 || (4 <= n <= |s| && s[0] == '&' && s[n - 1] == ';')
  {
    if |s| >= 2 && s[0] == '&' && s[1] == '#'
       && DigitRun(s[2..]) >= 2 && 2 + DigitRun(s[2..]) < |s| && s[2 + DigitRun(s[2..])] == ';'
    then 3 + DigitRun(s[2..])
    else if |s| >= 1 && s[0] == '&'
       && NameRun(s[1..]) >= 2 && 1 + NameRun(s[1..]) < |s| && s[1 + NameRun(s[1..])] == ';'
    then 2 + NameRun(s[1..])
    else 0
  }

  /** `RE_HTML_SYMBOL.sub('', v)` */
  function StripEntities(s: string): (r: string)
    ensures |r| <= |s|
    decreases |s|
  {
    if s == [] then []
    else if EntityLen(s) > 0 then StripEntities(s[EntityLen(s)..])
    else [s[0]] + StripEntities(s[1..])
  }

  /** Text without an ampersand has no entity to remove. */
  lemma {:induction false} NoAmpersandUnchanged(s: string)
    requires forall i :: 0 <= i < |s| ==> s[i] != '&'
    ensures StripEntities(s) == s
    decreases |s|
  {
    if s != [] {
      NoAmpersandUnchanged(s[1..]);
      assert [s[0]] + s[1..] == s;
    }
  }

  /** A named entity such as `&amp;` disappears entirely. */
  lemma NamedEntityDropped(name: string, rest: string)
    requires |name| >= 2 && forall i :: 0 <= i < |name| ==> EntityNameChar(name[i])
    ensures StripEntities("&" + name + ";" + rest) == StripEntities(rest)
  {
    var s := "&" + name + ";" + rest;
    assert s[1..] == name + ";" + rest;
    NameRunOf(name, ";" + rest);
    assert name + ";" + rest == name + (";" + rest);
    assert s[1 + |name|] == ';';
    assert s[2 + |name|..] == rest;
  }

  /** A numeric entity such as `&#39;` disappears entirely. */
  lemma NumericEntityDropped(digits: string, rest: string)
    requires |digits| >= 2 && forall i :: 0 <= i < |digits| ==> IsDigit(digits[i])
    ensures StripEntities("&#" + digits + ";" + rest) == StripEntities(rest)
  {
    var s := "&#" + digits + ";" + rest;
    assert s[2..] == digits + (";" + rest);
    DigitRunOf(digits, ";" + rest);
    assert s[2 + |digits|] == ';';
    assert s[3 + |digits|..] == rest;
  }

  lemma {:induction false} NameRunOf(name: string, rest: string)
    requires forall i :: 0 <= i < |name| ==> EntityNameChar(name[i])
    requires rest != [] && !EntityNameChar(rest[0])
    ensures NameRun(name + rest) == |name|
  {
    if name != [] {
      NameRunOf(name[1..], rest);
      assert (name + rest)[1..] == name[1..] + rest;
    } else {
      assert name + rest == rest;
    }
  }

  lemma {:induction false} DigitRunOf(digits: string, rest: string)
    requires forall i :: 0 <= i < |digits| ==> IsDigit(digits[i])
    requires rest != [] && !IsDigit(rest[0])
    ensures DigitRun(digits + rest) == |digits|
  {
    if digits != [] {
      DigitRunOf(digits[1..], rest);
      assert (digits + rest)[1..] == digits[1..] + rest;
    } else {
      assert digits + rest == rest;
    }
  }

  /** Any property of every character survives the removal of entities. */
  lemma {:induction false} StripEntitiesPreserves(s: string, p: char -> bool)
    requires forall i :: 0 <= i < |s| ==> p(s[i])
    ensures forall i :: 0 <= i < |StripEntities(s)| ==> p(StripEntities(s)[i])
    decreases |s|
  {
    if s != [] {
      var n := EntityLen(s);
      var tail := if n > 0 then s[n..] else s[1..];
      assert forall i :: 0 <= i < |tail| ==> p(tail[i]) by {
        forall i | 0 <= i < |tail|
          ensures p(tail[i])
        {
          assert tail[i] == s[i + (if n > 0 then n else 1)];
        }
      }
      StripEntitiesPreserves(tail, p);
      if n == 0 {
        ConsPreserves(s[0], StripEntities(tail), p);
      }
    }
  }

  /** A property of every character of `[c] + r` from one of `c` and of
      every character of `r`. */
  lemma ConsPreserves(c: char, r: string, p: char -> bool)
    requires p(c) && forall i :: 0 <= i < |r| ==> p(r[i])
    ensures forall i :: 0 <= i < |[c] + r| ==> p(([c] + r)[i])
  {
    forall i | 0 <= i < |[c] + r|
      ensures p(([c] + r)[i])
    {
      if i >= 1 {
        assert ([c] + r)[i] == r[i - 1];
      }
    }
  }

  /** No two dashes in a row. */
  predicate NoDoubleDash(s: string)
  {
    forall i :: 0 <= i < |s| - 1 && s[i] == '-' ==> s[i + 1] != '-'
  }

  /** `RE_REPEAT_DASH.sub('-', v)`: every run of dashes becomes one dash. */
  function CollapseDashes(s: string): (r: string)
    ensures |r| <= |s|
    ensures s != [] ==> r != [] && r[0] == s[0]
  {
    if |s| <= 1 then s
    else if s[0] == '-' && s[1] == '-' then CollapseDashes(s[1..])
    else [s[0]] + CollapseDashes(s[1..])
  }

  lemma {:induction false} CollapseNoDoubleDash(s: string)
    ensures NoDoubleDash(CollapseDashes(s))
  {
    if |s| > 1 {
      CollapseNoDoubleDash(s[1..]);
      if !(s[0] == '-' && s[1] == '-') {
        var rest := CollapseDashes(s[1..]);
        var r := [s[0]] + rest;
        forall i | 0 <= i < |r| - 1 && r[i] == '-'
          ensures r[i + 1] != '-'
        {
          assert r[i + 1] == rest[i];
          if i >= 1 {
            assert r[i] == rest[i - 1];
          }
        }
      }
    }
  }

  /** A string without two dashes in a row is left as it is. */
  lemma {:induction false} CollapseFixed(s: string)
    requires NoDoubleDash(s)
    ensures CollapseDashes(s) == s
  {
    if |s| > 1 {
      assert NoDoubleDash(s[1..]) by {
        forall i | 0 <= i < |s[1..]| - 1 && s[1..][i] == '-'
          ensures s[1..][i + 1] != '-'
        {
          assert s[1..][i] == s[i + 1] && s[1..][i + 1] == s[i + 2];
        }
      }
      CollapseFixed(s[1..]);
      assert [s[0]] + s[1..] == s;
    }
  }

  /** The text without its dashes. */
  function Undash(s: string): string
  {
    if s == [] then [] else (if s[0] == '-' then [] else [s[0]]) + Undash(s[1..])
  }

  /** Collapsing only ever removes dashes, and keeps one of every run. */
  lemma {:induction false} CollapseOnlyDashes(s: string)
    ensures Undash(CollapseDashes(s)) == Undash(s)
    ensures '-' in CollapseDashes(s) <==> '-' in s
  {
    if |s| > 1 {
      CollapseOnlyDashes(s[1..]);
      var rest := CollapseDashes(s[1..]);
      if s[0] == '-' && s[1] == '-' {
        assert s[1] in s;
      } else {
        var r := [s[0]] + rest;
        assert r[1..] == rest;
        assert '-' in r <==> s[0] == '-' || '-' in rest;
        assert s == [s[0]] + s[1..];
      }
    } else if |s| == 1 {
      assert s[1..] == [];
    }
  }

  /** Any property of every character survives collapsing. */
  lemma {:induction false} CollapsePreserves(s: string, p: char -> bool)
    requires forall i :: 0 <= i < |s| ==> p(s[i])
    ensures forall i :: 0 <= i < |CollapseDashes(s)| ==> p(CollapseDashes(s)[i])
  {
    if |s| > 1 {
      CollapsePreserves(s[1..], p);
      if !(s[0] == '-' && s[1] == '-') {
        var rest := CollapseDashes(s[1..]);
        var r := [s[0]] + rest;
        forall i | 0 <= i < |r|
          ensures p(r[i])
        {
          if i >= 1 {
            assert r[i] == rest[i - 1];
          }
        }
      }
    }
  }

  /** The characters `strip('_-')` removes. */
  predicate StripChar(c: char)
  {
    c == '_' || c == '-'
  }

  /** How many `_` and `-` the text starts with. */
  function LeadingStrip(s: string): (n: nat)
    ensures n <= |s|
    ensures forall k :: 0 <= k < n ==> StripChar(s[k])
    ensures n < |s| ==> !StripChar(s[n])
  {
    if s != [] && StripChar(s[0]) then 1 + LeadingStrip(s[1..]) else 0
  }

  /** How many `_` and `-` the text ends with. */
  function TrailingStrip(s: string): (n: nat)
    ensures n <= |s|
    ensures forall k :: |s| - n <= k < |s| ==> StripChar(s[k])
    ensures n < |s| ==> !StripChar(s[|s| - 1 - n])
  {
    if s != [] && StripChar(s[|s| - 1]) then 1 + TrailingStrip(s[..|s| - 1]) else 0
  }

  /** `strip('_-')`: the text after its leading `_`/`-`, up to its
      trailing ones; what is removed is all `_` or `-`, and neither end of
      what is left is. */
  function Strip(s: string): (r: string)
    ensures LeadingStrip(s) + |r| <= |s| && r == s[LeadingStrip(s)..LeadingStrip(s) + |r|]
    ensures forall k :: LeadingStrip(s) + |r| <= k < |s| ==> StripChar(s[k])
    ensures r != [] ==> !StripChar(r[0]) && !StripChar(r[|r| - 1])
  {
    var l := LeadingStrip(s);
    var u := s[l..];
    var t := TrailingStrip(u);
    assert forall k :: |s| - t <= k < |s| ==> s[k] == u[k - l];
    s[l..|s| - t]
  }

  /** The ends are already clean: nothing is stripped. */
  lemma StripClean(s: string)
    requires s != [] ==> !StripChar(s[0]) && !StripChar(s[|s| - 1])
    ensures Strip(s) == s
  {
  }

  /** The text after the removals of `slugify`, before dashes are
      collapsed. */
  function Kept(v: string, pathLike: bool): string
  {
    var w := Lower(DashSpaces(v));
    if pathLike then Keep(w, true) else Keep(StripEntities(w), false)
  }

  /** `slugify(v, path_like=...)`: spaces to dashes, lower case, the
      disallowed characters (and in title mode first the HTML entities)
      removed, dash runs collapsed, `_` and `-` stripped from both ends. */
  function Slugify(v: string, pathLike: bool): (r: string)
    ensures SlugShaped(r, pathLike)
  {
    var kept := Kept(v, pathLike);
    KeptShape(v, pathLike);
    CollapsePreserves(kept, (ch: char) => SlugChar(ch, pathLike));
    CollapseNoDoubleDash(kept);
    StripShape(CollapseDashes(kept), pathLike);
    Strip(CollapseDashes(kept))
  }

  predicate NotUpper(c: char) { !IsUpper(c) }

  /** A character a slug of the given kind may hold. */
  predicate SlugChar(c: char, pathLike: bool)
  {
    Allowed(c, pathLike) && !IsUpper(c)
  }

  /** What a slug looks like: allowed characters only, none of them an
      upper-case letter, no two dashes in a row, no `_` or `-` at either
      end. */
  predicate SlugShaped(r: string, pathLike: bool)
  {
    && (forall i :: 0 <= i < |r| ==> SlugChar(r[i], pathLike))
    && NoDoubleDash(r)
    && (r != [] ==> !StripChar(r[0]) && !StripChar(r[|r| - 1]))
  }

  lemma KeptShape(v: string, pathLike: bool)
    ensures forall i :: 0 <= i < |Kept(v, pathLike)| ==> SlugChar(Kept(v, pathLike)[i], pathLike)
  {
    var w := Lower(DashSpaces(v));
    assert forall i :: 0 <= i < |w| ==> NotUpper(w[i]);
    if pathLike {
      KeepPreserves(w, true, NotUpper);
    } else {
      StripEntitiesPreserves(w, NotUpper);
      KeepPreserves(StripEntities(w), false, NotUpper);
    }
  }

  lemma StripShape(c: string, pathLike: bool)
    requires forall i :: 0 <= i < |c| ==> SlugChar(c[i], pathLike)
    requires NoDoubleDash(c)
    ensures SlugShaped(Strip(c), pathLike)
  {
    var r := Strip(c);
    var i := LeadingStrip(c);
    forall k | 0 <= k < |r|
      ensures SlugChar(r[k], pathLike)
    {
      assert r[k] == c[i + k];
    }
    forall k | 0 <= k < |r| - 1 && r[k] == '-'
      ensures r[k + 1] != '-'
    {
      assert r[k] == c[i + k] && r[k + 1] == c[i + k + 1];
    }
  }

  /** A text of slug characters goes through the removals unchanged. */
  lemma KeptFixed(r: string, pathLike: bool)
    requires forall i :: 0 <= i < |r| ==> SlugChar(r[i], pathLike)
    ensures Kept(r, pathLike) == r
  {
    assert DashSpaces(r) == r;
    assert Lower(r) == r;
    if pathLike {
      KeepAllowed(r, true);
    } else {
      NoAmpersandUnchanged(r);
      KeepAllowed(r, false);
    }
  }

  /** Every slug-shaped text is its own slug. */
  lemma SlugFixed(r: string, pathLike: bool)
    requires SlugShaped(r, pathLike)
    ensures Slugify(r, pathLike) == r
  {
    KeptFixed(r, pathLike);
    CollapseFixed(r);
    StripClean(r);
  }

  /** A slug is its own slug. */
  lemma SlugifyIdempotent(v: string, pathLike: bool)
    ensures Slugify(Slugify(v, pathLike), pathLike) == Slugify(v, pathLike)
  {
    SlugFixed(Slugify(v, pathLike), pathLike);
  }

  /* ---------- header and triple emphasis ---------- */

  /** The `id` of a heading: its level, a dash, the title slug of its text. */
  function HeaderId(level: int, content: string): string
  {
    IntToString(level) + "-" + Slugify(content, false)
  }

  /** `CustomHtmlRenderer.header` */
  function Header(level: int, content: string): (r: string)
    ensures TagWithAttribute(r, "<h" + IntToString(level) + " id=\"", HeaderId(level, content), content)
  {
    var open, id := "<h" + IntToString(level) + " id=\"", HeaderId(level, content);
    var close := "</h" + IntToString(level) + ">\n";
    HeaderIdSafe(level, content);
    AttributeSlices(open, id, content, close);
    open + id + "\">" + content + close
  }

  /** `r` is `open`, then the attribute value `id`, which holds no `"`
      and so cannot end the attribute early, then `">`, then `content`
      verbatim, then the rest of the tag. */
  predicate TagWithAttribute(r: string, open: string, id: string, content: string)
  {
    && StartsWith(r, open)
    && |open| + |id| + 2 + |content| <= |r|
    && r[|open|..|open| + |id|] == id
    && (forall i :: |open| <= i < |open| + |id| ==> r[i] != '"')
    && r[|open| + |id|..|open| + |id| + 2] == "\">"
    && r[|open| + |id| + 2..|open| + |id| + 2 + |content|] == content
  }

  lemma AttributeSlices(open: string, id: string, content: string, close: string)
    requires forall i :: 0 <= i < |id| ==> TitleChar(id[i])
    ensures TagWithAttribute(open + id + "\">" + content + close, open, id, content)
  {
    var r := open + id + "\">" + content + close;
    Pieces5(open, id, "\">", content, close, []);
    assert r + [] == r;
    forall i | |open| <= i < |open| + |id|
      ensures r[i] != '"'
    {
      assert r[i] == id[i - |open|];
    }
  }

  /** The id is made of `[a-z0-9_-]` alone, so it never closes its
      attribute early or needs escaping. */
  lemma HeaderIdSafe(level: int, content: string)
    ensures forall i :: 0 <= i < |HeaderId(level, content)| ==> TitleChar(HeaderId(level, content)[i])
  {
    IntTitleChars(level);
    SlugTitleChars(content);
    DashJoin(IntToString(level), Slugify(content, false));
  }

  lemma IntTitleChars(n: int)
    ensures forall i :: 0 <= i < |IntToString(n)| ==> TitleChar(IntToString(n)[i])
  {
  }

  lemma SlugTitleChars(v: string)
    ensures forall i :: 0 <= i < |Slugify(v, false)| ==> TitleChar(Slugify(v, false)[i])
  {
  }

  lemma DashJoin(n: string, slug: string)
    requires forall i :: 0 <= i < |n| ==> TitleChar(n[i])
    requires forall i :: 0 <= i < |slug| ==> TitleChar(slug[i])
    ensures forall i :: 0 <= i < |n + "-" + slug| ==> TitleChar((n + "-" + slug)[i])
  {
    var id := n + "-" + slug;
    forall i | 0 <= i < |id|
      ensures TitleChar(id[i])
    {
      if i < |n| {
        assert id[i] == n[i];
      } else if i > |n| {
        assert id[i] == slug[i - |n| - 1];
      }
    }
  }

  /** Headings of different levels never share an id. */
  lemma HeaderIdsDistinct(level1: int, level2: int, content: string)
    requires level1 != level2
    ensures HeaderId(level1, content) != HeaderId(level2, content)
  {
    if HeaderId(level1, content) == HeaderId(level2, content) {
      var a, b := IntToString(level1), IntToString(level2);
      var slug := Slugify(content, false);
      var tail := "-" + slug;
      Assoc(a, "-", slug);
      Assoc(b, "-", slug);
      assert a + tail == b + tail;
      assert |a| == |b|;
      assert a == (a + tail)[..|a|] == (b + tail)[..|b|] == b;
      IntToStringRoundTrip(level1);
      IntToStringRoundTrip(level2);
    }
  }

  /** `CustomHtmlRenderer.triple_emphasis`: the content underlined. */
  function TripleEmphasis(content: string): (r: string)
    ensures |r| == |content| + 7 && r[3..|r| - 4] == content
  {
    "<u>" + content + "</u>"
  }

  /* ---------- lists ---------- */

  /** `pat` occurs in `s` at position `p`. */
  predicate At(s: string, p: nat, pat: string)
  {
    p + |pat| <= |s| && s[p..p + |pat|] == pat
  }

  /** The first position at or after `from` where `pat` occurs. */
  function Find(s: string, pat: string, from: nat): (r: Option<nat>)
    ensures r.Some? ==> from <= r.value && At(s, r.value, pat)
    ensures r.Some? ==> forall k :: from <= k < r.value ==> !At(s, k, pat)
    ensures r.None? ==> forall k :: from <= k ==> !At(s, k, pat)
    decreases |s| - from
  {
    if from + |pat| > |s| then None
    else if At(s, from, pat) then Some(from)
    else Find(s, pat, from + 1)
  }

  /** Where a definition item's `::` and its closing tag start. */
  datatype Span = Span(colon: nat, close: nat)

  /** `LI_REGEX`, `<li>(.*?)</li>` with DOTALL, matched at the front of
      `s`: where the first closing tag after the opening one starts. */
  function LiMatch(s: string): (r: Option<nat>)
    ensures r.Some? ==> 4 <= r.value && r.value + 5 <= |s|
  {
    if At(s, 0, "<li>") then Find(s, "</li>", 4) else None
  }

  /** `DL_REGEX`, `<li>(.*?)::(.*?)</li>` with DOTALL, matched at the front
      of `s`: where `::` and the closing tag start.  The groups are
      non-greedy, so the first `::` after the opening tag is tried first,
      and a later one cannot help when no closing tag follows the first. */
  function DlMatch(s: string): (r: Option<Span>)
    ensures r.Some? ==> 4 <= r.value.colon && r.value.colon + 2 <= r.value.close && r.value.close + 5 <= |s|
  {
    if !At(s, 0, "<li>") then None
    else
      match Find(s, "::", 4)
      case None => None
      case Some(c) =>
        match Find(s, "</li>", c + 2)
        case None => None
        case Some(e) => Some(Span(c, e))
  }

  /** `len(LI_REGEX.findall(s))` */
  function LiCount(s: string): nat
  {
    if s == [] then 0
    else
      var m := LiMatch(s);
      if m.Some? then 1 + LiCount(s[m.value + 5..]) else LiCount(s[1..])
  }

  /** `len(DL_REGEX.findall(s))` */
  function DlCount(s: string): nat
  {
    if s == [] then 0
    else
      var m := DlMatch(s);
      if m.Some? then 1 + DlCount(s[m.value.close + 5..]) else DlCount(s[1..])
  }

  /** The replacement `  <dt>\1</dt><dd>\2</dd>` of one item. */
  function Definition(term: string, definition: string): string
  {
    "  <dt>" + term + "</dt><dd>" + definition + "</dd>"
  }

  /** `DL_REGEX.sub(r'  <dt>\1</dt><dd>\2</dd>', s)` */
  function DlSub(s: string): string
  {
    if s == [] then []
    else
      var m := DlMatch(s);
      if m.Some? then Definition(s[4..m.value.colon], s[m.value.colon + 2..m.value.close]) + DlSub(s[m.value.close + 5..])
      else [s[0]] + DlSub(s[1..])
  }

  /** `CustomHtmlRenderer.list`: an unordered list all of whose items match
      the definition pattern becomes a definition list. */
  function List(content: string, isOrdered: bool, isBlock: bool): (r: string)
    ensures StartsWith(r, "<dl>\n") <==> !isOrdered && DlCount(content) == LiCount(content)
    ensures StartsWith(r, "<ol>\n") <==> isOrdered
    ensures !StartsWith(r, "<dl>\n") ==> |r| == |content| + 10 && r[5..|r| - 5] == content
  {
    if !isOrdered && DlCount(content) == LiCount(content) then "<dl>\n" + DlSub(content) + "</dl>"
    else if isOrdered then
      var r := "<ol>\n" + content + "</ol>";
      assert r[1] == 'o';
      r
    else
      var r := "<ul>\n" + content + "</ul>";
      assert r[1] == 'u';
      r
  }

  /** A term or a definition: no `<` (so no tag ends inside it). */
  predicate Untagged(t: string)
  {
    forall i :: 0 <= i < |t| ==> t[i] != '<'
  }

  /** A term: untagged and without `:` (so its `::` is the first). */
  predicate Term(t: string)
  {
    Untagged(t) && forall i :: 0 <= i < |t| ==> t[i] != ':'
  }

  /** One `<li>term::definition</li>` item followed by anything: both
      patterns match it, ending at its closing tag. */
  lemma DefinitionItem(t: string, d: string, rest: string)
    requires Term(t) && Untagged(d)
    ensures var s := "<li>" + t + "::" + d + "</li>" + rest;
      && DlMatch(s) == Some(Span(4 + |t|, 6 + |t| + |d|))
      && LiMatch(s) == Some(6 + |t| + |d|)
  {
    var s := "<li>" + t + "::" + d + "</li>" + rest;
    var c, e := 4 + |t|, 6 + |t| + |d|;
    Pieces5("<li>", t, "::", d, "</li>", rest);
    assert At(s, 0, "<li>");
    assert At(s, c, "::");
    assert At(s, e, "</li>");
    forall k | 4 <= k < c
      ensures s[k] != '<' && s[k] != ':'
    {
      assert s[k] == t[k - 4];
    }
    forall k | c + 2 <= k < e
      ensures s[k] != '<'
    {
      assert s[k] == d[k - c - 2];
    }
    ItemMatches(s, c, e);
  }

  /** Both patterns match an item whose term holds neither `<` nor `:`
      and whose definition holds no `<`. */
  lemma ItemMatches(s: string, c: nat, e: nat)
    requires 4 <= c && c + 2 <= e
    requires At(s, 0, "<li>") && At(s, c, "::") && At(s, e, "</li>")
    requires forall k :: 4 <= k < c ==> s[k] != '<' && s[k] != ':'
    requires forall k :: c + 2 <= k < e ==> s[k] != '<'
    ensures DlMatch(s) == Some(Span(c, e)) && LiMatch(s) == Some(e)
  {
    forall k | 4 <= k < e
      ensures !At(s, k, "</li>")
    {
      if k < c || k >= c + 2 {
        FirstCharDiffers(s, k, "</li>");
      } else {
        assert s[c..c + 2][k - c] == s[k];
        FirstCharDiffers(s, k, "</li>");
      }
    }
    forall k | 4 <= k < c
      ensures !At(s, k, "::")
    {
      FirstCharDiffers(s, k, "::");
    }
    FindFirst(s, "::", 4, c);
    FindFirst(s, "</li>", c + 2, e);
    FindFirst(s, "</li>", 4, e);
  }

  /** `pat` cannot occur where its first character does not. */
  lemma FirstCharDiffers(s: string, k: nat, pat: string)
    requires pat != [] && (k < |s| ==> s[k] != pat[0])
    ensures !At(s, k, pat)
  {
    if k + |pat| <= |s| {
      assert s[k..k + |pat|][0] == s[k];
    }
  }

  /** `Find` returns the first occurrence at or after its start. */
  lemma FindFirst(s: string, pat: string, from: nat, p: nat)
    requires from <= p && At(s, p, pat)
    requires forall k :: from <= k < p ==> !At(s, k, pat)
    ensures Find(s, pat, from) == Some(p)
  {
  }

  /** What one definition item contributes to the substitution and to
      both counts. */
  lemma DefinitionItemStep(t: string, d: string, rest: string)
    requires Term(t) && Untagged(d)
    ensures var s := "<li>" + t + "::" + d + "</li>" + rest;
      && DlSub(s) == Definition(t, d) + DlSub(rest)
      && DlCount(s) == 1 + DlCount(rest)
      && LiCount(s) == 1 + LiCount(rest)
  {
    var s := "<li>" + t + "::" + d + "</li>" + rest;
    var c, e := 4 + |t|, 6 + |t| + |d|;
    DefinitionItem(t, d, rest);
    ItemSlices(t, d, rest);
    SubStep(s, c, e, t, d, rest);
    DlCountStep(s, c, e, rest);
    LiCountStep(s, e, rest);
  }

  /** Where the term, the definition and the rest sit in an item. */
  lemma ItemSlices(t: string, d: string, rest: string)
    ensures var s := "<li>" + t + "::" + d + "</li>" + rest;
      var c, e := 4 + |t|, 6 + |t| + |d|;
      && e + 5 <= |s| && s[4..c] == t && s[c + 2..e] == d && s[e + 5..] == rest
  {
    Pieces5("<li>", t, "::", d, "</li>", rest);
  }

  /** The substitution of an item matched at the front of the text, and
      of what follows its closing tag. */
  lemma SubStep(s: string, c: nat, e: nat, t: string, d: string, rest: string)
    requires DlMatch(s) == Some(Span(c, e))
    requires s[4..c] == t && s[c + 2..e] == d && s[e + 5..] == rest
    ensures DlSub(s) == Definition(t, d) + DlSub(rest)
  {
    MatchedSub(s, c, e);
  }

  lemma DlCountStep(s: string, c: nat, e: nat, rest: string)
    requires DlMatch(s) == Some(Span(c, e)) && s[e + 5..] == rest
    ensures DlCount(s) == 1 + DlCount(rest)
  {
    MatchedDlCount(s, c, e);
  }

  lemma LiCountStep(s: string, e: nat, rest: string)
    requires LiMatch(s) == Some(e) && s[e + 5..] == rest
    ensures LiCount(s) == 1 + LiCount(rest)
  {
    MatchedLiCount(s, e);
  }

  /** The substitution of an item matched at the front of the text. */
  lemma MatchedSub(s: string, c: nat, e: nat)
    requires DlMatch(s) == Some(Span(c, e))
    ensures DlSub(s) == Definition(s[4..c], s[c + 2..e]) + DlSub(s[e + 5..])
  {
  }

  /** Counting goes on after the closing tag of a matched item. */
  lemma MatchedDlCount(s: string, c: nat, e: nat)
    requires DlMatch(s) == Some(Span(c, e))
    ensures DlCount(s) == 1 + DlCount(s[e + 5..])
  {
  }

  lemma MatchedLiCount(s: string, e: nat)
    requires LiMatch(s) == Some(e)
    ensures LiCount(s) == 1 + LiCount(s[e + 5..])
  {
  }

  /** One `<li>text</li>` item followed by anything. */
  lemma BulletItem(t: string, rest: string)
    requires Untagged(t)
    ensures LiMatch("<li>" + t + "</li>" + rest) == Some(4 + |t|)
  {
    var s := "<li>" + t + "</li>" + rest;
    var e := 4 + |t|;
    Pieces3("<li>", t, "</li>", rest);
    assert At(s, 0, "<li>");
    assert At(s, e, "</li>");
    forall k | 4 <= k < e
      ensures !At(s, k, "</li>")
    {
      assert s[k] == t[k - 4];
    }
    assert Find(s, "</li>", 4) == Some(e);
  }

  /** A character that cannot open an item is copied and counts nothing. */
  lemma SkipChar(c: char, rest: string)
    requires c != '<'
    ensures LiCount([c] + rest) == LiCount(rest)
    ensures DlCount([c] + rest) == DlCount(rest)
    ensures DlSub([c] + rest) == [c] + DlSub(rest)
  {
    var s := [c] + rest;
    assert !At(s, 0, "<li>") by {
      if |s| >= 4 {
        assert s[0..4][0] == c;
      }
    }
    assert s[1..] == rest;
  }

  /** The list body misaka hands over for definition items: one
      `<li>term::definition</li>` line per item. */
  function DefinitionItems(items: seq<(string, string)>): string
  {
    if items == [] then ""
    else "<li>" + items[0].0 + "::" + items[0].1 + "</li>" + ("\n" + DefinitionItems(items[1..]))
  }

  /** What the definition items become inside `<dl>`. */
  function DefinitionTerms(items: seq<(string, string)>): string
  {
    if items == [] then ""
    else Definition(items[0].0, items[0].1) + ("\n" + DefinitionTerms(items[1..]))
  }

  predicate WellFormedItems(items: seq<(string, string)>)
  {
    forall k :: 0 <= k < |items| ==> Term(items[k].0) && Untagged(items[k].1)
  }

  lemma {:induction false} DefinitionItemsScan(items: seq<(string, string)>)
    requires WellFormedItems(items)
    ensures DlSub(DefinitionItems(items)) == DefinitionTerms(items)
    ensures DlCount(DefinitionItems(items)) == |items|
    ensures LiCount(DefinitionItems(items)) == |items|
  {
    if items != [] {
      var t, d := items[0].0, items[0].1;
      var tail := items[1..];
      assert WellFormedItems(tail) by {
        forall k | 0 <= k < |tail|
          ensures Term(tail[k].0) && Untagged(tail[k].1)
        {
          assert tail[k] == items[k + 1];
        }
      }
      DefinitionItemsScan(tail);
      DefinitionItemStep(t, d, "\n" + DefinitionItems(tail));
      SkipChar('\n', DefinitionItems(tail));
    }
  }

  /** An unordered list whose every item is `term::definition` becomes a
      definition list, one `<dt>`/`<dd>` pair per item, in order. */
  lemma DefinitionList(items: seq<(string, string)>, isBlock: bool)
    requires WellFormedItems(items)
    ensures List(DefinitionItems(items), false, isBlock) == "<dl>\n" + DefinitionTerms(items) + "</dl>"
  {
    DefinitionItemsScan(items);
  }

  /** The list body misaka hands over for plain items. */
  function BulletItems(texts: seq<string>): string
  {
    if texts == [] then ""
    else "<li>" + texts[0] + "</li>" + ("\n" + BulletItems(texts[1..]))
  }

  /** Without a `::` anywhere nothing matches the definition pattern. */
  lemma {:induction false} NoColonNoDefinitions(s: string)
    requires forall i :: 0 <= i < |s| ==> s[i] != ':'
    ensures DlCount(s) == 0 && DlSub(s) == s
  {
    if s != [] {
      forall k | 4 <= k
        ensures !At(s, k, "::")
      {
        if k + 2 <= |s| {
          assert s[k..k + 2][0] == s[k];
        }
      }
      assert Find(s, "::", 4).None?;
      NoColonNoDefinitions(s[1..]);
      assert [s[0]] + s[1..] == s;
    }
  }

  lemma {:induction false} BulletItemsScan(texts: seq<string>)
    requires forall k :: 0 <= k < |texts| ==> Term(texts[k])
    ensures LiCount(BulletItems(texts)) == |texts|
  {
    if texts != [] {
      var t, tail := texts[0], texts[1..];
      assert forall k :: 0 <= k < |tail| ==> Term(tail[k]) by {
        forall k | 0 <= k < |tail|
          ensures Term(tail[k])
        {
          assert tail[k] == texts[k + 1];
        }
      }
      BulletItemsScan(tail);
      BulletItemStep(t, "\n" + BulletItems(tail));
      SkipChar('\n', BulletItems(tail));
    }
  }

  lemma BulletItemStep(t: string, rest: string)
    requires Untagged(t)
    ensures LiCount("<li>" + t + "</li>" + rest) == 1 + LiCount(rest)
  {
    BulletItem(t, rest);
    Pieces3("<li>", t, "</li>", rest);
  }

  /** Plain items bring no `:` into the list body. */
  lemma {:induction false} BulletItemsNoColon(texts: seq<string>)
    requires forall k :: 0 <= k < |texts| ==> Term(texts[k])
    ensures forall i :: 0 <= i < |BulletItems(texts)| ==> BulletItems(texts)[i] != ':'
  {
    if texts != [] {
      var t, tail := texts[0], texts[1..];
      assert forall k :: 0 <= k < |tail| ==> Term(tail[k]) by {
        forall k | 0 <= k < |tail|
          ensures Term(tail[k])
        {
          assert tail[k] == texts[k + 1];
        }
      }
      BulletItemsNoColon(tail);
      var rest := "\n" + BulletItems(tail);
      var s := "<li>" + t + "</li>" + rest;
      Pieces3("<li>", t, "</li>", rest);
      forall i | 0 <= i < |s|
        ensures s[i] != ':'
      {
        if i < 4 {
          assert s[i] == "<li>"[i];
        } else if i < 4 + |t| {
          assert s[i] == t[i - 4];
        } else if i < 4 + |t| + 5 {
          assert s[i] == "</li>"[i - 4 - |t|];
        } else if i == 4 + |t| + 5 {
          assert s[i] == rest[0];
        } else {
          assert s[i] == rest[i - 4 - |t| - 5];
        }
      }
    }
  }

  /** A non-empty unordered list of plain items stays a `<ul>`. */
  lemma BulletList(texts: seq<string>, isBlock: bool)
    requires texts != [] && forall k :: 0 <= k < |texts| ==> Term(texts[k])
    ensures List(BulletItems(texts), false, isBlock) == "<ul>\n" + BulletItems(texts) + "</ul>"
  {
    BulletItemsScan(texts);
    BulletItemsNoColon(texts);
    NoColonNoDefinitions(BulletItems(texts));
  }

  /** An ordered list is wrapped as it is, whatever its items hold. */
  lemma OrderedList(content: string, isBlock: bool)
    ensures List(content, true, isBlock) == "<ol>\n" + content + "</ol>"
  {
  }

  /** A body with no item at all counts zero of both patterns, so an
      unordered one comes out as an empty-handed `<dl>` around the body. */
  lemma {:induction false} NoItemsIsDefinitionList(content: string, isBlock: bool)
    requires forall i :: 0 <= i < |content| ==> content[i] != '<'
    ensures List(content, false, isBlock) == "<dl>\n" + content + "</dl>"
  {
    NoItemsScan(content);
  }

  lemma {:induction false} NoItemsScan(s: string)
    requires forall i :: 0 <= i < |s| ==> s[i] != '<'
    ensures LiCount(s) == 0 && DlCount(s) == 0 && DlSub(s) == s
  {
    if s != [] {
      NoItemsScan(s[1..]);
      SkipChar(s[0], s[1..]);
      assert [s[0]] + s[1..] == s;
    }
  }
}
