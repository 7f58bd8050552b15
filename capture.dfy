/** Capture of `print` calls (notbook/exec.py:174-214): `MockPrint` stands in
    for the builtin while the script runs and records one `PrintStatement`
    per call, each argument classified by `parse_print_value`.  The foreign
    pieces are parameters: devtools' `pformat` on other objects, and
    `json.loads` / `json.dumps(..., indent=2)` on a JSON value type `J`;
    which frame called and on which line are arguments of the call. */
module Capture {
  import opened Util
  import opened Models

  /** What a script may hand to `print`: the three types `parse_print_value`
      tells apart and everything else.  A `bool` is an `int` to `isinstance`
      but prints as `True`/`False`; a `float` carries its `str()` text. */
  datatype Value<O> =
    | PyStr(s: string)
    | PyInt(n: int)
    | PyBool(b: bool)
    | PyFloat(text: string)
    | Other(obj: O)

  /** `str(value)` for the printable builtins. */
  function StrOf<O>(v: Value<O>): string
    requires !v.Other?
  {
    match v
    case PyStr(s) => s
    case PyInt(n) => IntToString(n)
    case PyBool(b) => if b then "True" else "False"
    case PyFloat(text) => text
  }

  /** `re.fullmatch(r'{".+}', s, flags=re.DOTALL)` */
  predicate ObjectShaped(s: string)
  {
    |s| >= 4 && s[0] == '{' && s[1] == '"' && s[|s| - 1] == '}'
  }

  /** `re.fullmatch(r'\[.+\]', s, flags=re.DOTALL)` */
  predicate ArrayShaped(s: string)
  {
    |s| >= 3 && s[0] == '[' && s[|s| - 1] == ']'
  }

  /** The pattern `{".+}` read literally: the two opening characters, at
      least one character of any kind, the closing brace. */
  lemma ObjectShapedMeans(s: string)
    ensures ObjectShaped(s) <==> exists mid: string :: |mid| >= 1 && s == "{\"" + mid + "}"
  {
    if ObjectShaped(s) {
      var mid := s[2..|s| - 1];
      assert s == "{\"" + mid + "}";
    }
  }

  /** The pattern `\[.+\]` read literally. */
  lemma ArrayShapedMeans(s: string)
    ensures ArrayShaped(s) <==> exists mid: string :: |mid| >= 1 && s == "[" + mid + "]"
  {
    if ArrayShaped(s) {
      var mid := s[1..|s| - 1];
      assert s == "[" + mid + "]";
    }
  }

  /** The guard of the JSON attempt, before `json.loads` is tried. */
  predicate JsonCandidate(s: string)
  {
    |s| > 10 && (ObjectShaped(s) || ArrayShaped(s))
  }

  /** `parse_print_value`: pretty-formatted for other objects, re-dumped
      JSON for a long bracketed string that parses, `str()` otherwise. */
  function ParsePrintValue<O, J>(v: Value<O>, pformat: O -> string, loads: string -> Option<J>, dumps: J -> string): (r: PrintArg)
    ensures r.format == Py <==> v.Other?
    ensures r.format == Json <==> v.PyStr? && JsonCandidate(v.s) && loads(v.s).Some?
  {
    if v.Other? then PrintArg(pformat(v.obj), Py)
    else if v.PyStr? && JsonCandidate(v.s) && loads(v.s).Some? then
      PrintArg(dumps(loads(v.s).value), Json)
    else PrintArg(StrOf(v), Str)
  }

  /** A string of at most ten characters is printed as it is, whatever JSON
      it holds. */
  lemma ShortStringIsStr<O, J>(s: string, pformat: O -> string, loads: string -> Option<J>, dumps: J -> string)
    requires |s| <= 10
    ensures ParsePrintValue(PyStr(s), pformat, loads, dumps) == PrintArg(s, Str)
  {
  }

  /** `{"a": 1}` is valid JSON but eight characters long, so it stays 'str'. */
  lemma SmallObjectIsStr<O, J>(pformat: O -> string, loads: string -> Option<J>, dumps: J -> string)
    ensures ParsePrintValue(PyStr("{\"a\": 1}"), pformat, loads, dumps) == PrintArg("{\"a\": 1}", Str)
  {
  }

  /** Only the two bracket shapes are tried: a long JSON string literal
      such as `"hello world"` is printed as it is, even though it parses. */
  lemma QuotedStringIsStr<O, J>(pformat: O -> string, loads: string -> Option<J>, dumps: J -> string)
    ensures ParsePrintValue(PyStr("\"hello world\""), pformat, loads, dumps).format == Str
  {
  }

  /** A string that looks like JSON but does not parse falls back to 'str'. */
  lemma UnparsableIsStr<O, J>(s: string, pformat: O -> string, loads: string -> Option<J>, dumps: J -> string)
    requires loads(s).None?
    ensures ParsePrintValue(PyStr(s), pformat, loads, dumps) == PrintArg(s, Str)
  {
  }

  /** When `loads` reads back what `dumps` writes (as RFC 8259 JSON text
      does), the content of a 'json' argument denotes the same value as the
      string printed. */
  lemma JsonContentReparses<O, J(!new)>(s: string, pformat: O -> string, loads: string -> Option<J>, dumps: J -> string)
    requires forall j :: loads(dumps(j)) == Some(j)
    requires ParsePrintValue(PyStr(s), pformat, loads, dumps).format == Json
    ensures loads(ParsePrintValue(PyStr(s), pformat, loads, dumps).content) == loads(s)
  {
    var j := loads(s).value;
    assert loads(dumps(j)) == Some(j);
  }

  /** An integer's 'str' content reads back as the integer. */
  lemma IntContentReparses<O, J>(n: int, pformat: O -> string, loads: string -> Option<J>, dumps: J -> string)
    ensures var r := ParsePrintValue(PyInt(n), pformat, loads, dumps);
      r.format == Str && ParseInt(r.content) == Some(n)
  {
    IntToStringRoundTrip(n);
  }

  /** The list comprehension of `__call__`: one argument per value, in order. */
  function ParseArgs<O, J>(args: seq<Value<O>>, pformat: O -> string, loads: string -> Option<J>, dumps: J -> string): (r: seq<PrintArg>)
    ensures |r| == |args|
    ensures forall i :: 0 <= i < |args| ==> r[i] == ParsePrintValue(args[i], pformat, loads, dumps)
  {
    if args == [] then [] else [ParsePrintValue(args[0], pformat, loads, dumps)] + ParseArgs(args[1..], pformat, loads, dumps)
  }

  /** The `RuntimeError('in another file, todo')` of a call from another file. */
  datatype CaptureError = ForeignFile

  /** `MockPrint`: the `print` the script sees. */
  class MockPrint<O, J> {
    const pformat: O -> string
    const loads: string -> Option<J>
    const dumps: J -> string
    var statements: seq<PrintStatement>

    constructor (pformat: O -> string, loads: string -> Option<J>, dumps: J -> string)
      ensures this.pformat == pformat && this.loads == loads && this.dumps == dumps
      ensures statements == []
    {
      this.pformat := pformat;
      this.loads := loads;
      this.dumps := dumps;
      statements := [];
    }

    /** `__call__`: a call with an explicit `file=` goes to the real `print`
        and is not recorded; a call from another file raises; any other call
        appends exactly one statement with the caller's line number. */
    method Call(args: seq<Value<O>>, explicitFile: bool, sameFile: bool, lineNo: int) returns (r: Result<(), CaptureError>)
      modifies this
      ensures explicitFile ==> r == Ok(()) && statements == old(statements)
      ensures !explicitFile && !sameFile ==> r == Err(ForeignFile) && statements == old(statements)
      ensures !explicitFile && sameFile ==>
        r == Ok(()) && statements == old(statements) + [PrintStatement(ParseArgs(args, pformat, loads, dumps), lineNo)]
    {
      if explicitFile {
        return Ok(());
      }
      if !sameFile {
        return Err(ForeignFile);
      }
      var parsed := ParseArgs(args, pformat, loads, dumps);
      statements := statements + [PrintStatement(parsed, lineNo)];
      return Ok(());
    }
  }

  /** Three calls from a script, the middle one with `file=`: the recorded
      statements are the other two, in call order, with indent 0. */
  method CaptureScript<O, J>(pformat: O -> string, loads: string -> Option<J>, dumps: J -> string, a: seq<Value<O>>, b: seq<Value<O>>, c: seq<Value<O>>)
    returns (got: seq<PrintStatement>)
    ensures |got| == 2 && got[0].lineNo == 3 && got[1].lineNo == 9
    ensures got[0].args == ParseArgs(a, pformat, loads, dumps) && got[1].args == ParseArgs(c, pformat, loads, dumps)
    ensures got[0].indent == 0 && got[1].indent == 0
  {
    var mp := new MockPrint(pformat, loads, dumps);
    var _ := mp.Call(a, false, true, 3);
    var _ := mp.Call(b, true, true, 5);
    var _ := mp.Call(c, false, true, 9);
    got := mp.statements;
  }
}
