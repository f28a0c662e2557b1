/**
 * `parse_config`: read a configuration file line by line, hand every parsed
 * line to `define_variable`, skip comments and blank lines, and stop at the
 * first syntax error.
 *
 * The file is given as the sequence of lines `getline` returns (each with its
 * '\n', the last one possibly without), or as None when `path` is NULL or
 * the file does not exist, is not readable or cannot be opened. The calls to
 * `define_variable` are recorded in order instead of being executed; the
 * store behind it is not part of this model.
 */
module Driver {
  import opened Wrappers
  import opened Chars
  import opened Values
  import opened Parser

  /** The ConfigVariable built for one parsed line: the key and what is stored under it. */
  datatype Definition = Definition(name: string, variable: Variable)

  /**
   * What `parse_config` returns (`code`), the 1-based number of the line it
   * stopped at (0 when it did not stop at an error) and the definitions it
   * made, in order.
   */
  datatype Report = Report(code: int, errorLine: nat, defined: seq<Definition>)

  /** The line `parse_line` is given: the C string with one trailing '\n' overwritten by NUL. */
  function Strip(line: string): (s: string)
    ensures s + (if |s| < |CString(line)| then "\n" else "") == CString(line)
    ensures |s| >= |CString(line)| - 1
    ensures |s| < |CString(line)| <==> |CString(line)| > 0 && CString(line)[|CString(line)| - 1] == '\n'
  {
    var c := CString(line);
    if |c| > 0 && c[|c| - 1] == '\n' then c[..|c| - 1] else c
  }

  /** The outcome of `parse_line` on every line, in order. */
  function Outcomes(lines: seq<string>): (os: seq<Outcome>)
    ensures |os| == |lines|
  {
    seq(|lines|, i requires 0 <= i < |lines| => ParseLine(Strip(lines[i])))
  }

  /** What a successfully parsed line defines; comments and blank lines define nothing. */
  function DefinitionOf(o: Outcome): seq<Definition> {
    if o.Parsed? then [Definition(o.key, Variable(o.vtype, o.values))] else []
  }

  /** The definitions the outcomes make, in order, as if none of them were an error. */
  function Definitions(os: seq<Outcome>): (ds: seq<Definition>)
    ensures |ds| <= |os|
  {
    if |os| == 0 then []
    else Definitions(os[..|os| - 1]) + DefinitionOf(os[|os| - 1])
  }

  /** The index of the first rejected line, if any. */
  function FirstError(os: seq<Outcome>): (r: Option<nat>)
    ensures r.Some? ==> r.value < |os| && os[r.value].SyntaxError?
  {
    if |os| == 0 then None
    else if FirstError(os[..|os| - 1]).Some? then FirstError(os[..|os| - 1])
    else if os[|os| - 1].SyntaxError? then Some(|os| - 1)
    else None
  }

  /** The result `parse_config` is specified to produce from the outcomes of its lines. */
  function Resolve(os: seq<Outcome>): Report {
    match FirstError(os)
    case Some(i) => Report(-1, i + 1, Definitions(os[..i]))
    case None => Report(if |Definitions(os)| == 0 then 1 else 0, 0, Definitions(os))
  }

  /**
   * The result `parse_config` is specified to produce: -1 when there is no
   * file; at the first rejected line, -1 with the definitions of the lines
   * before it; otherwise 1 when no line defined anything and 0 when some did.
   */
  function Expected(source: Option<seq<string>>): Report {
    match source
    case None => Report(-1, 0, [])
    case Some(lines) => Resolve(Outcomes(lines))
  }

  /** The line loop of `parse_config`. */
  method ParseConfig(source: Option<seq<string>>) returns (r: Report)
    ensures r == Expected(source)
    ensures r.code in {-1, 0, 1}
  {
    if source.None? {
      return Report(-1, 0, []);
    }
    var lines := source.value;
    ghost var os := Outcomes(lines);
    var defined: seq<Definition> := [];
    var isEmptyFile := true;
    var i := 0;
    while i < |lines|
      invariant 0 <= i <= |lines|
      invariant FirstError(os[..i]) == None
      invariant defined == Definitions(os[..i])
      invariant isEmptyFile <==> |defined| == 0
    {
      var outcome := ParseLine(Strip(lines[i]));
      assert outcome == os[i];
      if outcome.SyntaxError? {
        ErrorPrefix(os, i);
        return Report(-1, i + 1, defined);
      }
      NextLine(os, i);
      if outcome.Parsed? {
        isEmptyFile := false;
      }
      defined := defined + DefinitionOf(outcome);
      i := i + 1;
    }
    assert os[..i] == os;
    r := Report(if isEmptyFile then 1 else 0, 0, defined);
  }

  /** One more line that is not rejected: no error yet, and its definition follows the earlier ones. */
  lemma {:induction false} NextLine(os: seq<Outcome>, i: nat)
    requires i < |os| && FirstError(os[..i]) == None && !os[i].SyntaxError?
    ensures FirstError(os[..i + 1]) == None
    ensures Definitions(os[..i + 1]) == Definitions(os[..i]) + DefinitionOf(os[i])
  {
    assert os[..i + 1][..i] == os[..i];
  }

  /** A rejected line with no rejected line before it is the first error of any longer prefix. */
  lemma {:induction false} ErrorPrefix(os: seq<Outcome>, i: nat)
    requires i < |os| && FirstError(os[..i]) == None && os[i].SyntaxError?
    ensures FirstError(os) == Some(i)
    decreases |os|
  {
    var init := os[..|os| - 1];
    if i + 1 == |os| {
      assert init == os[..i];
    } else {
      assert init[..i] == os[..i];
      ErrorPrefix(init, i);
    }
  }

  // ---------------------------------------------------------------------------
  // Properties of the line loop
  // ---------------------------------------------------------------------------

  /** The definitions of the first lines are a prefix of the file's definitions. */
  lemma {:induction false} DefinitionsPrefix(os: seq<Outcome>, i: nat)
    requires i <= |os|
    ensures Definitions(os[..i]) <= Definitions(os)
    decreases |os|
  {
    if i < |os| {
      var init := os[..|os| - 1];
      assert init[..i] == os[..i];
      DefinitionsPrefix(init, i);
    } else {
      assert os[..i] == os;
    }
  }

  /** A prefix without rejected lines has no first error. */
  lemma {:induction false} NoErrorBefore(os: seq<Outcome>, i: nat)
    requires i <= |os|
    requires forall j | 0 <= j < i :: !os[j].SyntaxError?
    ensures FirstError(os[..i]) == None
    decreases i
  {
    if i > 0 {
      var p := os[..i];
      assert p[..i - 1] == os[..i - 1];
      assert p[i - 1] == os[i - 1];
      NoErrorBefore(os, i - 1);
    }
  }

  /**
   * Partial application: when `parse_config` stops at a rejected line, every
   * line before it has been defined, in order, and no line after it.
   */
  lemma {:induction false} StopsAtFirstError(os: seq<Outcome>, i: nat)
    requires i < |os| && os[i].SyntaxError?
    requires forall j | 0 <= j < i :: !os[j].SyntaxError?
    ensures Resolve(os) == Report(-1, i + 1, Definitions(os[..i]))
    ensures Definitions(os[..i]) <= Definitions(os)
  {
    NoErrorBefore(os, i);
    ErrorPrefix(os, i);
    DefinitionsPrefix(os, i);
  }

  /** The first error of a file is the first error of any longer file. */
  lemma {:induction false} FirstErrorAppend(os: seq<Outcome>, more: seq<Outcome>)
    requires FirstError(os).Some?
    ensures FirstError(os + more) == FirstError(os)
    decreases |more|
  {
    if |more| == 0 {
      assert os + more == os;
    } else {
      var m' := more[..|more| - 1];
      assert (os + more)[..|os + more| - 1] == os + m';
      FirstErrorAppend(os, m');
    }
  }

  /** Once a line is rejected, the lines after it change nothing. */
  lemma {:induction false} LaterLinesIgnored(os: seq<Outcome>, more: seq<Outcome>)
    requires FirstError(os).Some?
    ensures Resolve(os + more) == Resolve(os)
  {
    var i := FirstError(os).value;
    FirstErrorAppend(os, more);
    assert (os + more)[..i] == os[..i];
  }

  /** A file without definitions has no parsed line. */
  lemma {:induction false} NoDefinitionsNoParse(os: seq<Outcome>, j: nat)
    requires j < |os| && |Definitions(os)| == 0
    ensures !os[j].Parsed?
    decreases |os|
  {
    var init := os[..|os| - 1];
    if j < |os| - 1 {
      assert init[j] == os[j];
      NoDefinitionsNoParse(init, j);
    }
  }

  /** A file with a definition has a parsed line. */
  lemma {:induction false} SomeParsed(os: seq<Outcome>) returns (j: nat)
    requires |Definitions(os)| > 0
    ensures j < |os| && os[j].Parsed?
    decreases |os|
  {
    var init := os[..|os| - 1];
    if os[|os| - 1].Parsed? {
      j := |os| - 1;
    } else {
      j := SomeParsed(init);
      assert init[j] == os[j];
    }
  }

  /** A file with no rejected line returns 1 exactly when no line defines anything. */
  lemma {:induction false} EmptyFileCode(os: seq<Outcome>)
    requires FirstError(os) == None
    ensures Resolve(os).code == 1 <==> forall j | 0 <= j < |os| :: !os[j].Parsed?
  {
    if |Definitions(os)| == 0 {
      forall j | 0 <= j < |os| ensures !os[j].Parsed? {
        NoDefinitionsNoParse(os, j);
      }
    } else {
      var j := SomeParsed(os);
    }
  }

}
