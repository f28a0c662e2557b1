/**
 * Properties of `parse_line` stated over whole lines: how blank and comment
 * lines are recognised, which malformed lines are rejected, and how numbers
 * are read.
 */
module ParserFacts {
  import opened Chars
  import opened Values
  import opened Parser
  import opened Render
  import opened ParserWalk
  import opened RoundTrip
  import Decimal

  // ---------------------------------------------------------------------------
  // Blank and comment lines
  // ---------------------------------------------------------------------------

  /** No transition leads back to START or into COMMENT from elsewhere. */
  lemma {:induction false} StepAvoidsStart(text: string, pos: nat, m: Machine)
    requires pos < |text| && Placed(m, pos) && m.state !in {Start, Comment}
    ensures Step(text, pos, m).state !in {Start, Comment}
  {
    match m.state
    case Key =>
    case SpacesAfterKey =>
    case SpacesBeforeValues =>
    case ValueDigit =>
    case ValueDouble =>
    case ValueString =>
    case ValueStringSlash =>
    case ValueArray =>
    case NextString =>
    case NextStringSlash =>
    case SpacesAfterArraysString =>
    case SpacesBeforeArraysString =>
    case NextDigit =>
    case SpacesAfterArraysLong =>
    case SpacesBeforeArraysLong =>
    case NextExpectedLong =>
    case NextDouble =>
    case SpacesAfterArraysDouble =>
    case SpacesBeforeArraysDouble =>
    case NextExpectedDouble =>
    case NextExactlyDouble =>
    case Error =>
    case Finish =>
  }

  lemma {:induction false} RunAvoidsStart(text: string, pos: nat, m: Machine)
    requires pos <= |text| && Placed(m, pos) && m.state !in {Start, Comment}
    ensures Run(text, pos, m).0.state !in {Start, Comment}
    decreases |text| - pos
  {
    if pos < |text| && !Halting(m.state) {
      StepAvoidsStart(text, pos, m);
      RunStep(text, pos, m, Step(text, pos, m));
      RunAvoidsStart(text, pos + 1, Step(text, pos, m));
    }
  }

  /** The first character after the indentation decides between START, COMMENT and the rest. */
  lemma {:induction false} FirstSymbol(text: string)
    ensures Run(text, 0, Initial).0.state == Start <==> Indent(text) == |text|
    ensures Run(text, 0, Initial).0.state == Comment <==>
              Indent(text) < |text| && text[Indent(text)] == '#'
  {
    var i := Indent(text);
    SkipBlanks(text, 0, i, Initial);
    if i < |text| {
      var m1 := Step(text, i, Initial);
      RunStep(text, i, Initial, m1);
      if text[i] == '#' {
        RunHalted(text, i + 1, m1);
      } else {
        RunAvoidsStart(text, i + 1, m1);
      }
    }
  }

  /** A line is blank exactly when it holds nothing but spaces, tabs and newlines before its NUL. */
  lemma {:induction false} BlankLineIff(line: string)
    ensures ParseLine(line) == BlankLine <==> AllBlank(CString(line))
  {
    var text := CString(line);
    FirstSymbol(text);
    if AllBlank(text) {
      AllBlankIndent(text);
    }
    if Indent(text) == |text| {
      assert text[..|text|] == text;
    }
  }

  /** A line is a comment exactly when its first character after the indentation is '#'. */
  lemma {:induction false} CommentLineIff(line: string)
    ensures ParseLine(line) == CommentLine <==>
              Indent(CString(line)) < |CString(line)| && CString(line)[Indent(CString(line))] == '#'
  {
    FirstSymbol(CString(line));
  }

  // ---------------------------------------------------------------------------
  // Malformed keys
  // ---------------------------------------------------------------------------

  lemma {:induction false} KeyNoNul(k: string)
    requires IsKey(k)
    ensures '\0' !in k
  {
    assert forall i | 0 <= i < |k| :: k[i] != '\0';
  }

  /** The machine halts in ERROR; the line is a syntax error whatever follows. */
  lemma {:induction false} ErrorLine(text: string, p: nat, m: Machine)
    requires p <= |text| && Placed(m, p) && m.state == Error
    requires Run(text, 0, Initial) == Run(text, p, m)
    ensures ParseText(text) == SyntaxError
  {
    RunHalted(text, p, m);
  }

  /** A transition into ERROR ends the line as a syntax error. */
  lemma {:induction false} StepToError(text: string, p: nat, m: Machine)
    requires p < |text| && Placed(m, p) && !Halting(m.state) && Step(text, p, m).state == Error
    requires Run(text, 0, Initial) == Run(text, p, m)
    ensures ParseText(text) == SyntaxError
  {
    RunStep(text, p, m, Step(text, p, m));
    ErrorLine(text, p + 1, Step(text, p, m));
  }

  /** The text the parser sees for `a + b + rest`, and where `b` lies in it. */
  lemma {:induction false} Layout(a: string, b: string, rest: string)
    requires '\0' !in a + b
    ensures ParseLine(a + b + rest) == ParseText(a + b + CString(rest))
    ensures (a + b + CString(rest))[..|a|] == a
    ensures (a + b + CString(rest))[|a|..|a| + |b|] == b
  {
    SeenText(a + b, rest);
    var text := a + b + CString(rest);
    assert text[..|a + b|] == a + b;
    assert text[0..|a + b|] == text[..|a + b|];
    SplitSlice(text, 0, |a + b|, a, b);
  }

  /**
   * A character the KEY state rejects (a digit, a tab, punctuation, ...) right
   * after a key makes the line a syntax error.
   */
  lemma {:induction false} KeyBadChar(k: string, c: char, rest: string)
    requires IsKey(k) && KeyRejects(c) && c != '\0'
    ensures ParseLine(k + [c] + rest) == SyntaxError
  {
    KeyNoNul(k);
    Layout(k, [c], rest);
    var text := k + [c] + CString(rest);
    assert text[|k|] == c by { assert text[|k|] == text[|k|..|k| + 1][0]; }
    assert text[0..|k|] == k;
    ReadKey(text, 0, |k|, Initial);
    StepToError(text, |k|, Initial.(state := Key, keyBegin := 0));
  }

  /** A second word after the key and a space (`bad key=...`) makes the line a syntax error. */
  lemma {:induction false} SecondWord(k: string, c: char, rest: string)
    requires IsKey(k) && c != ' ' && c != '=' && c != '\0'
    ensures ParseLine(k + [' ', c] + rest) == SyntaxError
  {
    KeyNoNul(k);
    Layout(k, [' ', c], rest);
    var text := k + [' ', c] + CString(rest);
    assert text[|k|] == ' ' && text[|k| + 1] == c by {
      assert text[|k|..|k| + 2] == [' ', c];
    }
    assert text[0..|k|] == k;
    ReadKey(text, 0, |k|, Initial);
    var m1 := Initial.(state := Key, keyBegin := 0);
    var m2 := m1.(key := k, state := SpacesAfterKey);
    RunStep(text, |k|, m1, m2);
    StepToError(text, |k| + 1, m2);
  }

  // ---------------------------------------------------------------------------
  // Lines that end too early
  // ---------------------------------------------------------------------------

  /** A key alone on a line is a syntax error. */
  lemma {:induction false} KeyAlone(k: string)
    requires IsKey(k)
    ensures ParseLine(k) == SyntaxError
  {
    KeyNoNul(k);
    CStringOfPlain(k);
    assert k[0..|k|] == k;
    ReadKey(k, 0, |k|, Initial);
  }

  /** `key=` with nothing after it is a syntax error. */
  lemma {:induction false} NoValue(k: string)
    requires IsKey(k)
    ensures ParseLine(k + "=") == SyntaxError
  {
    KeyNoNul(k);
    var text := k + "=";
    CStringOfPlain(text);
    assert text[0..|k|] == k;
    ReadAssignment(text, 0, k, Initial);
  }

  /** A string still open at the end of the line is a syntax error. */
  lemma {:induction false} UnterminatedString(k: string, s: string)
    requires IsKey(k) && '\0' !in s
    ensures ParseLine(k + "=" + ("\"" + Escape(s))) == SyntaxError
  {
    var body := Escape(s);
    var text := k + "=" + ("\"" + body);
    var p := |k| + 1;
    EscapeNoNul(s);
    var m := OpenString(text, k, body);
    SkipEscaped(text, p + 1, |text|, s, m);
  }

  /** A string whose last character is a lone '\\' is a syntax error. */
  lemma {:induction false} DanglingBackslash(k: string, s: string)
    requires IsKey(k) && '\0' !in s
    ensures ParseLine(k + "=" + ("\"" + (Escape(s) + "\\"))) == SyntaxError
  {
    var body := Escape(s) + "\\";
    var text := k + "=" + ("\"" + body);
    EscapeNoNul(s);
    var m := OpenString(text, k, body);
    SlashRun(text, |k| + 2, s, m);
  }

  /** An escaped body and a final '\\' leave the machine after the slash. */
  lemma {:induction false} SlashRun(text: string, p: nat, s: string, m: Machine)
    requires Placed(m, p) && m.state == ValueString
    requires p + |Escape(s)| + 1 == |text| && text[p..|text|] == Escape(s) + "\\"
    ensures Run(text, p, m).0.state == ValueStringSlash
  {
    var c := p + |Escape(s)|;
    SplitSlice(text, p, |text|, Escape(s), "\\");
    SkipEscaped(text, p, c, s, m);
    assert text[c] == text[c..|text|][0];
    LastSlash(text, c, m);
  }

  /** A '\\' as the last character leaves the string waiting for the escaped character. */
  lemma {:induction false} LastSlash(text: string, c: nat, m: Machine)
    requires c + 1 == |text| && Placed(m, c) && m.state == ValueString && text[c] == '\\'
    ensures Run(text, c, m) == (m.(state := ValueStringSlash), |text|)
  {
    RunStep(text, c, m, m.(state := ValueStringSlash));
  }

  /**
   * A NUL-free line `k="body`: the parser sees all of it, reads the key and
   * enters the string, whose characters start right after the quote.
   */
  lemma {:induction false} OpenString(text: string, k: string, body: string) returns (m: Machine)
    requires IsKey(k) && '\0' !in body && text == k + "=" + ("\"" + body)
    ensures ParseLine(text) == ParseText(text)
    ensures |text| == |k| + 2 + |body| && text[|k| + 2..|text|] == body
    ensures Placed(m, |k| + 2) && m.state == ValueString && Run(text, 0, Initial) == Run(text, |k| + 2, m)
  {
    KeyNoNul(k);
    CStringOfPlain(text);
    var p := |k| + 1;
    var b := "\"" + body;
    assert text[..|text|] == text;
    ReadsAssignment(text, k, b);
    SplitSlice(text, p, |text|, "\"", body);
    assert text[p] == text[p..p + 1][0];
    var m0 := Initial.(state := SpacesBeforeValues, key := k);
    OpenQuote(text, p, m0);
    m := m0.(valBegin := p + 1, state := ValueString);
  }

  // ---------------------------------------------------------------------------
  // Opening an array
  // ---------------------------------------------------------------------------

  /**
   * A line that starts with `k=[` and `body`, followed by anything: the
   * parser reads the key and the bracket and then waits for the first element.
   */
  lemma {:induction false} OpenArray(text: string, line: string, k: string, body: string) returns (m: Machine)
    requires IsKey(k) && line == k + "=" + ("[" + body)
    requires |line| <= |text| && text[..|line|] == line
    ensures |line| == |k| + 2 + |body| && text[|k| + 2..|line|] == body
    ensures Placed(m, |k| + 2) && m.state == ValueArray && m.key == k
    ensures Run(text, 0, Initial) == Run(text, |k| + 2, m)
  {
    var p := |k| + 1;
    var b := "[" + body;
    ReadsAssignment(text, k, b);
    SplitSlice(text, p, |line|, "[", body);
    assert text[p] == text[p..p + 1][0];
    var m0 := Initial.(state := SpacesBeforeValues, key := k);
    OpenBracket(text, p, m0);
    m := m0.(state := ValueArray);
  }

  // ---------------------------------------------------------------------------
  // Numbers
  // ---------------------------------------------------------------------------

  /** What follows a NUL-free line is the first character of `rest`, or nothing. */
  lemma {:induction false} AfterLine(line: string, rest: string)
    requires '\0' !in line && (|rest| == 0 || !IsDigit(rest[0]))
    ensures |line| <= |line + CString(rest)|
    ensures |line| == |line + CString(rest)| || !IsDigit((line + CString(rest))[|line|])
  {
    if |line| < |line + CString(rest)| {
      assert (line + CString(rest))[|line|] == CString(rest)[0] == rest[0];
    }
  }

  /**
   * A scalar of two or more digits is committed at its second digit, as the
   * value `strtoll` reads from the whole digit run.
   */
  lemma {:induction false} DigitsRun(text: string, p: nat, ds: string, m: Machine)
    requires |ds| >= 2 && AllDigits(ds) && Placed(m, p) && m.state == SpacesBeforeValues
    requires p + |ds| <= |text| && text[p..p + |ds|] == ds
    requires p + |ds| == |text| || !IsDigit(text[p + |ds|])
    ensures Run(text, p, m) ==
            (m.(valBegin := p, vtype := Integer, values := m.values + [Int(Decimal.Strtoll(ds))], state := Finish), p + 2)
  {
    assert text[p] == ds[0] && text[p + 1] == ds[1];
    DigitStart(text, p, m);
    var m1 := m.(valBegin := p, state := ValueDigit);
    DigitRunOf(text, p, ds);
    IntAtIsDigitRun(text, p, p + 1);
    var m2 := m.(valBegin := p, vtype := Integer, values := m.values + [Int(Decimal.Strtoll(ds))], state := Finish);
    RunStep(text, p + 1, m1, m2);
    RunHalted(text, p + 2, m2);
  }

  /**
   * `key=` and a run of two or more digits gives the integer `strtoll` reads
   * from the run, saturated at LLONG_MAX. Whatever non-digit follows is
   * ignored, so the scalar `12.5` reads as the integer 12.
   */
  lemma {:induction false} MultiDigit(k: string, ds: string, rest: string)
    requires IsKey(k) && |ds| >= 2 && AllDigits(ds)
    requires |rest| == 0 || !IsDigit(rest[0])
    ensures ParseLine(k + "=" + ds + rest) == Parsed(k, Integer, [Int(Decimal.Strtoll(ds))])
  {
    KeyNoNul(k);
    assert forall i | 0 <= i < |ds| :: ds[i] != '\0';
    var line := k + "=" + ds;
    SeenText(line, rest);
    AfterLine(line, rest);
    var text := line + CString(rest);
    ReadsAssignment(text, k, ds);
    var m := Initial.(state := SpacesBeforeValues, key := k);
    DigitsRun(text, |k| + 1, ds, m);
    FinishedLine(text, |k| + 3, k, Integer, [Int(Decimal.Strtoll(ds))]);
  }

  /**
   * Leading zeros do not change a scalar integer (`007` reads as 7), and a
   * run of zeros reads as 0 (`000`).
   */
  lemma {:induction false} LeadingZerosIgnored(k: string, zs: string, ds: string, rest: string)
    requires IsKey(k) && AllDigits(ds) && |zs| + |ds| >= 2
    requires forall i | 0 <= i < |zs| :: zs[i] == '0'
    requires |rest| == 0 || !IsDigit(rest[0])
    ensures ParseLine(k + "=" + (zs + ds) + rest) == Parsed(k, Integer, [Int(Decimal.Strtoll(ds))])
  {
    assert AllDigits(zs + ds) by {
      forall i | 0 <= i < |zs + ds| ensures IsDigit((zs + ds)[i]) {
        if i >= |zs| {
          assert (zs + ds)[i] == ds[i - |zs|];
        }
      }
    }
    MultiDigit(k, zs + ds, rest);
    Decimal.LeadingZeros(zs, ds);
  }

  /** A '.' inside a number that is not followed by a digit is rejected. */
  lemma {:induction false} DotStep(text: string, q: nat, m: Machine)
    requires q < |text| && Placed(m, q) && m.state in {ValueDigit, NextDigit, NextExpectedDouble}
    requires text[q] == '.' && (q + 1 == |text| || !IsDigit(text[q + 1]))
    ensures Step(text, q, m).state == Error
  {
  }

  /** A digit, then a '.' with no digit after it, halts the machine in ERROR. */
  lemma {:induction false} DotRun(text: string, p: nat, m: Machine)
    requires p + 2 <= |text| && Placed(m, p) && m.state in {SpacesBeforeValues, ValueArray}
    requires IsDigit(text[p]) && text[p + 1] == '.' && (p + 2 == |text| || !IsDigit(text[p + 2]))
    ensures Run(text, p, m).0.state == Error
  {
    var m1 := m.(valBegin := p, state := if m.state == ValueArray then NextDigit else ValueDigit);
    RunStep(text, p, m, m1);
    DotStep(text, p + 1, m1);
    RunStep(text, p + 1, m1, m1.(state := Error));
    RunHalted(text, p + 2, m1.(state := Error));
  }

  /** `key=d.` with no digit after the point is a syntax error. */
  lemma {:induction false} DotNeedsDigit(k: string, d: char, rest: string)
    requires IsKey(k) && IsDigit(d) && (|rest| == 0 || !IsDigit(rest[0]))
    ensures ParseLine(k + "=" + [d, '.'] + rest) == SyntaxError
  {
    KeyNoNul(k);
    var line := k + "=" + [d, '.'];
    SeenText(line, rest);
    AfterLine(line, rest);
    var text := line + CString(rest);
    ReadsAssignment(text, k, [d, '.']);
    var p := |k| + 1;
    assert text[p] == d && text[p + 1] == '.' by { assert text[p..p + 2] == [d, '.']; }
    DotRun(text, p, Initial.(state := SpacesBeforeValues, key := k));
  }

  /** `key=[d.` with no digit after the point is a syntax error. */
  lemma {:induction false} ArrayDotNeedsDigit(k: string, d: char, rest: string)
    requires IsKey(k) && IsDigit(d) && (|rest| == 0 || !IsDigit(rest[0]))
    ensures ParseLine(k + "=" + ("[" + [d, '.']) + rest) == SyntaxError
  {
    KeyNoNul(k);
    var line := k + "=" + ("[" + [d, '.']);
    SeenText(line, rest);
    AfterLine(line, rest);
    var text := line + CString(rest);
    var m := OpenArray(text, line, k, [d, '.']);
    var p := |k| + 2;
    assert text[p] == d && text[p + 1] == '.' by { assert text[p..p + 2] == [d, '.']; }
    DotRun(text, p, m);
  }

  // ---------------------------------------------------------------------------
  // Escapes
  // ---------------------------------------------------------------------------

  /** The body `a\"b\\c` of a quoted string reads as the five characters a, ", b, \ and c. */
  lemma {:induction false} EscapeExample(k: string, rest: string)
    requires IsKey(k)
    ensures ParseLine(k + "=" + "\"a\\\"b\\\\c\"" + rest) == Parsed(k, String, [Str("a\"b\\c")])
  {
    var s := "a\"b\\c";
    SampleLiteral();
    StringRoundTrip("", k, "", "", s, rest);
    PlainHead(k, Literal(Str(s)));
  }

  /** The literal the renderer writes for the string a, ", b, \ and c. */
  lemma {:induction false} SampleLiteral()
    ensures Literal(Str("a\"b\\c")) == "\"a\\\"b\\\\c\""
  {
    var s := "a\"b\\c";
    assert s[1..][1..][1..][1..][1..] == [];
    assert Escape(s[1..][1..][1..][1..]) == "c";
    assert Escape(s[1..][1..][1..]) == "\\\\c";
    assert Escape(s[1..][1..]) == "b\\\\c";
    assert Escape(s[1..]) == "\\\"b\\\\c";
  }
}
