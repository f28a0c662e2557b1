/**
 * The end-of-line resolution of `parse_line` with `type` left unset, as in
 * the C code; the store into `values` at parser.c:530 is modelled as an
 * append, like every other store. Its two commit branches (a number still being read when the NUL arrives)
 * append the value but never assign `type`, so the caller receives the 0 the
 * variable was initialised with. Parser.EndOfLine is the corrected version
 * the rest of the model uses; the lemmas here show where the two differ.
 */
module ParserAsWritten {
  import opened Chars
  import opened Values
  import opened Parser
  import opened Render
  import opened ParserWalk
  import opened RoundTrip
  import Decimal

  /** The resolution after the loop, committing a number still being read without setting its type. */
  function EndOfLineAsWritten(text: string, h: (Machine, nat)): (r: Outcome)
    requires h.1 <= |text| && Placed(h.0, h.1)
    ensures r.SyntaxError? <==>
              h.0.state !in {Start, Comment, Finish, ValueDigit, ValueDouble}
  {
    var (m, pos) := h;
    match m.state
    case ValueDigit =>
      Parsed(m.key, m.vtype, m.values + [IntAt(text, m.valBegin, pos)])
    case ValueDouble =>
      Parsed(m.key, m.vtype, m.values + [RealAt(text, m.valBegin, pos)])
    case Start => BlankLine
    case Finish => Parsed(m.key, m.vtype, m.values)
    case Error => SyntaxError
    case Comment => CommentLine
    case _ => SyntaxError
  }

  /** `parse_line` as written. */
  function ParseLineAsWritten(line: string): Outcome {
    var text := CString(line);
    EndOfLineAsWritten(text, Run(text, 0, Initial))
  }

  /**
   * The two resolutions agree on everything but the type, and on the type
   * too unless the line ends while a number is being read.
   */
  lemma {:induction false} AsWrittenDiffersOnlyInType(text: string, h: (Machine, nat))
    requires h.1 <= |text| && Placed(h.0, h.1)
    ensures EndOfLineAsWritten(text, h).Parsed? <==> EndOfLine(text, h).Parsed?
    ensures EndOfLineAsWritten(text, h).Parsed? ==>
              EndOfLineAsWritten(text, h).key == EndOfLine(text, h).key &&
              EndOfLineAsWritten(text, h).values == EndOfLine(text, h).values
    ensures h.0.state !in {ValueDigit, ValueDouble} ==> EndOfLineAsWritten(text, h) == EndOfLine(text, h)
  {
  }

  /** So `parse_line` and its corrected version differ at most in the type. */
  lemma {:induction false} ParseLineAsWrittenAgrees(line: string)
    ensures ParseLineAsWritten(line).Parsed? <==> ParseLine(line).Parsed?
    ensures ParseLineAsWritten(line).Parsed? ==>
              ParseLineAsWritten(line).key == ParseLine(line).key &&
              ParseLineAsWritten(line).values == ParseLine(line).values
    ensures !ParseLine(line).Parsed? ==> ParseLineAsWritten(line) == ParseLine(line)
  {
    var text := CString(line);
    AsWrittenDiffersOnlyInType(text, Run(text, 0, Initial));
  }

  /**
   * `key=d` (a one-digit integer ending the line) comes back with type 0
   * (Undefined) as written, and with INTEGER once the type is set.
   */
  lemma {:induction false} OneDigitAtEndLosesType(k: string, n: nat)
    requires IsKey(k) && n < 10
    ensures ParseLineAsWritten(ScalarLine(k, Int(n))) == Parsed(k, Undefined, [Int(n)])
    ensures ParseLine(ScalarLine(k, Int(n))) == Parsed(k, Integer, [Int(n)])
  {
    var text := ScalarLine(k, Int(n));
    var ds := Decimal.Render(n);
    CStringOfPlain(text);
    assert text[..|text|] == text;
    ReadsAssignment(text, k, ds);
    var p := |k| + 1;
    assert text[p] == ds[0];
    var m := Initial.(state := SpacesBeforeValues, key := k);
    DigitAtEndRun(text, p, n, m);
    IntRoundTrip("", k, "", "", n, "");
    PlainHead(k, Literal(Int(n)));
    assert text + "" == text;
  }
}
