/**
 * `parse_config` over `parse_line` as written, whose end-of-line commits
 * leave `type` unset: it stops at the same line and defines the same keys
 * with the same values as the corrected driver, and only the recorded types
 * can differ.
 */
module DriverAsWritten {
  import opened Wrappers
  import opened Chars
  import opened Values
  import opened Parser
  import opened Driver
  import ParserAsWritten
  import Render

  /** The outcome of `parse_line`, as written, on every line, in order. */
  function OutcomesAsWritten(lines: seq<string>): (os: seq<Outcome>)
    ensures |os| == |lines|
  {
    seq(|lines|, i requires 0 <= i < |lines| => ParserAsWritten.ParseLineAsWritten(Strip(lines[i])))
  }

  /** What `parse_config` returns when every line goes through `parse_line` as written. */
  function ExpectedAsWritten(source: Option<seq<string>>): Report {
    match source
    case None => Report(-1, 0, [])
    case Some(lines) => Resolve(OutcomesAsWritten(lines))
  }

  /** The definitions with their types forgotten: each key with its values. */
  function Erase(ds: seq<Definition>): (es: seq<(string, seq<Value>)>)
    ensures |es| == |ds|
  {
    if |ds| == 0 then []
    else Erase(ds[..|ds| - 1]) + [(ds[|ds| - 1].name, ds[|ds| - 1].variable.values)]
  }

  /** Two outcomes that are the same result with the same key and values, whatever the types. */
  predicate SameButType(a: Outcome, b: Outcome) {
    && (a.Parsed? <==> b.Parsed?)
    && (a.Parsed? ==> a.key == b.key && a.values == b.values)
    && (!a.Parsed? ==> a == b)
  }

  predicate AllSameButType(xs: seq<Outcome>, ys: seq<Outcome>) {
    |xs| == |ys| && forall i | 0 <= i < |xs| :: SameButType(xs[i], ys[i])
  }

  /** Every line's outcome as written differs from the corrected one at most in its type. */
  lemma {:induction false} OutcomesAgree(lines: seq<string>)
    ensures AllSameButType(OutcomesAsWritten(lines), Outcomes(lines))
  {
    forall i | 0 <= i < |lines|
      ensures SameButType(OutcomesAsWritten(lines)[i], Outcomes(lines)[i])
    {
      ParserAsWritten.ParseLineAsWrittenAgrees(Strip(lines[i]));
    }
  }

  lemma {:induction false} AllSameButTypePrefix(xs: seq<Outcome>, ys: seq<Outcome>, n: nat)
    requires AllSameButType(xs, ys) && n <= |xs|
    ensures AllSameButType(xs[..n], ys[..n])
  {
    forall i | 0 <= i < n ensures SameButType(xs[..n][i], ys[..n][i]) {
      assert xs[..n][i] == xs[i] && ys[..n][i] == ys[i];
    }
  }

  /** Outcomes that differ only in types stop at the same line. */
  lemma {:induction false} FirstErrorAgrees(xs: seq<Outcome>, ys: seq<Outcome>)
    requires AllSameButType(xs, ys)
    ensures FirstError(xs) == FirstError(ys)
    decreases |xs|
  {
    if |xs| > 0 {
      var n := |xs| - 1;
      AllSameButTypePrefix(xs, ys, n);
      FirstErrorAgrees(xs[..n], ys[..n]);
      assert SameButType(xs[n], ys[n]);
    }
  }

  /** The erased definitions after one more outcome. */
  lemma {:induction false} EraseAppend(ds: seq<Definition>, o: Outcome)
    ensures Erase(ds + DefinitionOf(o)) ==
            Erase(ds) + (if o.Parsed? then [(o.key, o.values)] else [])
  {
    if o.Parsed? {
      assert (ds + DefinitionOf(o))[..|ds|] == ds;
    } else {
      assert ds + DefinitionOf(o) == ds;
    }
  }

  /** Outcomes that differ only in types define the same keys with the same values, in the same order. */
  lemma {:induction false} DefinitionsAgree(xs: seq<Outcome>, ys: seq<Outcome>)
    requires AllSameButType(xs, ys)
    ensures Erase(Definitions(xs)) == Erase(Definitions(ys))
    decreases |xs|
  {
    if |xs| > 0 {
      var n := |xs| - 1;
      var px, py := xs[..n], ys[..n];
      AllSameButTypePrefix(xs, ys, n);
      DefinitionsAgree(px, py);
      assert SameButType(xs[n], ys[n]);
      EraseStep(Definitions(px), Definitions(py), xs[n], ys[n]);
      DefinitionsSnoc(xs);
      DefinitionsSnoc(ys);
    }
  }

  /** The definitions of a non-empty sequence of outcomes: those of all but the last, then the last one's. */
  lemma {:induction false} DefinitionsSnoc(os: seq<Outcome>)
    requires |os| > 0
    ensures Definitions(os) == Definitions(os[..|os| - 1]) + DefinitionOf(os[|os| - 1])
  {
  }

  /** One more pair of outcomes that differ only in types keeps the erased definitions equal. */
  lemma {:induction false} EraseStep(dx: seq<Definition>, dy: seq<Definition>, x: Outcome, y: Outcome)
    requires Erase(dx) == Erase(dy) && SameButType(x, y)
    ensures Erase(dx + DefinitionOf(x)) == Erase(dy + DefinitionOf(y))
  {
    EraseAppend(dx, x);
    EraseAppend(dy, y);
  }

  /**
   * `parse_config` over `parse_line` as written returns the same code and
   * error line as over the corrected parser, and defines the same keys with
   * the same values in the same order; only the recorded types can differ.
   */
  lemma {:induction false} ParseConfigAsWritten(source: Option<seq<string>>)
    ensures ExpectedAsWritten(source).code == Expected(source).code
    ensures ExpectedAsWritten(source).errorLine == Expected(source).errorLine
    ensures Erase(ExpectedAsWritten(source).defined) == Erase(Expected(source).defined)
  {
    if source.Some? {
      var xs, ys := OutcomesAsWritten(source.value), Outcomes(source.value);
      OutcomesAgree(source.value);
      FirstErrorAgrees(xs, ys);
      DefinitionsAgree(xs, ys);
      match FirstError(ys)
      case Some(i) =>
        AllSameButTypePrefix(xs, ys, i);
        DefinitionsAgree(xs[..i], ys[..i]);
      case None =>
    }
  }

  /**
   * A file whose only line is `key=d` (one digit) and its '\n': as written,
   * `parse_config` defines the key with type 0 (Undefined); corrected, with
   * INTEGER.
   */
  lemma {:induction false} OneDigitLineLosesType(k: string, n: nat)
    requires IsKey(k) && n < 10
    ensures ExpectedAsWritten(Some([Render.ScalarLine(k, Int(n)) + "\n"])) ==
            Report(0, 0, [Definition(k, Variable(Undefined, [Int(n)]))])
    ensures Expected(Some([Render.ScalarLine(k, Int(n)) + "\n"])) ==
            Report(0, 0, [Definition(k, Variable(Integer, [Int(n)]))])
  {
    var line := Render.ScalarLine(k, Int(n));
    StripNewline(line);
    ParserAsWritten.OneDigitAtEndLosesType(k, n);
    assert OutcomesAsWritten([line + "\n"]) == [Parsed(k, Undefined, [Int(n)])];
    assert Outcomes([line + "\n"]) == [Parsed(k, Integer, [Int(n)])];
    OneParsedLine(k, Undefined, [Int(n)]);
    OneParsedLine(k, Integer, [Int(n)]);
  }

  /** A NUL-free line read with its '\n' reaches the parser without it. */
  lemma {:induction false} StripNewline(line: string)
    requires '\0' !in line
    ensures Strip(line + "\n") == line
  {
    CStringAppend(line, "\n");
    assert CString(line + "\n") == line + "\n";
  }

  /** A file of one accepted line returns 0 and defines that line's key. */
  lemma {:induction false} OneParsedLine(k: string, t: VarType, vs: seq<Value>)
    ensures Resolve([Parsed(k, t, vs)]) == Report(0, 0, [Definition(k, Variable(t, vs))])
  {
    var os := [Parsed(k, t, vs)];
    assert os[..0] == [];
  }
}
