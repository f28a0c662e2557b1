/**
 * Round trips through the line parser: a line written from a key and values
 * parses back to exactly that key, type and values, whatever follows the
 * closing ']' or quote.
 */
module RoundTrip {
  import opened Chars
  import opened Values
  import opened Parser
  import opened Render
  import opened ParserWalk
  import Decimal

  /** Where the key, the '=' and the rest of an assignment lie in a line. */
  lemma {:induction false} AssignmentSplit(text: string, k: string, b: string)
    requires |k| + 1 + |b| <= |text| && text[..|k| + 1 + |b|] == k + "=" + b
    ensures text[0..|k|] == k && text[|k|] == '='
    ensures text[|k| + 1..|k| + 1 + |b|] == b
  {
    var n := |k| + 1 + |b|;
    assert text[0..n] == text[..n];
    SplitSlice(text, 0, n, k + "=", b);
    SplitSlice(text, 0, |k| + 1, k, "=");
    assert text[|k|] == text[|k|..|k| + 1][0];
  }

  /** The parser over a line that begins with `k=` reads the key and waits for values. */
  lemma {:induction false} ReadsAssignment(text: string, k: string, b: string)
    requires IsKey(k) && |k| + 1 + |b| <= |text| && text[..|k| + 1 + |b|] == k + "=" + b
    ensures text[|k| + 1..|k| + 1 + |b|] == b
    ensures Run(text, 0, Initial) ==
            Run(text, |k| + 1, Initial.(state := SpacesBeforeValues, key := k))
  {
    AssignmentSplit(text, k, b);
    ReadAssignment(text, 0, k, Initial);
  }

  /**
   * The start of an assignment with the whitespace `parse_line` allows:
   * blanks before the key, spaces before and after the '='.
   */
  function Head(ind: string, k: string, s1: string, s2: string): string {
    ind + k + s1 + "=" + s2
  }

  predicate Spacing(ind: string, s1: string, s2: string) {
    AllBlank(ind) && AllSpaces(s1) && AllSpaces(s2)
  }

  lemma {:induction false} HeadNoNul(ind: string, k: string, s1: string, s2: string, b: string)
    requires IsKey(k) && Spacing(ind, s1, s2) && '\0' !in b
    ensures '\0' !in Head(ind, k, s1, s2) + b
  {
  }

  /** The parser over a line that begins with a spaced `k = ` reads the key and waits for values. */
  lemma {:induction false} ReadsHead(text: string, ind: string, k: string, s1: string, s2: string, b: string)
    requires IsKey(k) && Spacing(ind, s1, s2)
    requires |Head(ind, k, s1, s2)| + |b| <= |text|
    requires text[..|Head(ind, k, s1, s2)| + |b|] == Head(ind, k, s1, s2) + b
    ensures text[|Head(ind, k, s1, s2)|..|Head(ind, k, s1, s2)| + |b|] == b
    ensures Run(text, 0, Initial) ==
            Run(text, |Head(ind, k, s1, s2)|, Initial.(state := SpacesBeforeValues, keyBegin := |ind|, key := k))
  {
    var h := Head(ind, k, s1, s2);
    var a, q := |ind|, |h|;
    var e := a + |k|;
    var d := e + |s1|;
    assert text[0..q + |b|] == text[..q + |b|];
    SplitSlice(text, 0, q + |b|, h, b);
    SplitSlice(text, 0, q, ind + k + s1 + "=", s2);
    SplitSlice(text, 0, d + 1, ind + k + s1, "=");
    SplitSlice(text, 0, d, ind + k, s1);
    SplitSlice(text, 0, e, ind, k);
    assert text[d] == text[d..d + 1][0];
    ReadSpacedAssignment(text, 0, a, e, d, q, Initial);
  }

  /** With no padding the head is `k=`. */
  lemma {:induction false} PlainHead(k: string, b: string)
    ensures Head("", k, "", "") + b == k + "=" + b
  {
  }

  /** The text the parser sees for a NUL-free line followed by anything. */
  lemma {:induction false} SeenText(line: string, rest: string)
    requires '\0' !in line
    ensures CString(line + rest) == line + CString(rest)
    ensures (line + CString(rest))[..|line|] == line
    ensures ParseLine(line + rest) == ParseText(line + CString(rest))
  {
    CStringAppend(line, rest);
  }

  /** After a FINISH the line is parsed with the machine's key, type and values. */
  lemma {:induction false} FinishedLine(text: string, q: nat, k: string, t: VarType, vs: seq<Value>)
    requires '\0' !in text && q <= |text|
    requires FinishedAt(Run(text, 0, Initial), q, k, t, vs)
    ensures ParseText(text) == Parsed(k, t, vs)
  {
  }

  /** '[' after the '=' opens an array. */
  lemma {:induction false} OpenBracket(text: string, p: nat, m: Machine)
    requires p < |text| && Placed(m, p) && m.state == SpacesBeforeValues && text[p] == '['
    ensures Run(text, p, m) == Run(text, p + 1, m.(state := ValueArray))
  {
    RunStep(text, p, m, m.(state := ValueArray));
  }

  /** A whole bracketed array ends the loop in FINISH with its values appended. */
  lemma {:induction false} ArrayRun(text: string, p: nat, q: nat, t: VarType, vs: seq<Value>, pads: seq<Pad>, m: Machine)
    requires Homogeneous(t, vs) && |pads| == |vs| && Spaced(pads)
    requires Placed(m, p) && m.state == SpacesBeforeValues
    requires q == p + 1 + |SpacedElements(vs, pads)| + 1 <= |text|
    requires text[p..q] == "[" + (SpacedElements(vs, pads) + "]")
    ensures FinishedAt(Run(text, p, m), q, m.key, t, m.values + vs)
  {
    SplitSlice(text, p, q, "[", SpacedElements(vs, pads) + "]");
    assert text[p] == text[p..p + 1][0];
    OpenBracket(text, p, m);
    SpacedWalk(text, p + 1, q, t, vs, pads, m.(state := ValueArray), true);
  }

  /** A number still being read at the end of the line is committed after the loop. */
  lemma {:induction false} NumberAtEndLine(text: string, m: Machine, v: Value)
    requires Placed(m, |text|) && Run(text, 0, Initial) == (m, |text|) && m.values == []
    requires m.state == ValueDigit ==> IntAt(text, m.valBegin, |text|) == v && TypeOf(v) == Integer
    requires m.state == ValueDouble ==> RealAt(text, m.valBegin, |text|) == v && TypeOf(v) == Real
    requires m.state in {ValueDigit, ValueDouble}
    ensures ParseText(text) == Parsed(m.key, TypeOf(v), [v])
  {
  }

  /**
   * `key = [ v1 , ... , vn ]`, with any spacing the parser allows around the
   * key, the '=' and every element, and followed by anything, parses back to
   * the key, the type and the values.
   */
  lemma {:induction false} ArrayRoundTrip(ind: string, k: string, s1: string, s2: string, t: VarType, vs: seq<Value>, pads: seq<Pad>,
                       rest: string)
    requires IsKey(k) && Spacing(ind, s1, s2) && Homogeneous(t, vs) && |pads| == |vs| && Spaced(pads)
    ensures ParseLine(Head(ind, k, s1, s2) + "[" + SpacedElements(vs, pads) + "]" + rest) == Parsed(k, t, vs)
  {
    var h := Head(ind, k, s1, s2);
    var b := "[" + (SpacedElements(vs, pads) + "]");
    var line := h + b;
    assert line == h + "[" + SpacedElements(vs, pads) + "]";
    SpacedElementsNoNul(vs, pads);
    HeadNoNul(ind, k, s1, s2, b);
    SeenText(line, rest);
    var text := line + CString(rest);
    ReadsHead(text, ind, k, s1, s2, b);
    ArrayRun(text, |h|, |line|, t, vs, pads, Initial.(state := SpacesBeforeValues, keyBegin := |ind|, key := k));
    FinishedLine(text, |line|, k, t, vs);
  }

  /** The unpadded case: `key=[v1,...,vn]` followed by anything. */
  lemma {:induction false} ArrayLineRoundTrip(k: string, t: VarType, vs: seq<Value>, rest: string)
    requires IsKey(k) && Homogeneous(t, vs)
    ensures ParseLine(ArrayLine(k, vs) + rest) == Parsed(k, t, vs)
  {
    ArrayRoundTrip("", k, "", "", t, vs, Unpadded(|vs|), rest);
    ElementsUnpadded(vs);
    PlainArrayHead(k, Elements(vs));
  }

  /**
   * Whatever line the parser accepts, writing its key and values back as an
   * array line and parsing that gives the same outcome: the parser's results
   * are exactly the ones the writer can reproduce.
   */
  lemma {:induction false} Reparse(line: string)
    ensures var o := ParseLine(line);
            o.Parsed? ==> IsKey(o.key) && Homogeneous(o.vtype, o.values) && ParseLine(ArrayLine(o.key, o.values)) == o
  {
    ParseLineWellFormed(line);
    var o := ParseLine(line);
    if o.Parsed? {
      ArrayLineRoundTrip(o.key, o.vtype, o.values, "");
      assert ArrayLine(o.key, o.values) + "" == ArrayLine(o.key, o.values);
    }
  }

  /** An unpadded head followed by a bracketed list is the array line's own spelling. */
  lemma {:induction false} PlainArrayHead(k: string, es: string)
    ensures Head("", k, "", "") + "[" + es + "]" == k + "=[" + es + "]"
  {
  }

  /**
   * Blanks before the key, spaces around the '=' and spaces around every
   * element change nothing in an array line.
   */
  lemma {:induction false} ArraySpacingIgnored(ind: string, k: string, s1: string, s2: string, t: VarType, vs: seq<Value>,
                            pads: seq<Pad>, rest: string)
    requires IsKey(k) && Spacing(ind, s1, s2) && Homogeneous(t, vs) && |pads| == |vs| && Spaced(pads)
    ensures ParseLine(Head(ind, k, s1, s2) + "[" + SpacedElements(vs, pads) + "]" + rest) ==
            ParseLine(ArrayLine(k, vs) + rest)
  {
    ArrayRoundTrip(ind, k, s1, s2, t, vs, pads, rest);
    ArrayLineRoundTrip(k, t, vs, rest);
  }

  /** `key="..."`, with any spacing the parser allows and followed by anything, parses back to the key and the string. */
  lemma {:induction false} StringRoundTrip(ind: string, k: string, s1: string, s2: string, s: string, rest: string)
    requires IsKey(k) && Spacing(ind, s1, s2) && '\0' !in s
    ensures ParseLine(Head(ind, k, s1, s2) + Literal(Str(s)) + rest) == Parsed(k, String, [Str(s)])
  {
    var h := Head(ind, k, s1, s2);
    var lit := Literal(Str(s));
    var line := h + lit;
    LiteralNoNul(Str(s));
    HeadNoNul(ind, k, s1, s2, lit);
    SeenText(line, rest);
    var text := line + CString(rest);
    ReadsHead(text, ind, k, s1, s2, lit);
    var p := |h|;
    var c := p + 1 + |Escape(s)|;
    QuotedSplit(text, p, c, c + 1, s);
    var m := Initial.(state := SpacesBeforeValues, keyBegin := |ind|, key := k);
    QuotedRun(text, p, c, s, m);
    FinishedLine(text, c + 1, k, String, [Str(s)]);
  }

  /** A quoted scalar string is committed at its closing quote. */
  lemma {:induction false} QuotedRun(text: string, p: nat, c: nat, s: string, m: Machine)
    requires Placed(m, p) && m.state == SpacesBeforeValues
    requires c == p + 1 + |Escape(s)| < |text|
    requires text[p] == '"' && text[p + 1..c] == Escape(s) && text[c] == '"'
    ensures Run(text, p, m) ==
            (m.(valBegin := p + 1, vtype := String, values := m.values + [Str(s)], state := Finish), c + 1)
  {
    var m1 := m.(valBegin := p + 1, state := ValueString);
    OpenQuote(text, p, m);
    SkipEscaped(text, p + 1, c, s, m1);
    StrClose(text, p + 1, c, s, m1);
    RunHalted(text, c + 1, m1.(vtype := String, values := m.values + [Str(s)], state := Finish));
  }

  /** '"' after the '=' opens a scalar string. */
  lemma {:induction false} OpenQuote(text: string, p: nat, m: Machine)
    requires p < |text| && Placed(m, p) && m.state == SpacesBeforeValues && text[p] == '"'
    ensures Run(text, p, m) == Run(text, p + 1, m.(valBegin := p + 1, state := ValueString))
  {
    RunStep(text, p, m, m.(valBegin := p + 1, state := ValueString));
  }

  /** What may follow a scalar integer for it to be read back whole. */
  predicate IntTerminated(n: nat, rest: string) {
    || |rest| == 0 || rest[0] == '\0' || rest[0] == ' '
    || (n >= 10 && !IsDigit(rest[0]))
  }

  /** A scalar integer of at least two digits is committed at its second digit. */
  lemma {:induction false} LongIntRun(text: string, p: nat, n: nat, m: Machine)
    requires n >= 10 && n <= Decimal.LLONG_MAX && Placed(m, p) && m.state == SpacesBeforeValues
    requires p + |Decimal.Render(n)| <= |text| && text[p..p + |Decimal.Render(n)|] == Decimal.Render(n)
    requires p + |Decimal.Render(n)| == |text| || !IsDigit(text[p + |Decimal.Render(n)|])
    ensures Run(text, p, m) ==
            (m.(valBegin := p, vtype := Integer, values := m.values + [Int(n)], state := Finish), p + 2)
  {
    var ds := Decimal.Render(n);
    assert text[p] == ds[0] && text[p + 1] == ds[1];
    var m1 := m.(valBegin := p, state := ValueDigit);
    RunStep(text, p, m, m1);
    WholeDigitRun(text, p, n);
    var m2 := m.(valBegin := p, vtype := Integer, values := m.values + [Int(n)], state := Finish);
    RunStep(text, p + 1, m1, m2);
    RunHalted(text, p + 2, m2);
  }

  /** Committing at the second digit still reads the whole number. */
  lemma {:induction false} WholeDigitRun(text: string, p: nat, n: nat)
    requires n <= Decimal.LLONG_MAX
    requires p + |Decimal.Render(n)| <= |text| && text[p..p + |Decimal.Render(n)|] == Decimal.Render(n)
    requires p + |Decimal.Render(n)| == |text| || !IsDigit(text[p + |Decimal.Render(n)|])
    ensures IntAt(text, p, p + 1) == Int(n)
  {
    var ds := Decimal.Render(n);
    assert AllDigits(ds);
    DigitRunOf(text, p, ds);
    IntAtIsDigitRun(text, p, p + 1);
    Decimal.StrtollOfRender(n);
  }

  /** A one-digit scalar integer is committed by a following space. */
  lemma {:induction false} DigitThenSpaceRun(text: string, p: nat, n: nat, m: Machine)
    requires n < 10 && Placed(m, p) && m.state == SpacesBeforeValues
    requires p + 1 < |text| && text[p] == Decimal.DigitChar(n) && text[p + 1] == ' '
    ensures Run(text, p, m) ==
            (m.(valBegin := p, vtype := Integer, values := m.values + [Int(n)], state := Finish), p + 2)
  {
    var m1 := m.(valBegin := p, state := ValueDigit);
    RunStep(text, p, m, m1);
    assert text[p..p + 1] == Decimal.Render(n);
    IntAtRendered(text, p, p + 1, n);
    var m2 := m.(valBegin := p, vtype := Integer, values := m.values + [Int(n)], state := Finish);
    RunStep(text, p + 1, m1, m2);
    RunHalted(text, p + 2, m2);
  }

  /** A one-digit scalar integer at the end of the line leaves the machine reading digits. */
  lemma {:induction false} DigitAtEndRun(text: string, p: nat, n: nat, m: Machine)
    requires n < 10 && Placed(m, p) && m.state == SpacesBeforeValues
    requires p + 1 == |text| && text[p] == Decimal.DigitChar(n)
    ensures Run(text, p, m) == (m.(valBegin := p, state := ValueDigit), p + 1)
    ensures IntAt(text, p, p + 1) == Int(n)
  {
    RunStep(text, p, m, m.(valBegin := p, state := ValueDigit));
    assert text[p..p + 1] == Decimal.Render(n);
    IntAtRendered(text, p, p + 1, n);
  }

  /**
   * `key=n`, with any spacing the parser allows, parses back to the key and
   * the integer when the number ends the line or is followed by a space; one
   * of two or more digits may also be followed by any other non-digit, which
   * is ignored.
   */
  lemma {:induction false} IntRoundTrip(ind: string, k: string, s1: string, s2: string, n: nat, rest: string)
    requires IsKey(k) && Spacing(ind, s1, s2) && n <= Decimal.LLONG_MAX && IntTerminated(n, rest)
    ensures ParseLine(Head(ind, k, s1, s2) + Literal(Int(n)) + rest) == Parsed(k, Integer, [Int(n)])
  {
    var h := Head(ind, k, s1, s2);
    var ds := Decimal.Render(n);
    var line := h + ds;
    LiteralNoNul(Int(n));
    HeadNoNul(ind, k, s1, s2, ds);
    SeenText(line, rest);
    var text := line + CString(rest);
    ReadsHead(text, ind, k, s1, s2, ds);
    var p := |h|;
    var e := p + |ds|;
    assert e == |line|;
    assert e == |text| || text[e] == rest[0] by {
      if e < |text| {
        assert text[e] == CString(rest)[0];
      }
    }
    IntRun(text, p, n, Initial.(state := SpacesBeforeValues, keyBegin := |ind|, key := k));
  }

  /** A scalar integer after the '=' that the next character (or the end of the line) lets through is read back. */
  lemma {:induction false} IntRun(text: string, p: nat, n: nat, m: Machine)
    requires '\0' !in text && n <= Decimal.LLONG_MAX
    requires p + |Decimal.Render(n)| <= |text| && text[p..p + |Decimal.Render(n)|] == Decimal.Render(n)
    requires Placed(m, p) && m.state == SpacesBeforeValues && m.values == [] && Run(text, 0, Initial) == Run(text, p, m)
    requires var e := p + |Decimal.Render(n)|;
             e == |text| || text[e] == ' ' || (n >= 10 && !IsDigit(text[e]))
    ensures ParseText(text) == Parsed(m.key, Integer, [Int(n)])
  {
    var ds := Decimal.Render(n);
    var e := p + |ds|;
    if n >= 10 {
      LongIntRun(text, p, n, m);
      FinishedLine(text, p + 2, m.key, Integer, [Int(n)]);
    } else {
      assert text[p] == ds[0] && ds[0] == Decimal.DigitChar(n);
      if e == |text| {
        DigitAtEndRun(text, p, n, m);
        NumberAtEndLine(text, m.(valBegin := p, state := ValueDigit), Int(n));
      } else {
        DigitThenSpaceRun(text, p, n, m);
        FinishedLine(text, p + 2, m.key, Integer, [Int(n)]);
      }
    }
  }

  /** A digit after the '=' opens a scalar number. */
  lemma {:induction false} DigitStart(text: string, p: nat, m: Machine)
    requires p < |text| && Placed(m, p) && m.state == SpacesBeforeValues && IsDigit(text[p])
    ensures Run(text, p, m) == Run(text, p + 1, m.(valBegin := p, state := ValueDigit))
  {
    RunStep(text, p, m, m.(valBegin := p, state := ValueDigit));
  }

  /** A '.' with a digit after it turns a one-digit scalar into a real. */
  lemma {:induction false} ScalarDot(text: string, d: nat, m: Machine)
    requires d + 1 < |text| && Placed(m, d) && m.state == ValueDigit
    requires text[d] == '.' && IsDigit(text[d + 1])
    ensures Run(text, d, m) == Run(text, d + 1, m.(state := ValueDouble))
  {
    RunStep(text, d, m, m.(state := ValueDouble));
  }

  /** Whitespace after a scalar real commits it. */
  lemma {:induction false} RealBlankCommit(text: string, e: nat, v: Value, m: Machine)
    requires e < |text| && Placed(m, e) && m.state == ValueDouble && m.valBegin <= e
    requires text[e] in {' ', '\t', '\n'} && RealAt(text, m.valBegin, e) == v
    ensures Run(text, e, m) == (m.(vtype := Real, values := m.values + [v], state := Finish), e + 1)
  {
    var m1 := m.(vtype := Real, values := m.values + [v], state := Finish);
    RunStep(text, e, m, m1);
    RunHalted(text, e + 1, m1);
  }

  /** What may follow a scalar real for it to be read back. */
  predicate RealTerminated(rest: string) {
    |rest| == 0 || rest[0] in {'\0', ' ', '\t', '\n'}
  }

  /** A scalar real with a one-digit whole part is read up to the end of the line or a blank. */
  lemma {:induction false} ScalarRealRun(text: string, p: nat, e: nat, w: string, f: string, m: Machine)
    requires WellFormed(RealLit(w, f)) && |w| == 1
    requires Placed(m, p) && m.state == SpacesBeforeValues
    requires e == p + 2 + |f| <= |text| && text[p..e] == w + "." + f
    requires e == |text| || text[e] in {' ', '\t', '\n'}
    ensures RealAt(text, p, e) == RealLit(w, f)
    ensures e == |text| ==> Run(text, p, m) == (m.(valBegin := p, state := ValueDouble), e)
    ensures e < |text| ==>
      FinishedAt(Run(text, p, m), e + 1, m.key, Real, m.values + [RealLit(w, f)])
  {
    var d := p + 1;
    DottedSplit(text, p, e, w, f);
    assert text[p] == w[0] by { assert text[p] == text[p..d][0]; }
    assert IsDigit(text[d + 1]) by { assert text[d + 1] == text[d + 1..e][0]; }
    DigitStart(text, p, m);
    var m1 := m.(valBegin := p, state := ValueDigit);
    ScalarDot(text, d, m1);
    var m2 := m1.(state := ValueDouble);
    SkipDigits(text, d + 1, e, m2);
    RealAtRendered(text, p, w, f);
    if e < |text| {
      RealBlankCommit(text, e, RealLit(w, f), m2);
    }
  }

  /**
   * `key=d.f` (one digit before the point), with any spacing the parser
   * allows, parses back to the key and the real when the number ends the
   * line or is followed by whitespace.
   */
  lemma {:induction false} RealRoundTrip(ind: string, k: string, s1: string, s2: string, w: string, f: string, rest: string)
    requires IsKey(k) && Spacing(ind, s1, s2) && WellFormed(RealLit(w, f)) && |w| == 1 && RealTerminated(rest)
    ensures ParseLine(Head(ind, k, s1, s2) + Literal(RealLit(w, f)) + rest) == Parsed(k, Real, [RealLit(w, f)])
  {
    var h := Head(ind, k, s1, s2);
    var lit := w + "." + f;
    var line := h + lit;
    LiteralNoNul(RealLit(w, f));
    HeadNoNul(ind, k, s1, s2, lit);
    SeenText(line, rest);
    var text := line + CString(rest);
    ReadsHead(text, ind, k, s1, s2, lit);
    var p := |h|;
    var e := |line|;
    assert e == |text| || text[e] == rest[0] by {
      if e < |text| {
        assert text[e] == CString(rest)[0];
      }
    }
    var m := Initial.(state := SpacesBeforeValues, keyBegin := |ind|, key := k);
    ScalarRealRun(text, p, e, w, f, m);
    if e < |text| {
      FinishedLine(text, e + 1, k, Real, [RealLit(w, f)]);
    } else {
      NumberAtEndLine(text, m.(valBegin := p, state := ValueDouble), RealLit(w, f));
    }
  }

  /** What may follow a scalar literal for the line to be read back. */
  predicate ReadsBack(v: Value, rest: string) {
    && WellFormed(v)
    && match v
       case Int(n) => IntTerminated(n, rest)
       case RealLit(w, f) => |w| == 1 && RealTerminated(rest)
       case Str(s) => true
  }

  /** The scalar line the parser reads back, with any spacing the parser allows. */
  lemma {:induction false} ScalarRoundTrip(ind: string, k: string, s1: string, s2: string, v: Value, rest: string)
    requires IsKey(k) && Spacing(ind, s1, s2) && ReadsBack(v, rest)
    ensures ParseLine(Head(ind, k, s1, s2) + Literal(v) + rest) == Parsed(k, TypeOf(v), [v])
  {
    match v
    case Int(n) => IntRoundTrip(ind, k, s1, s2, n, rest);
    case RealLit(w, f) => RealRoundTrip(ind, k, s1, s2, w, f, rest);
    case Str(s) => StringRoundTrip(ind, k, s1, s2, s, rest);
  }

  /** Blanks before the key and spaces around the '=' change nothing in a scalar line. */
  lemma {:induction false} ScalarSpacingIgnored(ind: string, k: string, s1: string, s2: string, v: Value, rest: string)
    requires IsKey(k) && Spacing(ind, s1, s2) && ReadsBack(v, rest)
    ensures ParseLine(Head(ind, k, s1, s2) + Literal(v) + rest) == ParseLine(ScalarLine(k, v) + rest)
  {
    ScalarRoundTrip(ind, k, s1, s2, v, rest);
    ScalarRoundTrip("", k, "", "", v, rest);
    PlainHead(k, Literal(v));
  }
}
