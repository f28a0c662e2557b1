/**
 * Lemmas that advance the line parser over whole tokens: runs of whitespace,
 * a key, the escaped body of a string and one array element at a time.
 */
module ParserWalk {
  import opened Chars
  import opened Values
  import opened Parser
  import opened Render
  import Decimal

  /** Over characters on which the machine does not move, the loop just advances. */
  lemma {:induction false} RunSteady(text: string, pos: nat, j: nat, m: Machine)
    requires pos <= j <= |text| && Placed(m, pos) && !Halting(m.state)
    requires forall i | pos <= i < j :: Step(text, i, m) == m
    ensures Run(text, pos, m) == Run(text, j, m)
    decreases j - pos
  {
    if pos < j {
      RunStep(text, pos, m, m);
      RunSteady(text, pos + 1, j, m);
    }
  }

  /** Once halted, the loop stops at once. */
  lemma {:induction false} RunHalted(text: string, pos: nat, m: Machine)
    requires pos <= |text| && Placed(m, pos) && Halting(m.state)
    ensures Run(text, pos, m) == (m, pos)
  {
  }

  /** Leading whitespace leaves the machine in START. */
  lemma {:induction false} SkipBlanks(text: string, p: nat, e: nat, m: Machine)
    requires p <= e <= |text| && Placed(m, p) && m.state == Start
    requires AllBlank(text[p..e])
    ensures Run(text, p, m) == Run(text, e, m)
  {
    forall i | p <= i < e ensures Step(text, i, m) == m {
      assert text[i] == text[p..e][i - p];
      BlankStep(text, i, m);
    }
    RunSteady(text, p, e, m);
  }

  /** A blank keeps START where it is. */
  lemma {:induction false} BlankStep(text: string, i: nat, m: Machine)
    requires i < |text| && Placed(m, i) && IsBlank(text[i]) && m.state == Start
    ensures Step(text, i, m) == m
  {
  }

  /** Reading a key from START leaves the machine in KEY with the key's offset. */
  lemma {:induction false} ReadKey(text: string, p: nat, e: nat, m: Machine)
    requires p < e <= |text| && Placed(m, p) && m.state == Start
    requires IsKey(text[p..e])
    ensures Run(text, p, m) == Run(text, e, m.(state := Key, keyBegin := p))
  {
    var m1 := m.(state := Key, keyBegin := p);
    assert text[p] == text[p..e][0];
    RunStep(text, p, m, m1);
    forall i | p + 1 <= i < e ensures Step(text, i, m1) == m1 {
      assert text[i] == text[p..e][i - p];
      assert IsKeyChar(text[i]);
    }
    RunSteady(text, p + 1, e, m1);
  }

  /** `key=` from START: the key is cut out and values are expected next. */
  lemma {:induction false} ReadAssignment(text: string, p: nat, k: string, m: Machine)
    requires Placed(m, p) && m.state == Start && IsKey(k)
    requires p + |k| < |text| && text[p..p + |k|] == k && text[p + |k|] == '='
    ensures Run(text, p, m) ==
            Run(text, p + |k| + 1, m.(state := SpacesBeforeValues, keyBegin := p, key := k))
  {
    var e := p + |k|;
    ReadKey(text, p, e, m);
    RunStep(text, e, m.(state := Key, keyBegin := p),
            m.(state := SpacesBeforeValues, keyBegin := p, key := k));
  }

  /** The states a space leaves where they are: around the '=' and around array elements. */
  predicate SpaceKeeps(st: State) {
    st in {SpacesAfterKey, SpacesBeforeValues, ValueArray,
           SpacesAfterArraysString, SpacesBeforeArraysString, SpacesAfterArraysLong,
           SpacesBeforeArraysLong, SpacesAfterArraysDouble, SpacesBeforeArraysDouble}
  }

  /** Spaces keep the states waiting on either side of the '=', or around an array element, where they are. */
  lemma {:induction false} SkipSpaces(text: string, p: nat, e: nat, m: Machine)
    requires p <= e <= |text| && Placed(m, p)
    requires SpaceKeeps(m.state)
    requires AllSpaces(text[p..e])
    ensures Run(text, p, m) == Run(text, e, m)
  {
    forall i | p <= i < e ensures Step(text, i, m) == m {
      assert text[i] == text[p..e][i - p];
      SpaceStep(text, i, m);
    }
    RunSteady(text, p, e, m);
  }

  /** A space keeps each of those states where it is. */
  lemma {:induction false} SpaceStep(text: string, i: nat, m: Machine)
    requires i < |text| && Placed(m, i) && text[i] == ' ' && SpaceKeeps(m.state)
    ensures Step(text, i, m) == m
  {
  }

  /** A key ended by spaces and '=', or by '=' alone: the key is cut out at its first space or at the '='. */
  lemma {:induction false} KeyThenEquals(text: string, a: nat, e: nat, d: nat, m: Machine)
    requires Placed(m, e) && m.state == Key && m.keyBegin == a
    requires a <= e <= d < |text| && AllSpaces(text[e..d]) && text[d] == '='
    ensures Run(text, e, m) == Run(text, d + 1, m.(state := SpacesBeforeValues, key := text[a..e]))
  {
    var m2 := m.(state := SpacesBeforeValues, key := text[a..e]);
    if e == d {
      RunStep(text, e, m, m2);
    } else {
      assert text[e] == ' ' by { assert text[e] == text[e..d][0]; }
      var m1 := m.(state := SpacesAfterKey, key := text[a..e]);
      RunStep(text, e, m, m1);
      assert text[e + 1..d] == text[e..d][1..];
      SkipSpaces(text, e + 1, d, m1);
      RunStep(text, d, m1, m2);
    }
  }

  /**
   * Blanks, a key, spaces, '=' and spaces from START: the key is cut out
   * where it stands and values are expected next.
   */
  lemma {:induction false} ReadSpacedAssignment(text: string, p: nat, a: nat, e: nat, d: nat, q: nat, m: Machine)
    requires Placed(m, p) && m.state == Start
    requires p <= a < e <= d < q <= |text|
    requires AllBlank(text[p..a]) && IsKey(text[a..e]) && AllSpaces(text[e..d])
    requires text[d] == '=' && AllSpaces(text[d + 1..q])
    ensures Run(text, p, m) == Run(text, q, m.(state := SpacesBeforeValues, keyBegin := a, key := text[a..e]))
  {
    SkipBlanks(text, p, a, m);
    ReadKey(text, a, e, m);
    var mk := m.(state := Key, keyBegin := a);
    KeyThenEquals(text, a, e, d, mk);
    SkipSpaces(text, d + 1, q, mk.(state := SpacesBeforeValues, key := text[a..e]));
  }

  /** A run of digits keeps the digit-reading states where they are. */
  lemma {:induction false} SkipDigits(text: string, p: nat, e: nat, m: Machine)
    requires p <= e <= |text| && Placed(m, p)
    requires m.state in {NextDigit, NextExpectedLong, NextDouble, NextExpectedDouble, NextExactlyDouble, ValueDouble}
    requires AllDigits(text[p..e])
    ensures Run(text, p, m) == Run(text, e, m)
  {
    forall i | p <= i < e ensures Step(text, i, m) == m {
      assert text[i] == text[p..e][i - p];
      DigitStep(text, i, m);
    }
    RunSteady(text, p, e, m);
  }

  /** A digit keeps each digit-reading state where it is. */
  lemma {:induction false} DigitStep(text: string, i: nat, m: Machine)
    requires i < |text| && Placed(m, i) && IsDigit(text[i])
    requires m.state in {NextDigit, NextExpectedLong, NextDouble, NextExpectedDouble, NextExactlyDouble, ValueDouble}
    ensures Step(text, i, m) == m
  {
  }

  // ---------------------------------------------------------------------------
  // Strings
  // ---------------------------------------------------------------------------

  predicate InString(st: State) {
    st == ValueString || st == NextString
  }

  /**
   * text[p..q] is a string body the machine reads without leaving the string:
   * no bare '"' or newline, and every '\' has a character after it.
   */
  predicate EscapedSpan(text: string, p: nat, q: nat)
    requires p <= q <= |text|
    decreases q - p
  {
    if p == q then true
    else if text[p] == '\\' then p + 2 <= q && EscapedSpan(text, p + 2, q)
    else !NeedsEscape(text[p]) && EscapedSpan(text, p + 1, q)
  }

  /** An ordinary character inside a string is skipped. */
  lemma {:induction false} PlainCharInString(text: string, p: nat, m: Machine)
    requires p < |text| && Placed(m, p) && InString(m.state)
    requires !NeedsEscape(text[p])
    ensures Run(text, p, m) == Run(text, p + 1, m)
  {
    RunStep(text, p, m, m);
  }

  /** A '\' and the character after it are skipped together. */
  lemma {:induction false} EscapedCharInString(text: string, p: nat, m: Machine)
    requires p + 1 < |text| && Placed(m, p) && InString(m.state)
    requires text[p] == '\\'
    ensures Run(text, p, m) == Run(text, p + 2, m)
  {
    var slash := if m.state == ValueString then ValueStringSlash else NextStringSlash;
    SlashStep(text, p, m);
    RunStep(text, p, m, m.(state := slash));
    RunStep(text, p + 1, m.(state := slash), m);
  }

  /** '\' inside a string moves to the escape state, and any character after it moves back. */
  lemma {:induction false} SlashStep(text: string, p: nat, m: Machine)
    requires p + 1 < |text| && Placed(m, p) && InString(m.state) && text[p] == '\\'
    ensures var slash := if m.state == ValueString then ValueStringSlash else NextStringSlash;
            Step(text, p, m) == m.(state := slash) && Step(text, p + 1, m.(state := slash)) == m
  {
  }

  /** A string body leaves the string-reading state where it is. */
  lemma {:induction false} SkipEscapedSpan(text: string, p: nat, q: nat, m: Machine)
    requires p <= q <= |text| && Placed(m, p) && InString(m.state)
    requires EscapedSpan(text, p, q)
    ensures Run(text, p, m) == Run(text, q, m)
    decreases q - p
  {
    if p < q {
      if text[p] == '\\' {
        EscapedCharInString(text, p, m);
        SkipEscapedSpan(text, p + 2, q, m);
      } else {
        PlainCharInString(text, p, m);
        SkipEscapedSpan(text, p + 1, q, m);
      }
    }
  }

  /** Escaping a NUL-free string yields a body the machine reads in one piece. */
  lemma {:induction false} EscapeIsSpan(text: string, p: nat, s: string)
    requires p + |Escape(s)| <= |text| && text[p..p + |Escape(s)|] == Escape(s)
    ensures EscapedSpan(text, p, p + |Escape(s)|)
    decreases |s|
  {
    if |s| > 0 {
      var u := EscapeChar(s[0]);
      var tail := Escape(s[1..]);
      var e := p + |Escape(s)|;
      assert Escape(s) == u + tail;
      SplitSlice(text, p, e, u, tail);
      assert text[p] == u[0] by { assert text[p] == text[p..p + |u|][0]; }
      if NeedsEscape(s[0]) {
        assert text[p] == '\\';
      }
      EscapeIsSpan(text, p + |u|, s[1..]);
    }
  }

  /** The escaped body of a string, ending at q, leaves the string-reading state where it is. */
  lemma {:induction false} SkipEscaped(text: string, p: nat, q: nat, s: string, m: Machine)
    requires Placed(m, p) && InString(m.state)
    requires q == p + |Escape(s)| <= |text| && text[p..q] == Escape(s)
    ensures Run(text, p, m) == Run(text, q, m)
  {
    EscapeIsSpan(text, p, s);
    SkipEscapedSpan(text, p, q, m);
  }

  // ---------------------------------------------------------------------------
  // Values
  // ---------------------------------------------------------------------------

  /** Leading zeros skipped by "DELETE LEFT NULLS" do not change what `strtoll` reads. */
  lemma {:induction false} SkipZerosKeepsValue(text: string, b: nat, e: nat)
    requires b <= |text|
    ensures Decimal.Value(DigitRun(text, SkipLeadingZeros(text, b, e))) == Decimal.Value(DigitRun(text, b))
    decreases |text| - b
  {
    if b < |text| && text[b] == '0' && b + 1 < e {
      SkipZerosKeepsValue(text, b + 1, e);
      assert DigitRun(text, b) == "0" + DigitRun(text, b + 1);
      Decimal.LeadingZero(DigitRun(text, b + 1));
    }
  }

  /** The digit run starting at a rendered token that is not followed by a digit is that token. */
  lemma {:induction false} DigitRunOf(text: string, p: nat, ds: string)
    requires p + |ds| <= |text| && text[p..p + |ds|] == ds && AllDigits(ds)
    requires p + |ds| == |text| || !IsDigit(text[p + |ds|])
    ensures DigitRun(text, p) == ds
    decreases |ds|
  {
    if |ds| > 0 {
      assert text[p] == ds[0];
      assert text[p + 1..p + 1 + |ds[1..]|] == ds[1..];
      DigitRunOf(text, p + 1, ds[1..]);
      assert [ds[0]] + ds[1..] == ds;
    }
  }

  /** The integer committed for a rendered number is that number. */
  lemma {:induction false} IntAtRendered(text: string, p: nat, e: nat, n: nat)
    requires n <= Decimal.LLONG_MAX && e == p + |Decimal.Render(n)| <= |text|
    requires text[p..e] == Decimal.Render(n)
    requires e == |text| || !IsDigit(text[e])
    ensures IntAt(text, p, e) == Int(n)
  {
    var ds := Decimal.Render(n);
    assert AllDigits(ds);
    DigitRunOf(text, p, ds);
    SkipZerosKeepsValue(text, p, e);
    Decimal.ValueOfRender(n);
  }

  /** The digit run from `b` onwards, whatever the token end, gives the committed integer. */
  lemma {:induction false} IntAtIsDigitRun(text: string, b: nat, e: nat)
    requires b <= |text|
    ensures IntAt(text, b, e) == Int(Decimal.Strtoll(DigitRun(text, b)))
  {
    SkipZerosKeepsValue(text, b, e);
  }

  lemma {:induction false} RealAtRendered(text: string, p: nat, w: string, f: string)
    requires AllDigits(w) && p + |w| + 1 + |f| <= |text|
    requires text[p..p + |w| + 1 + |f|] == w + "." + f
    ensures RealAt(text, p, p + |w| + 1 + |f|) == RealLit(w, f)
  {
    DigitsHaveNoDot(w);
    SplitAtDotOf(w, f);

  }

  // ---------------------------------------------------------------------------
  // Array elements
  // ---------------------------------------------------------------------------

  /** The state in which the machine waits for an array element of type `t`. */
  function Awaiting(t: VarType, first: bool): State {
    if first then ValueArray
    else match t
      case Integer => SpacesBeforeArraysLong
      case Real => SpacesBeforeArraysDouble
      case _ => SpacesBeforeArraysString
  }

  /** Where the machine records the start of the token for `v` written at `p`. */
  function TokenBegin(v: Value, p: nat): nat {
    if v.Str? then p + 1 else p
  }

  /** The state in which the machine skips spaces after an array element of type `t`. */
  function SpacesAfter(t: VarType): State {
    match t
    case Integer => SpacesAfterArraysLong
    case Real => SpacesAfterArraysDouble
    case _ => SpacesAfterArraysString
  }

  /** The state after an element of type `t` and the character `sep` (',', ']' or ' ') that follows it. */
  function Settled(t: VarType, sep: char): State {
    if sep == ',' then Awaiting(t, false) else if sep == ']' then Finish else SpacesAfter(t)
  }

  /** The machine once it has read the element `v` written at `p` and the character `sep` after it. */
  function AfterElement(m: Machine, v: Value, p: nat, sep: char): Machine {
    m.(valBegin := TokenBegin(v, p), vtype := TypeOf(v), values := m.values + [v],
       state := Settled(TypeOf(v), sep))
  }

  lemma {:induction false} IntElement(text: string, p: nat, e: nat, n: nat, m: Machine, first: bool)
    requires Placed(m, p) && m.state == Awaiting(Integer, first) && (!first ==> m.vtype == Integer)
    requires n <= Decimal.LLONG_MAX && e == p + |Decimal.Render(n)| < |text|
    requires text[p..e] == Decimal.Render(n) && text[e] in {',', ']', ' '}
    ensures Run(text, p, m) == Run(text, e + 1, AfterElement(m, Int(n), p, text[e]))
  {
    var m1 := m.(valBegin := p, state := if first then NextDigit else NextExpectedLong);
    NumberStart(text, p, e, m, m1);
    IntAtRendered(text, p, e, n);
    RunStep(text, e, m1, AfterElement(m, Int(n), p, text[e]));
  }

  /** One transition of the loop from a state that does not halt. */
  lemma {:induction false} RunStep(text: string, pos: nat, m: Machine, m': Machine)
    requires pos < |text| && Placed(m, pos) && !Halting(m.state) && Step(text, pos, m) == m'
    ensures Run(text, pos, m) == Run(text, pos + 1, m')
  {
    assert Run(text, pos, m) == Turn(text, pos, m) == Advance(text, pos, m);
  }

  /** The first digit of a number opens the token; the rest of the digits are skipped. */
  lemma {:induction false} NumberStart(text: string, p: nat, d: nat, m: Machine, m1: Machine)
    requires Placed(m, p) && p < d <= |text| && AllDigits(text[p..d])
    requires m.state in {ValueArray, SpacesBeforeArraysLong, SpacesBeforeArraysDouble}
    requires m1 == m.(valBegin := p, state :=
      if m.state == ValueArray then NextDigit
      else if m.state == SpacesBeforeArraysLong then NextExpectedLong
      else NextExpectedDouble)
    ensures Run(text, p, m) == Run(text, d, m1)
  {
    assert IsDigit(text[p]) by { assert text[p] == text[p..d][0]; }
    RunStep(text, p, m, m1);
    assert text[p + 1..d] == text[p..d][1..];
    SkipDigits(text, p + 1, d, m1);
  }

  /** A '.' followed by digits moves a number token to its fraction. */
  lemma {:induction false} FractionStart(text: string, d: nat, e: nat, m: Machine, m2: Machine)
    requires Placed(m, d) && d + 1 < e <= |text| && text[d] == '.' && AllDigits(text[d + 1..e])
    requires m.state in {NextDigit, NextExpectedDouble}
    requires m2 == m.(state := if m.state == NextDigit then NextDouble else NextExactlyDouble)
    ensures Run(text, d, m) == Run(text, e, m2)
  {
    assert IsDigit(text[d + 1]) by { assert text[d + 1] == text[d + 1..e][0]; }
    RunStep(text, d, m, m2);
    SkipDigits(text, d + 1, e, m2);
  }

  /** The separator after a real commits it. */
  lemma {:induction false} RealCommit(text: string, p: nat, e: nat, v: Value, m: Machine, first: bool)
    requires Placed(m, e) && m.valBegin == p && p <= e < |text| && (!first ==> m.vtype == Real)
    requires m.state == (if first then NextDouble else NextExactlyDouble)
    requires RealAt(text, p, e) == v && text[e] in {',', ']', ' '}
    ensures Run(text, e, m) ==
      Run(text, e + 1, m.(vtype := Real, values := m.values + [v], state := Settled(Real, text[e])))
  {
    RunStep(text, e, m, m.(vtype := Real, values := m.values + [v], state := Settled(Real, text[e])));
  }

  /** Where the whole part, the '.' and the fraction of a real literal lie. */
  lemma {:induction false} DottedSplit(text: string, p: nat, e: nat, w: string, f: string)
    requires e == p + |w| + 1 + |f| <= |text| && text[p..e] == w + "." + f
    ensures text[p..p + |w|] == w && text[p + |w|] == '.' && text[p + |w| + 1..e] == f
  {
    var d := p + |w|;
    assert w + "." + f == w + ("." + f);
    SplitSlice(text, p, e, w, "." + f);
    SplitSlice(text, d, e, ".", f);
    assert text[d] == text[d..d + 1][0];
  }

  lemma {:induction false} RealElement(text: string, p: nat, d: nat, e: nat, w: string, f: string, m: Machine, first: bool)
    requires Placed(m, p) && m.state == Awaiting(Real, first) && (!first ==> m.vtype == Real)
    requires WellFormed(RealLit(w, f))
    requires d == p + |w| && e == d + 1 + |f| < |text|
    requires text[p..e] == w + "." + f && text[e] in {',', ']', ' '}
    ensures Run(text, p, m) == Run(text, e + 1, AfterElement(m, RealLit(w, f), p, text[e]))
  {
    var m2 := RealDigits(text, p, d, e, w, f, m, first);
    RealAtRendered(text, p, w, f);
    RealCommit(text, p, e, RealLit(w, f), m2, first);
    var m3 := m2.(vtype := Real, values := m.values + [RealLit(w, f)], state := Settled(Real, text[e]));
    assert m3 == AfterElement(m, RealLit(w, f), p, text[e]);
  }

  /** The digits, the '.' and the fraction of a real element leave the machine in its fraction state. */
  lemma {:induction false} RealDigits(text: string, p: nat, d: nat, e: nat, w: string, f: string, m: Machine, first: bool)
    returns (m2: Machine)
    requires Placed(m, p) && m.state == Awaiting(Real, first)
    requires WellFormed(RealLit(w, f))
    requires d == p + |w| && e == d + 1 + |f| < |text|
    requires text[p..e] == w + "." + f
    ensures m2 == m.(valBegin := p, state := if first then NextDouble else NextExactlyDouble)
    ensures text[p..d] == w && text[d] == '.' && text[d + 1..e] == f
    ensures Run(text, p, m) == Run(text, e, m2)
  {
    DottedSplit(text, p, e, w, f);
    var m1 := m.(valBegin := p, state := if first then NextDigit else NextExpectedDouble);
    NumberStart(text, p, d, m, m1);
    m2 := m1.(state := if first then NextDouble else NextExactlyDouble);
    FractionStart(text, d, e, m1, m2);
  }

  /** Where the body and the closing quote of a quoted literal lie. */
  lemma {:induction false} QuotedSplit(text: string, p: nat, c: nat, e: nat, s: string)
    requires c == p + 1 + |Escape(s)| && e == c + 1 <= |text|
    requires text[p..e] == "\"" + Escape(s) + "\""
    ensures text[p] == '"' && text[p + 1..c] == Escape(s) && text[c] == '"'
  {
    assert "\"" + Escape(s) + "\"" == "\"" + (Escape(s) + "\"");
    SplitSlice(text, p, e, "\"", Escape(s) + "\"");
    SplitSlice(text, p + 1, e, Escape(s), "\"");
    assert text[p] == text[p..p + 1][0];
    assert text[c] == text[c..e][0];
  }

  lemma {:induction false} StrElement(text: string, p: nat, c: nat, e: nat, s: string, m: Machine, first: bool)
    requires Placed(m, p) && m.state == Awaiting(String, first) && (!first ==> m.vtype == String)
    requires c == p + 1 + |Escape(s)| && e == c + 1 < |text|
    requires text[p..e] == "\"" + Escape(s) + "\"" && text[e] in {',', ']', ' '}
    ensures Run(text, p, m) == Run(text, e + 1, AfterElement(m, Str(s), p, text[e]))
  {
    QuotedSplit(text, p, c, e, s);
    var m1 := m.(valBegin := p + 1, state := NextString);
    StrOpen(text, p, c, s, m, m1);
    StrClose(text, p + 1, c, s, m1);
    var m2 := m1.(vtype := String, values := m.values + [Str(s)], state := SpacesAfterArraysString);
    StrSettles(text, e, m2, m, p, s);
    RunStep(text, e, m2, AfterElement(m, Str(s), p, text[e]));
  }

  /** After a closed string element, ',', ']' or ' ' settles the machine as for any element. */
  lemma {:induction false} StrSettles(text: string, e: nat, m2: Machine, m: Machine, p: nat, s: string)
    requires e < |text| && text[e] in {',', ']', ' '} && Placed(m2, e)
    requires m2 == m.(valBegin := p + 1, vtype := String, values := m.values + [Str(s)], state := SpacesAfterArraysString)
    ensures Step(text, e, m2) == AfterElement(m, Str(s), p, text[e])
  {
  }

  /** The opening quote of an array element starts the token, and its escaped body is skipped. */
  lemma {:induction false} StrOpen(text: string, p: nat, c: nat, s: string, m: Machine, m1: Machine)
    requires Placed(m, p) && m.state in {ValueArray, SpacesBeforeArraysString}
    requires c == p + 1 + |Escape(s)| < |text| && text[p] == '"' && text[p + 1..c] == Escape(s)
    requires m1 == m.(valBegin := p + 1, state := NextString)
    ensures Run(text, p, m) == Run(text, c, m1)
  {
    RunStep(text, p, m, m1);
    SkipEscaped(text, p + 1, c, s, m1);
  }

  /** The closing quote commits the unescaped string. */
  lemma {:induction false} StrClose(text: string, b: nat, c: nat, s: string, m: Machine)
    requires Placed(m, c) && m.valBegin == b && InString(m.state)
    requires b <= c < |text| && text[b..c] == Escape(s) && text[c] == '"'
    ensures Run(text, c, m) ==
      Run(text, c + 1, m.(vtype := String, values := m.values + [Str(s)],
                          state := if m.state == ValueString then Finish else SpacesAfterArraysString))
  {
    UnescapeEscape(s);
    RunStep(text, c, m, m.(vtype := String, values := m.values + [Str(s)],
                           state := if m.state == ValueString then Finish else SpacesAfterArraysString));
  }

  /** Any well-formed value, written as its literal and followed by ',', ']' or ' ', is read back. */
  lemma {:induction false} Element(text: string, p: nat, e: nat, v: Value, m: Machine, first: bool)
    requires WellFormed(v) && TypeOf(v) != Undefined
    requires Placed(m, p) && m.state == Awaiting(TypeOf(v), first) && (!first ==> m.vtype == TypeOf(v))
    requires e == p + |Literal(v)| < |text| && text[p..e] == Literal(v) && text[e] in {',', ']', ' '}
    ensures Run(text, p, m) == Run(text, e + 1, AfterElement(m, v, p, text[e]))
  {
    match v
    case Int(n) => IntElement(text, p, e, n, m, first);
    case RealLit(w, f) => RealElement(text, p, p + |w|, e, w, f, m, first);
    case Str(s) => StrElement(text, p, p + 1 + |Escape(s)|, e, s, m, first);
  }

  lemma {:induction false} CommaSplit(text: string, p: nat, q: nat, a: string, b: string, z: char)
    requires q == p + |a| + 1 + |b| + 1 <= |text| && text[p..q] == a + "," + b + [z]
    ensures text[p..p + |a|] == a && text[p + |a|] == ','
    ensures text[p + |a| + 1..q] == b + [z]
  {
    var e := p + |a|;
    SplitSlice(text, p, q, a + "," + b, [z]);
    SplitSlice(text, p, q - 1, a + ",", b);
    SplitSlice(text, p, e + 1, a, ",");
    assert text[e] == text[e..e + 1][0];
    JoinSlice(text, e + 1, q - 1, q, b, [z]);
  }

  lemma {:induction false} HomogeneousTail(t: VarType, vs: seq<Value>)
    requires Homogeneous(t, vs) && |vs| > 1
    ensures Homogeneous(t, vs[1..]) && TypeOf(vs[0]) == t && WellFormed(vs[0])
  {
    forall i | 0 <= i < |vs[1..]| ensures TypeOf(vs[1..][i]) == t && WellFormed(vs[1..][i]) {
      assert vs[1..][i] == vs[i + 1];
    }
  }

  /** The loop stopped at `q` in FINISH with the given key, type and values. */
  predicate FinishedAt(h: (Machine, nat), q: nat, key: string, t: VarType, vs: seq<Value>) {
    h.1 == q && h.0.state == Finish && h.0.key == key && h.0.vtype == t && h.0.values == vs
  }

  lemma {:induction false} Singleton<T>(vs: seq<T>)
    requires |vs| == 1
    ensures vs == [vs[0]]
  {
  }

  lemma {:induction false} AppendFirst<T>(a: seq<T>, vs: seq<T>)
    requires |vs| > 0
    ensures (a + [vs[0]]) + vs[1..] == a + vs
  {
    assert [vs[0]] + vs[1..] == vs;
  }

  // ---------------------------------------------------------------------------
  // Padded lists of elements
  // ---------------------------------------------------------------------------

  /** A slice spelling `x + y + w` is three adjacent slices spelling `x`, `y` and `w`. */
  lemma {:induction false} ThreeSplit(text: string, p: nat, d: nat, x: string, y: string, w: string)
    requires d == p + |x| + |y| + |w| <= |text| && text[p..d] == x + y + w
    ensures text[p..p + |x|] == x && text[p + |x|..p + |x| + |y|] == y && text[p + |x| + |y|..d] == w
  {
    SplitSlice(text, p, d, x + y, w);
    SplitSlice(text, p, d - |w|, x, y);
  }

  /** Spaces, a literal, spaces and then ',' or ']' take the machine past one element. */
  lemma {:induction false} PaddedElement(text: string, p: nat, a: nat, e: nat, d: nat, v: Value, m: Machine, first: bool)
    requires WellFormed(v) && TypeOf(v) != Undefined
    requires Placed(m, p) && m.state == Awaiting(TypeOf(v), first) && (!first ==> m.vtype == TypeOf(v))
    requires p <= a && e == a + |Literal(v)| <= d < |text|
    requires AllSpaces(text[p..a]) && text[a..e] == Literal(v) && AllSpaces(text[e..d])
    requires text[d] in {',', ']'}
    ensures Run(text, p, m) == Run(text, d + 1, AfterElement(m, v, a, text[d]))
  {
    SkipSpaces(text, p, a, m);
    if e < d {
      LeadingSpace(text, e, d);
      Element(text, a, e, v, m, first);
      SpacesThenSeparator(text, e + 1, d, v, a, m);
    } else {
      Element(text, a, e, v, m, first);
    }
  }

  /** A non-empty run of spaces is a space and a shorter run. */
  lemma {:induction false} LeadingSpace(text: string, e: nat, d: nat)
    requires e < d <= |text| && AllSpaces(text[e..d])
    ensures text[e] == ' ' && AllSpaces(text[e + 1..d])
  {
    assert text[e] == text[e..d][0];
    assert text[e + 1..d] == text[e..d][1..];
  }

  /** After an element and a ' ', further spaces and then ',' or ']' settle the machine. */
  lemma {:induction false} SpacesThenSeparator(text: string, s: nat, d: nat, v: Value, a: nat, m: Machine)
    requires s <= d < |text| && AllSpaces(text[s..d]) && text[d] in {',', ']'}
    requires Placed(AfterElement(m, v, a, ' '), s)
    ensures Run(text, s, AfterElement(m, v, a, ' ')) == Run(text, d + 1, AfterElement(m, v, a, text[d]))
  {
    var m1 := AfterElement(m, v, a, ' ');
    SkipSpaces(text, s, d, m1);
    SeparatorStep(text, d, v, a, m);
    RunStep(text, d, m1, AfterElement(m, v, a, text[d]));
  }

  /** In a SPACES_AFTER_ARRAYS state, ',' awaits the next element and ']' finishes the list. */
  lemma {:induction false} SeparatorStep(text: string, d: nat, v: Value, a: nat, m: Machine)
    requires d < |text| && text[d] in {',', ']'} && Placed(AfterElement(m, v, a, ' '), d)
    ensures Step(text, d, AfterElement(m, v, a, ' ')) == AfterElement(m, v, a, text[d])
  {
  }

  /** A padded element at [p, d), followed by ',' or ']' at `d`. */
  lemma {:induction false} PaddedAt(text: string, p: nat, d: nat, v: Value, pad: Pad, m: Machine, first: bool)
    requires WellFormed(v) && TypeOf(v) != Undefined && AllSpaces(pad.before) && AllSpaces(pad.after)
    requires Placed(m, p) && m.state == Awaiting(TypeOf(v), first) && (!first ==> m.vtype == TypeOf(v))
    requires d == p + |Padded(v, pad)| < |text| && text[p..d] == Padded(v, pad) && text[d] in {',', ']'}
    ensures Run(text, p, m) == Run(text, d + 1, AfterElement(m, v, p + |pad.before|, text[d]))
  {
    var x, y := pad.before, Literal(v);
    ThreeSplit(text, p, d, x, y, pad.after);
    PaddedElement(text, p, p + |x|, p + |x| + |y|, d, v, m, first);
  }

  /** The only element of a one-element list, with its padding and type. */
  lemma {:induction false} OnlyElement(t: VarType, vs: seq<Value>, pads: seq<Pad>)
    requires Homogeneous(t, vs) && |vs| == 1 && |pads| == 1 && Spaced(pads)
    ensures TypeOf(vs[0]) == t && WellFormed(vs[0]) && AllSpaces(pads[0].before) && AllSpaces(pads[0].after)
    ensures SpacedElements(vs, pads) == Padded(vs[0], pads[0])
  {
  }

  /** One padded element and the ',' or ']' after it take the machine past that element. */
  lemma {:induction false} OnePadded(text: string, p: nat, q: nat, v: Value, pad: Pad, m: Machine, first: bool, z: char)
    requires WellFormed(v) && TypeOf(v) != Undefined && AllSpaces(pad.before) && AllSpaces(pad.after)
    requires Placed(m, p) && m.state == Awaiting(TypeOf(v), first) && (!first ==> m.vtype == TypeOf(v))
    requires z in {',', ']'} && q == p + |Padded(v, pad)| + 1 <= |text| && text[p..q] == Padded(v, pad) + [z]
    ensures Run(text, p, m) == Run(text, q, AfterElement(m, v, p + |pad.before|, z))
  {
    SplitSlice(text, p, q, Padded(v, pad), [z]);
    assert text[q - 1] == text[q - 1..q][0];
    PaddedAt(text, p, q - 1, v, pad, m, first);
  }

  /** A longer list is its first padded element, a ',' and the padded rest of the list. */
  lemma {:induction false} FirstElement(t: VarType, vs: seq<Value>, pads: seq<Pad>)
    requires Homogeneous(t, vs) && |vs| > 1 && |pads| == |vs| && Spaced(pads)
    ensures TypeOf(vs[0]) == t && WellFormed(vs[0]) && AllSpaces(pads[0].before) && AllSpaces(pads[0].after)
    ensures Homogeneous(t, vs[1..]) && |pads[1..]| == |vs[1..]| && Spaced(pads[1..])
    ensures SpacedElements(vs, pads) == Padded(vs[0], pads[0]) + "," + SpacedElements(vs[1..], pads[1..])
  {
    HomogeneousTail(t, vs);
    SpacedTail(pads);
  }

  /** The first padded literal of a longer list and its ',' leave the machine waiting for the rest. */
  lemma {:induction false} NextPadded(text: string, p: nat, q: nat, t: VarType, vs: seq<Value>, pads: seq<Pad>, m: Machine,
                   first: bool, z: char)
    returns (d: nat, m1: Machine)
    requires Homogeneous(t, vs) && |vs| > 1 && |pads| == |vs| && Spaced(pads)
    requires Placed(m, p) && m.state == Awaiting(t, first) && (!first ==> m.vtype == t)
    requires q == p + |SpacedElements(vs, pads)| + 1 <= |text| && text[p..q] == SpacedElements(vs, pads) + [z]
    ensures Homogeneous(t, vs[1..]) && |pads[1..]| == |vs[1..]| && Spaced(pads[1..])
    ensures q == d + 1 + |SpacedElements(vs[1..], pads[1..])| + 1 <= |text|
    ensures text[d + 1..q] == SpacedElements(vs[1..], pads[1..]) + [z]
    ensures Placed(m1, d + 1) && m1.state == Awaiting(t, false) && m1.vtype == t && m1.key == m.key
    ensures m1.values + vs[1..] == m.values + vs
    ensures Run(text, p, m) == Run(text, d + 1, m1)
  {
    FirstElement(t, vs, pads);
    d, m1 := PaddedComma(text, p, q, vs[0], pads[0], SpacedElements(vs[1..], pads[1..]), m, first, z);
    AppendFirst(m.values, vs);
  }

  /** A padded element and its ',' in front of `y`: the machine awaits the next element at the start of `y`. */
  lemma {:induction false} PaddedComma(text: string, p: nat, q: nat, v: Value, pad: Pad, y: string, m: Machine,
                                       first: bool, z: char)
    returns (d: nat, m1: Machine)
    requires WellFormed(v) && TypeOf(v) != Undefined && AllSpaces(pad.before) && AllSpaces(pad.after)
    requires Placed(m, p) && m.state == Awaiting(TypeOf(v), first) && (!first ==> m.vtype == TypeOf(v))
    requires q == p + |Padded(v, pad)| + 1 + |y| + 1 <= |text| && text[p..q] == Padded(v, pad) + "," + y + [z]
    ensures q == d + 1 + |y| + 1 && text[d + 1..q] == y + [z]
    ensures m1 == AfterElement(m, v, p + |pad.before|, ',') && Placed(m1, d + 1)
    ensures Run(text, p, m) == Run(text, d + 1, m1)
  {
    var x := Padded(v, pad);
    assert x + "," + y + [z] == (x + ",") + (y + [z]);
    d := p + |x|;
    SplitSlice(text, p, q, x + ",", y + [z]);
    m1 := AfterElement(m, v, p + |pad.before|, ',');
    OnePadded(text, p, d + 1, v, pad, m, first, ',');
  }

  /** A one-element list and its ']' finish the array with that element appended. */
  lemma {:induction false} LastPadded(text: string, p: nat, q: nat, t: VarType, vs: seq<Value>, pads: seq<Pad>,
                                      m: Machine, first: bool)
    requires Homogeneous(t, vs) && |vs| == 1 && |pads| == 1 && Spaced(pads)
    requires Placed(m, p) && m.state == Awaiting(t, first) && (!first ==> m.vtype == t)
    requires q == p + |SpacedElements(vs, pads)| + 1 <= |text| && text[p..q] == SpacedElements(vs, pads) + "]"
    ensures FinishedAt(Run(text, p, m), q, m.key, t, m.values + vs)
  {
    OnlyElement(t, vs, pads);
    OnePadded(text, p, q, vs[0], pads[0], m, first, ']');
    RunHalted(text, q, AfterElement(m, vs[0], p + |pads[0].before|, ']'));
    Singleton(vs);
  }

  /**
   * The padded, comma-separated literals of `vs` and the closing ']' take the
   * machine from waiting for an element to FINISH, having appended exactly `vs`.
   */
  lemma {:induction false} SpacedWalk(text: string, p: nat, q: nat, t: VarType, vs: seq<Value>, pads: seq<Pad>,
                                      m: Machine, first: bool)
    requires Homogeneous(t, vs) && |pads| == |vs| && Spaced(pads)
    requires Placed(m, p) && m.state == Awaiting(t, first) && (!first ==> m.vtype == t)
    requires q == p + |SpacedElements(vs, pads)| + 1 <= |text| && text[p..q] == SpacedElements(vs, pads) + "]"
    ensures FinishedAt(Run(text, p, m), q, m.key, t, m.values + vs)
    decreases |vs|
  {
    if |vs| == 1 {
      LastPadded(text, p, q, t, vs, pads, m, first);
    } else {
      var d, m1 := NextPadded(text, p, q, t, vs, pads, m, first, ']');
      SpacedWalk(text, d + 1, q, t, vs[1..], pads[1..], m1, false);
    }
  }

  /**
   * The padded, comma-separated literals of `vs` followed by one more ','
   * leave the machine waiting for a further element of the same type.
   */
  lemma {:induction false} SpacedThenComma(text: string, p: nat, q: nat, t: VarType, vs: seq<Value>, pads: seq<Pad>,
                                           m: Machine, first: bool)
    returns (m2: Machine)
    requires Homogeneous(t, vs) && |pads| == |vs| && Spaced(pads)
    requires Placed(m, p) && m.state == Awaiting(t, first) && (!first ==> m.vtype == t)
    requires q == p + |SpacedElements(vs, pads)| + 1 <= |text| && text[p..q] == SpacedElements(vs, pads) + ","
    ensures Placed(m2, q) && m2.state == Awaiting(t, false) && m2.vtype == t
    ensures Run(text, p, m) == Run(text, q, m2)
    decreases |vs|
  {
    if |vs| == 1 {
      OnlyElement(t, vs, pads);
      OnePadded(text, p, q, vs[0], pads[0], m, first, ',');
      m2 := AfterElement(m, vs[0], p + |pads[0].before|, ',');
    } else {
      var d, m1 := NextPadded(text, p, q, t, vs, pads, m, first, ',');
      m2 := SpacedThenComma(text, d + 1, q, t, vs[1..], pads[1..], m1, false);
    }
  }
}
