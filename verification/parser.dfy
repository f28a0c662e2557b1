/**
 * The one-line configuration parser (`parse_line`): a finite-state machine
 * that reads one C string left to right with one character of lookahead and
 * classifies it as a key with values, a comment, a blank line or a syntax
 * error.
 *
 * Memory handling is replaced by sequences. The C code starts from an
 * uninitialised `values` union and `realloc`s it; the scalar-string branch
 * reallocates `count_values` bytes instead of pointers and stores at index
 * `count_values` (one past the end); the end-of-line real stores at
 * `values.real[count_values]` (one past the end). Here every committed value
 * is appended to a sequence that starts empty, which is what the code
 * evidently means.
 */
module Parser {
  import opened Chars
  import opened Values
  import Decimal

  /** The `States` enumeration of `parse_line`. */
  datatype State =
    | Comment | Error | Finish | Start | Key | SpacesAfterKey | SpacesBeforeValues
    | ValueDigit | ValueDouble | ValueString | ValueStringSlash | ValueArray
    | NextString | NextStringSlash | SpacesAfterArraysString | SpacesBeforeArraysString
    | NextDigit | SpacesAfterArraysLong | SpacesBeforeArraysLong | NextExpectedLong
    | NextDouble | SpacesAfterArraysDouble | SpacesBeforeArraysDouble
    | NextExpectedDouble | NextExactlyDouble

  /** The states in which the character loop stops before consuming more input. */
  predicate Halting(s: State) {
    s == Comment || s == Error || s == Finish
  }

  /**
   * The parser's working variables: current state, start offset of the key,
   * the key once cut out, start offset of the current value, the type fixed
   * by the first committed value and the values committed so far.
   */
  datatype Machine = Machine(
    state: State, keyBegin: nat, key: string, valBegin: nat, vtype: VarType, values: seq<Value>)

  const Initial: Machine := Machine(Start, 0, "", 0, Undefined, [])

  /** The four results of `parse_line`. */
  datatype Outcome =
    | Parsed(key: string, vtype: VarType, values: seq<Value>)
    | CommentLine
    | BlankLine
    | SyntaxError
  {
    /** The integer `parse_line` returns; `*rsize` is `|values|`. */
    function Code(): int {
      match this
      case Parsed(_, _, _) => 0
      case CommentLine => 2
      case BlankLine => 3
      case SyntaxError => -1
    }
  }

  /** Offsets recorded in the machine never point past the current position. */
  predicate Placed(m: Machine, pos: nat) {
    m.keyBegin <= pos && m.valBegin <= pos
  }

  // ---------------------------------------------------------------------------
  // Values committed by the machine
  // ---------------------------------------------------------------------------

  /**
   * The "DELETE LEFT NULLS" loop: advance over '0' characters while at least
   * one character of the token [b, e) remains after the current one.
   */
  function SkipLeadingZeros(text: string, b: nat, e: nat): (r: nat)
    requires b <= |text|
    ensures b <= r <= |text|
    ensures r == b || r < e
    ensures forall i | b <= i < r :: text[i] == '0'
    decreases |text| - b
  {
    if b < |text| && text[b] == '0' && b + 1 < e then SkipLeadingZeros(text, b + 1, e) else b
  }

  /** The maximal run of digits starting at `b`: what `strtoll` consumes. */
  function DigitRun(text: string, b: nat): (ds: string)
    requires b <= |text|
    ensures AllDigits(ds) && b + |ds| <= |text| && ds == text[b..b + |ds|]
    ensures b + |ds| < |text| ==> !IsDigit(text[b + |ds|])
    decreases |text| - b
  {
    if b < |text| && IsDigit(text[b]) then [text[b]] + DigitRun(text, b + 1) else []
  }

  /** The integer committed for the token starting at `b` and ending at `e`. */
  function IntAt(text: string, b: nat, e: nat): Value
    requires b <= |text|
  {
    Int(Decimal.Strtoll(DigitRun(text, SkipLeadingZeros(text, b, e))))
  }

  /** The text before the first '.' and the text after it. */
  function SplitAtDot(s: string): (r: (string, string))
    ensures '.' in s ==> s == r.0 + "." + r.1 && '.' !in r.0
    ensures '.' !in s ==> r == (s, "")
  {
    if |s| == 0 then ("", "")
    else if s[0] == '.' then ("", s[1..])
    else
      var t := SplitAtDot(s[1..]);
      assert s == [s[0]] + s[1..];
      ([s[0]] + t.0, t.1)
  }

  /** The real committed for the token text[b..e]; `strtod` is not modelled. */
  function RealAt(text: string, b: nat, e: nat): Value
    requires b <= e <= |text|
  {
    var p := SplitAtDot(text[b..e]);
    RealLit(p.0, p.1)
  }

  /**
   * "COPY STRING WITHOUT SLASHES": every '\' is dropped and the character
   * after it is kept literally. The machine never ends a string right after a
   * lone '\' (the slash state always consumes the next character), so the
   * last case cannot arise from `parse_line`.
   */
  function Unescape(raw: string): string {
    if |raw| == 0 then []
    else if raw[0] == '\\' && |raw| >= 2 then [raw[1]] + Unescape(raw[2..])
    else if raw[0] == '\\' then []
    else [raw[0]] + Unescape(raw[1..])
  }

  function StrAt(text: string, b: nat, e: nat): Value
    requires b <= e <= |text|
  {
    Str(Unescape(text[b..e]))
  }

  // ---------------------------------------------------------------------------
  // The transition function
  // ---------------------------------------------------------------------------

  /** The characters the KEY state rejects, as the C condition spells them. */
  predicate KeyRejects(c: char) {
    || (c < 'A' && c != ' ' && c != '.' && c != '=')
    || ('Z' < c < 'a' && c != '_')
    || c > 'z'
  }

  /**
   * One turn of the `switch (cur_state)` for the character at `pos`. The
   * character after it (or NUL at the end) is the lookahead consulted at '.'.
   */
  function Step(text: string, pos: nat, m: Machine): (r: Machine)
    requires pos < |text| && Placed(m, pos)
    ensures Placed(r, pos + 1)
    ensures m.values <= r.values && |r.values| <= |m.values| + 1
  {
    var sym := text[pos];
    var next := if pos + 1 < |text| then text[pos + 1] else '\0';
    match m.state
    // The loop leaves these three states before stepping again.
    case Comment => m
    case Error => m
    case Finish => m
    case Start =>
      if sym == '\n' || sym == ' ' || sym == '\t' then m
      else if sym == '#' then m.(state := Comment)
      else if IsKeyStart(sym) then m.(state := Key, keyBegin := pos)
      else m.(state := Error)
    case Key =>
      // On '.' the C code also copies a provisional key; it is always
      // replaced at ' ' or '=' (or freed on error) before anyone sees it.
      if sym == '.' then m
      else if sym == ' ' then m.(key := text[m.keyBegin..pos], state := SpacesAfterKey)
      else if sym == '=' then m.(key := text[m.keyBegin..pos], state := SpacesBeforeValues)
      else if KeyRejects(sym) then m.(state := Error)
      else m
    case SpacesAfterKey =>
      if sym != ' ' && sym != '=' then m.(state := Error)
      else if sym == '=' then m.(state := SpacesBeforeValues)
      else m
    case SpacesBeforeValues =>
      if !(IsDigit(sym) || sym == '"' || sym == '[' || sym == ' ') then m.(state := Error)
      else if sym == ' ' then m
      else if IsDigit(sym) then m.(valBegin := pos, state := ValueDigit)
      else if sym == '"' then m.(valBegin := pos + 1, state := ValueString)
      else m.(state := ValueArray)
    case ValueDigit =>
      if !(IsDigit(sym) || sym == '.' || sym == ' ') then m.(state := Error)
      else if sym == '.' then
        (if !IsDigit(next) then m.(state := Error) else m.(state := ValueDouble))
      else
        // Any digit or space commits: `strtoll` reads the whole digit run.
        m.(vtype := Integer, values := m.values + [IntAt(text, m.valBegin, pos)], state := Finish)
    case ValueDouble =>
      if !(IsDigit(sym) || sym == ' ' || sym == '\t' || sym == '\n') then m.(state := Error)
      else if sym == ' ' || sym == '\t' || sym == '\n' then
        m.(vtype := Real, values := m.values + [RealAt(text, m.valBegin, pos)], state := Finish)
      else m
    case ValueString =>
      if sym == '"' then
        m.(vtype := String, values := m.values + [StrAt(text, m.valBegin, pos)], state := Finish)
      else if sym == '\\' then m.(state := ValueStringSlash)
      else if sym == '\n' then m.(state := Error)
      else m
    case ValueStringSlash => m.(state := ValueString)
    case ValueArray =>
      if sym != ' ' && sym != '"' && !IsDigit(sym) then m.(state := Error)
      else if IsDigit(sym) then m.(valBegin := pos, state := NextDigit)
      else if sym == '"' then m.(valBegin := pos + 1, state := NextString)
      else m
    case NextString =>
      if sym == '"' then
        m.(vtype := String, values := m.values + [StrAt(text, m.valBegin, pos)],
           state := SpacesAfterArraysString)
      else if sym == '\\' then m.(state := NextStringSlash)
      else if sym == '\n' then m.(state := Error)
      else m
    case NextStringSlash => m.(state := NextString)
    case SpacesAfterArraysString =>
      if sym != ' ' && sym != ',' && sym != ']' then m.(state := Error)
      else if sym == ',' then m.(state := SpacesBeforeArraysString)
      else if sym == ']' then m.(state := Finish)
      else m
    case SpacesBeforeArraysString =>
      if sym != ' ' && sym != '"' then m.(state := Error)
      else if sym == '"' then m.(valBegin := pos + 1, state := NextString)
      else m
    case NextDigit =>
      if !IsDigit(sym) && sym != '.' && sym != ' ' && sym != ']' && sym != ',' then m.(state := Error)
      else if sym == '.' then
        (if !IsDigit(next) then m.(state := Error) else m.(state := NextDouble))
      else if sym == ' ' || sym == ']' || sym == ',' then
        m.(vtype := Integer, values := m.values + [IntAt(text, m.valBegin, pos)],
           state := if sym == ' ' then SpacesAfterArraysLong
                    else if sym == ']' then Finish
                    else SpacesBeforeArraysLong)
      else m
    case SpacesAfterArraysLong =>
      if sym != ' ' && sym != ',' && sym != ']' then m.(state := Error)
      else if sym == ',' then m.(state := SpacesBeforeArraysLong)
      else if sym == ']' then m.(state := Finish)
      else m
    case SpacesBeforeArraysLong =>
      if sym != ' ' && !IsDigit(sym) then m.(state := Error)
      else if IsDigit(sym) then m.(valBegin := pos, state := NextExpectedLong)
      else m
    case NextExpectedLong =>
      if !IsDigit(sym) && sym != ' ' && sym != ']' && sym != ',' then m.(state := Error)
      else if sym == ' ' || sym == ']' || sym == ',' then
        m.(values := m.values + [IntAt(text, m.valBegin, pos)],
           state := if sym == ' ' then SpacesAfterArraysLong
                    else if sym == ',' then SpacesBeforeArraysLong
                    else Finish)
      else m
    case NextDouble =>
      if !(IsDigit(sym) || sym == ' ' || sym == ']' || sym == ',') then m.(state := Error)
      else if sym == ' ' || sym == ']' || sym == ',' then
        m.(vtype := Real, values := m.values + [RealAt(text, m.valBegin, pos)],
           state := if sym == ' ' then SpacesAfterArraysDouble
                    else if sym == ',' then SpacesBeforeArraysDouble
                    else Finish)
      else m
    case SpacesAfterArraysDouble =>
      if sym != ' ' && sym != ',' && sym != ']' then m.(state := Error)
      else if sym == ',' then m.(state := SpacesBeforeArraysDouble)
      else if sym == ']' then m.(state := Finish)
      else m
    case SpacesBeforeArraysDouble =>
      if sym != ' ' && !IsDigit(sym) then m.(state := Error)
      else if IsDigit(sym) then m.(valBegin := pos, state := NextExpectedDouble)
      else m
    case NextExpectedDouble =>
      if !IsDigit(sym) && sym != '.' then m.(state := Error)
      else if sym == '.' then
        (if !IsDigit(next) then m.(state := Error) else m.(state := NextExactlyDouble))
      else m
    case NextExactlyDouble =>
      if !(IsDigit(sym) || sym == ' ' || sym == ']' || sym == ',') then m.(state := Error)
      else if sym == ' ' || sym == ']' || sym == ',' then
        m.(values := m.values + [RealAt(text, m.valBegin, pos)],
           state := if sym == ' ' then SpacesAfterArraysDouble
                    else if sym == ',' then SpacesBeforeArraysDouble
                    else Finish)
      else m
  }

  /**
   * The character loop `while (*cur_sym_ptr)` over `text` from `pos`: it
   * stops at the end of the text, or at the next character once the machine
   * is in COMMENT, ERROR or FINISH. Returns the machine and the position at
   * which the loop stopped.
   */
  function Run(text: string, pos: nat, m: Machine): (r: (Machine, nat))
    requires pos <= |text| && Placed(m, pos)
    ensures pos <= r.1 <= |text| && Placed(r.0, r.1)
    ensures r.1 < |text| ==> Halting(r.0.state)
    ensures m.values <= r.0.values
    decreases |text| - pos, 2
  {
    if pos == |text| then (m, pos) else Turn(text, pos, m)
  }

  /** One pass of the loop body over a character that is not the terminating NUL. */
  function Turn(text: string, pos: nat, m: Machine): (r: (Machine, nat))
    requires pos < |text| && Placed(m, pos)
    ensures pos <= r.1 <= |text| && Placed(r.0, r.1)
    ensures r.1 < |text| ==> Halting(r.0.state)
    ensures m.values <= r.0.values
    decreases |text| - pos, 1
  {
    // `break_loop` is raised before the character is consumed.
    if Halting(m.state) then (m, pos) else Advance(text, pos, m)
  }

  /** The transition on the character at `pos`, then the rest of the loop. */
  function Advance(text: string, pos: nat, m: Machine): (r: (Machine, nat))
    requires pos < |text| && Placed(m, pos)
    ensures pos < r.1 <= |text| && Placed(r.0, r.1)
    ensures r.1 < |text| ==> Halting(r.0.state)
    ensures m.values <= r.0.values
    decreases |text| - pos, 0
  {
    Run(text, pos + 1, Step(text, pos, m))
  }

  /** The loop keeps the invariant. */
  lemma {:induction false} RunKeepsInv(text: string, pos: nat, m: Machine)
    requires pos <= |text| && Placed(m, pos) && Inv(text, pos, m)
    ensures Inv(text, Run(text, pos, m).1, Run(text, pos, m).0)
    decreases |text| - pos
  {
    if pos < |text| && !Halting(m.state) {
      assert Run(text, pos, m) == Turn(text, pos, m) == Advance(text, pos, m);
      StepKeepsInv(text, pos, m);
      RunKeepsInv(text, pos + 1, Step(text, pos, m));
    }
  }

  /**
   * The resolution after the loop, where a value the loop had no character
   * left to commit is handled. A digit or real still being read is committed; START means nothing but
   * whitespace was seen; any state other than these, COMMENT and FINISH is an
   * error. The C code forgets to set `type` in the two commit branches; this
   * definition sets it (see EndOfLineAsWritten).
   */
  function EndOfLine(text: string, h: (Machine, nat)): (r: Outcome)
    requires h.1 <= |text| && Placed(h.0, h.1)
    ensures r.SyntaxError? <==>
              h.0.state !in {Start, Comment, Finish, ValueDigit, ValueDouble}
    ensures r.BlankLine? <==> h.0.state == Start
    ensures r.CommentLine? <==> h.0.state == Comment
  {
    var (m, pos) := h;
    match m.state
    case ValueDigit =>
      Parsed(m.key, Integer, m.values + [IntAt(text, m.valBegin, pos)])
    case ValueDouble =>
      Parsed(m.key, Real, m.values + [RealAt(text, m.valBegin, pos)])
    case Start => BlankLine
    case Finish => Parsed(m.key, m.vtype, m.values)
    case Error => SyntaxError
    case Comment => CommentLine
    case _ => SyntaxError
  }

  /** `parse_line` on text already cut at its first NUL. */
  function ParseText(text: string): Outcome {
    EndOfLine(text, Run(text, 0, Initial))
  }

  /**
   * `parse_line(line, ...)`: on success the key, the type and the values in
   * the order they were appended (so `*rsize` is their number).
   */
  function ParseLine(line: string): Outcome {
    ParseText(CString(line))
  }

  /** Where the loop stopped, the machine still satisfies the invariant and a value is well-formed. */
  lemma {:induction false} EndOfLineWellFormed(text: string, h: (Machine, nat))
    requires h.1 <= |text| && Placed(h.0, h.1) && Inv(text, h.1, h.0)
    requires h.1 < |text| ==> Halting(h.0.state)
    ensures EndOfLine(text, h).Parsed? ==>
              IsKey(EndOfLine(text, h).key) && Homogeneous(EndOfLine(text, h).vtype, EndOfLine(text, h).values)
  {
    if h.0.state == ValueDouble {
      RealAtEndIsWellFormed(text, h.1, h.0);
    }
  }

  /**
   * A parsed line carries a key the grammar accepts and a non-empty list of
   * well-formed values, all of the returned type.
   */
  lemma {:induction false} ParseLineWellFormed(line: string)
    ensures ParseLine(line).Parsed? ==>
              IsKey(ParseLine(line).key) && Homogeneous(ParseLine(line).vtype, ParseLine(line).values)
  {
    var text := CString(line);
    InitialInv(text);
    RunKeepsInv(text, 0, Initial);
    EndOfLineWellFormed(text, Run(text, 0, Initial));
  }

  // ---------------------------------------------------------------------------
  // The invariant of the machine
  // ---------------------------------------------------------------------------

  /** text[b..e] is a non-empty run of digits. */
  predicate DigitSpan(text: string, b: nat, e: nat)
    requires b <= e <= |text|
  {
    b < e && AllDigits(text[b..e])
  }

  /**
   * text[b..e] is digits, a '.', and digits; when no digit follows the '.'
   * yet, the character at `e` is one (the lookahead guaranteed it).
   */
  predicate RealSpan(text: string, b: nat, e: nat)
    requires b <= e <= |text|
  {
    var p := SplitAtDot(text[b..e]);
    && '.' in text[b..e]
    && |p.0| > 0 && AllDigits(p.0) && AllDigits(p.1)
    && (|p.1| == 0 ==> e < |text| && IsDigit(text[e]))
  }

  predicate ValuesOk(m: Machine) {
    forall i | 0 <= i < |m.values| :: TypeOf(m.values[i]) == m.vtype && WellFormed(m.values[i])
  }

  /** What holds of the machine before it reads the character at `pos`. */
  predicate Inv(text: string, pos: nat, m: Machine) {
    && '\0' !in text
    && pos <= |text| && Placed(m, pos)
    && ValuesOk(m)
    && match m.state
       case Error => true
       case Comment => m.values == []
       case Start => m.values == []
       case Key => m.values == [] && m.keyBegin < pos && IsKey(text[m.keyBegin..pos])
       case SpacesAfterKey => m.values == [] && IsKey(m.key)
       case SpacesBeforeValues => m.values == [] && IsKey(m.key)
       case ValueArray => m.values == [] && IsKey(m.key)
       case ValueString => m.values == [] && IsKey(m.key)
       case ValueStringSlash => m.values == [] && IsKey(m.key)
       case ValueDigit => m.values == [] && IsKey(m.key) && DigitSpan(text, m.valBegin, pos)
       case NextDigit => m.values == [] && IsKey(m.key) && DigitSpan(text, m.valBegin, pos)
       case ValueDouble => m.values == [] && IsKey(m.key) && RealSpan(text, m.valBegin, pos)
       case NextDouble => m.values == [] && IsKey(m.key) && RealSpan(text, m.valBegin, pos)
       case NextString => IsKey(m.key) && (m.values != [] ==> m.vtype == String)
       case NextStringSlash => IsKey(m.key) && (m.values != [] ==> m.vtype == String)
       case SpacesAfterArraysString => IsKey(m.key) && m.values != [] && m.vtype == String
       case SpacesBeforeArraysString => IsKey(m.key) && m.values != [] && m.vtype == String
       case SpacesAfterArraysLong => IsKey(m.key) && m.values != [] && m.vtype == Integer
       case SpacesBeforeArraysLong => IsKey(m.key) && m.values != [] && m.vtype == Integer
       case NextExpectedLong => IsKey(m.key) && m.values != [] && m.vtype == Integer
       case SpacesAfterArraysDouble => IsKey(m.key) && m.values != [] && m.vtype == Real
       case SpacesBeforeArraysDouble => IsKey(m.key) && m.values != [] && m.vtype == Real
       case NextExpectedDouble =>
         IsKey(m.key) && m.values != [] && m.vtype == Real && DigitSpan(text, m.valBegin, pos)
       case NextExactlyDouble =>
         IsKey(m.key) && m.values != [] && m.vtype == Real && RealSpan(text, m.valBegin, pos)
       case Finish => IsKey(m.key) && m.values != [] && m.vtype != Undefined
  }

  lemma {:induction false} InitialInv(text: string)
    requires '\0' !in text
    ensures Inv(text, 0, Initial)
  {
  }

  /** Appending a character after the '.' extends the fraction part. */
  lemma {:induction false} SplitAtDotSnoc(s: string, c: char)
    requires '.' in s
    ensures SplitAtDot(s + [c]) == (SplitAtDot(s).0, SplitAtDot(s).1 + [c])
  {
    if s[0] != '.' {
      assert (s + [c])[1..] == s[1..] + [c];
      SplitAtDotSnoc(s[1..], c);
    } else {
      assert (s + [c])[1..] == s[1..] + [c];
    }
  }

  /** Splitting a dotted literal gives back its two parts. */
  lemma {:induction false} SplitAtDotOf(w: string, f: string)
    requires '.' !in w
    ensures SplitAtDot(w + "." + f) == (w, f)
  {
    if |w| > 0 {
      assert (w + "." + f)[1..] == w[1..] + "." + f;
      SplitAtDotOf(w[1..], f);
      assert [w[0]] + w[1..] == w;
    } else {
      assert w + "." + f == "." + f;
    }
  }

  lemma {:induction false} DigitsHaveNoDot(ds: string)
    requires AllDigits(ds)
    ensures '.' !in ds
  {
    forall i | 0 <= i < |ds| ensures ds[i] != '.' {
      assert IsDigit(ds[i]);
    }
  }

  /** A real that the lookahead let through has digits after its '.' once committed. */
  lemma {:induction false} RealSpanCommit(text: string, b: nat, e: nat)
    requires b <= e <= |text| && RealSpan(text, b, e)
    requires e == |text| || !IsDigit(text[e])
    ensures WellFormed(RealAt(text, b, e)) && TypeOf(RealAt(text, b, e)) == Real
  {
  }

  lemma {:induction false} RealAtEndIsWellFormed(text: string, pos: nat, m: Machine)
    requires pos <= |text| && Placed(m, pos) && m.state == ValueDouble
    ensures Inv(text, pos, m) && pos == |text| ==>
              WellFormed(RealAt(text, m.valBegin, pos)) && m.values == []
  {
    if Inv(text, pos, m) && pos == |text| {
      RealSpanCommit(text, m.valBegin, pos);
    }
  }

  lemma {:induction false} DigitSpanExtend(text: string, b: nat, e: nat)
    requires b <= e < |text| && (b == e || DigitSpan(text, b, e)) && IsDigit(text[e])
    ensures DigitSpan(text, b, e + 1)
  {
    assert text[b..e + 1] == text[b..e] + [text[e]];
  }

  lemma {:induction false} RealSpanExtend(text: string, b: nat, e: nat)
    requires b <= e < |text| && RealSpan(text, b, e) && IsDigit(text[e])
    ensures RealSpan(text, b, e + 1)
  {
    assert text[b..e + 1] == text[b..e] + [text[e]];
    SplitAtDotSnoc(text[b..e], text[e]);
  }

  lemma {:induction false} RealSpanStart(text: string, b: nat, e: nat)
    requires b <= e && e + 1 < |text| && DigitSpan(text, b, e)
    requires text[e] == '.' && IsDigit(text[e + 1])
    ensures RealSpan(text, b, e + 1)
  {
    assert text[b..e + 1] == text[b..e] + "." + "";
    DigitsHaveNoDot(text[b..e]);
    SplitAtDotOf(text[b..e], "");
  }

  lemma {:induction false} KeyExtend(text: string, b: nat, e: nat)
    requires b < e < |text| && IsKey(text[b..e]) && IsKeyChar(text[e])
    ensures IsKey(text[b..e + 1])
  {
    assert text[b..e + 1] == text[b..e] + [text[e]];
  }

  lemma {:induction false} KeyAccepts(c: char)
    requires !KeyRejects(c) && c != ' ' && c != '=' && c != '.'
    ensures IsKeyStart(c)
  {
  }

  /** Unescaping only drops characters. */
  lemma {:induction false} UnescapeChars(raw: string)
    ensures forall c | c in Unescape(raw) :: c in raw
  {
    if |raw| >= 2 && raw[0] == '\\' {
      UnescapeChars(raw[2..]);
    } else if |raw| > 0 && raw[0] != '\\' {
      UnescapeChars(raw[1..]);
    }
  }

  lemma {:induction false} StrAtWellFormed(text: string, b: nat, e: nat)
    requires b <= e <= |text| && '\0' !in text
    ensures WellFormed(StrAt(text, b, e))
  {
    UnescapeChars(text[b..e]);
    assert forall c | c in text[b..e] :: c in text;
  }

  lemma {:induction false} AppendOk(m: Machine, t: VarType, v: Value)
    requires ValuesOk(m) && (m.values != [] ==> m.vtype == t)
    requires TypeOf(v) == t && WellFormed(v)
    ensures ValuesOk(m.(vtype := t, values := m.values + [v]))
  {
  }

  /** Every transition keeps the invariant. */
  lemma {:induction false} StepKeepsInv(text: string, pos: nat, m: Machine)
    requires pos < |text| && Placed(m, pos) && !Halting(m.state)
    ensures Inv(text, pos, m) ==> Inv(text, pos + 1, Step(text, pos, m))
  {
    if Inv(text, pos, m) {
      match m.state {
        case Start => StartStepInv(text, pos, m);
        case Key => KeyStepInv(text, pos, m);
        case SpacesAfterKey => AssignStepInv(text, pos, m);
        case SpacesBeforeValues => AssignStepInv(text, pos, m);
        case ValueArray => AssignStepInv(text, pos, m);
        case ValueDigit => ScalarNumberStepInv(text, pos, m);
        case ValueDouble => ScalarNumberStepInv(text, pos, m);
        case ValueString => ScalarStringStepInv(text, pos, m);
        case ValueStringSlash => ScalarStringStepInv(text, pos, m);
        case NextString => StringArrayStepInv(text, pos, m);
        case NextStringSlash => StringArrayStepInv(text, pos, m);
        case SpacesAfterArraysString => StringArrayStepInv(text, pos, m);
        case SpacesBeforeArraysString => StringArrayStepInv(text, pos, m);
        case NextDigit => FirstNumberStepInv(text, pos, m);
        case NextDouble => FirstNumberStepInv(text, pos, m);
        case SpacesAfterArraysLong => LongArrayStepInv(text, pos, m);
        case SpacesBeforeArraysLong => LongArrayStepInv(text, pos, m);
        case NextExpectedLong => LongArrayStepInv(text, pos, m);
        case SpacesAfterArraysDouble => DoubleArrayStepInv(text, pos, m);
        case SpacesBeforeArraysDouble => DoubleArrayStepInv(text, pos, m);
        case NextExpectedDouble => DoubleArrayStepInv(text, pos, m);
        case NextExactlyDouble => DoubleArrayStepInv(text, pos, m);
      }
    }
  }

  lemma {:induction false} StartStepInv(text: string, pos: nat, m: Machine)
    requires pos < |text| && Inv(text, pos, m) && m.state == Start
    ensures Inv(text, pos + 1, Step(text, pos, m))
  {
    if IsKeyStart(text[pos]) {
      assert text[pos..pos + 1] == [text[pos]];
    }
  }

  lemma {:induction false} KeyStepInv(text: string, pos: nat, m: Machine)
    requires pos < |text| && Inv(text, pos, m) && m.state == Key
    ensures Inv(text, pos + 1, Step(text, pos, m))
  {
    var sym := text[pos];
    if Step(text, pos, m).state == Key {
      if sym != '.' {
        KeyAccepts(sym);
      }
      KeyExtend(text, m.keyBegin, pos);
    }
  }

  lemma {:induction false} AssignStepInv(text: string, pos: nat, m: Machine)
    requires pos < |text| && Inv(text, pos, m)
    requires m.state in {SpacesAfterKey, SpacesBeforeValues, ValueArray}
    ensures Inv(text, pos + 1, Step(text, pos, m))
  {
    if IsDigit(text[pos]) {
      DigitSpanExtend(text, pos, pos);
    }
  }

  lemma {:induction false} ScalarNumberStepInv(text: string, pos: nat, m: Machine)
    requires pos < |text| && Inv(text, pos, m)
    requires m.state in {ValueDigit, ValueDouble}
    ensures Inv(text, pos + 1, Step(text, pos, m))
  {
    var r := Step(text, pos, m);
    if m.state == ValueDigit {
      if r.state == ValueDouble {
        RealSpanStart(text, m.valBegin, pos);
      } else if r.state == Finish {
        AppendOk(m, Integer, IntAt(text, m.valBegin, pos));
      }
    } else {
      if r.state == ValueDouble {
        RealSpanExtend(text, m.valBegin, pos);
      } else if r.state == Finish {
        RealSpanCommit(text, m.valBegin, pos);
        AppendOk(m, Real, RealAt(text, m.valBegin, pos));
      }
    }
  }

  lemma {:induction false} ScalarStringStepInv(text: string, pos: nat, m: Machine)
    requires pos < |text| && Inv(text, pos, m)
    requires m.state in {ValueString, ValueStringSlash}
    ensures Inv(text, pos + 1, Step(text, pos, m))
  {
    if m.state == ValueString && text[pos] == '"' {
      StrAtWellFormed(text, m.valBegin, pos);
      AppendOk(m, String, StrAt(text, m.valBegin, pos));
    }
  }

  lemma {:induction false} StringArrayStepInv(text: string, pos: nat, m: Machine)
    requires pos < |text| && Inv(text, pos, m)
    requires m.state in {NextString, NextStringSlash, SpacesAfterArraysString, SpacesBeforeArraysString}
    ensures Inv(text, pos + 1, Step(text, pos, m))
  {
    if m.state == NextString && text[pos] == '"' {
      StrAtWellFormed(text, m.valBegin, pos);
      AppendOk(m, String, StrAt(text, m.valBegin, pos));
    }
  }

  lemma {:induction false} FirstNumberStepInv(text: string, pos: nat, m: Machine)
    requires pos < |text| && Inv(text, pos, m)
    requires m.state in {NextDigit, NextDouble}
    ensures Inv(text, pos + 1, Step(text, pos, m))
  {
    if m.state == NextDigit {
      FirstDigitStepInv(text, pos, m);
    } else {
      FirstDoubleStepInv(text, pos, m);
    }
  }

  /** NEXT_DIGIT: a digit extends the number, a '.' makes it a real, a separator commits the integer. */
  lemma {:induction false} FirstDigitStepInv(text: string, pos: nat, m: Machine)
    requires pos < |text| && Inv(text, pos, m) && m.state == NextDigit
    ensures Inv(text, pos + 1, Step(text, pos, m))
  {
    var r := Step(text, pos, m);
    if r.state == NextDouble {
      RealSpanStart(text, m.valBegin, pos);
    } else if r.state == NextDigit {
      DigitSpanExtend(text, m.valBegin, pos);
    } else if r.state != Error {
      AppendOk(m, Integer, IntAt(text, m.valBegin, pos));
    }
  }

  /** NEXT_DOUBLE: a digit extends the fraction, a separator commits the real. */
  lemma {:induction false} FirstDoubleStepInv(text: string, pos: nat, m: Machine)
    requires pos < |text| && Inv(text, pos, m) && m.state == NextDouble
    ensures Inv(text, pos + 1, Step(text, pos, m))
  {
    var r := Step(text, pos, m);
    if r.state == NextDouble {
      RealSpanExtend(text, m.valBegin, pos);
    } else if r.state != Error {
      RealSpanCommit(text, m.valBegin, pos);
      AppendOk(m, Real, RealAt(text, m.valBegin, pos));
    }
  }


  lemma {:induction false} LongArrayStepInv(text: string, pos: nat, m: Machine)
    requires pos < |text| && Inv(text, pos, m)
    requires m.state in {SpacesAfterArraysLong, SpacesBeforeArraysLong, NextExpectedLong}
    ensures Inv(text, pos + 1, Step(text, pos, m))
  {
    var r := Step(text, pos, m);
    if m.state == NextExpectedLong && r.state != Error && r.state != NextExpectedLong {
      AppendOk(m, Integer, IntAt(text, m.valBegin, pos));
    }
  }

  lemma {:induction false} DoubleArrayStepInv(text: string, pos: nat, m: Machine)
    requires pos < |text| && Inv(text, pos, m)
    requires m.state in {SpacesAfterArraysDouble, SpacesBeforeArraysDouble, NextExpectedDouble, NextExactlyDouble}
    ensures Inv(text, pos + 1, Step(text, pos, m))
  {
    if m.state == SpacesBeforeArraysDouble {
      if IsDigit(text[pos]) {
        DigitSpanExtend(text, pos, pos);
      }
    } else if m.state == NextExpectedDouble {
      ExpectedDoubleStepInv(text, pos, m);
    } else if m.state == NextExactlyDouble {
      ExactlyDoubleStepInv(text, pos, m);
    }
  }

  /** NEXT_EXPECTED_DOUBLE: a digit extends the whole part, a '.' starts the fraction. */
  lemma {:induction false} ExpectedDoubleStepInv(text: string, pos: nat, m: Machine)
    requires pos < |text| && Inv(text, pos, m) && m.state == NextExpectedDouble
    ensures Inv(text, pos + 1, Step(text, pos, m))
  {
    var r := Step(text, pos, m);
    if r.state == NextExactlyDouble {
      RealSpanStart(text, m.valBegin, pos);
    } else if r.state == NextExpectedDouble {
      DigitSpanExtend(text, m.valBegin, pos);
    }
  }

  /** NEXT_EXACTLY_DOUBLE: a digit extends the fraction, a separator commits the real. */
  lemma {:induction false} ExactlyDoubleStepInv(text: string, pos: nat, m: Machine)
    requires pos < |text| && Inv(text, pos, m) && m.state == NextExactlyDouble
    ensures Inv(text, pos + 1, Step(text, pos, m))
  {
    var r := Step(text, pos, m);
    if r.state == NextExactlyDouble {
      RealSpanExtend(text, m.valBegin, pos);
    } else if r.state != Error {
      RealSpanCommit(text, m.valBegin, pos);
      AppendOk(m, Real, RealAt(text, m.valBegin, pos));
    }
  }

}
