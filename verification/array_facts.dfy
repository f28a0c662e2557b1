/**
 * Which array lines `parse_line` rejects and which it accepts: an empty list,
 * a trailing ',', and elements of more than one type, all with any spaces
 * the C code allows inside the brackets.
 */
module ArrayFacts {
  import opened Chars
  import opened Values
  import opened Parser
  import opened Render
  import opened ParserWalk
  import opened RoundTrip
  import opened ParserFacts

  /**
   * A line that starts with a spaced `k = [` and `body`, followed by anything:
   * the parser reads the key and the bracket and then waits for the first element.
   */
  lemma {:induction false} OpenPaddedArray(text: string, line: string, ind: string, k: string, s1: string, s2: string, body: string)
    returns (m: Machine)
    requires IsKey(k) && Spacing(ind, s1, s2) && line == Head(ind, k, s1, s2) + ("[" + body)
    requires |line| <= |text| && text[..|line|] == line
    ensures |line| == |Head(ind, k, s1, s2)| + 1 + |body| && text[|Head(ind, k, s1, s2)| + 1..|line|] == body
    ensures Placed(m, |Head(ind, k, s1, s2)| + 1) && m.state == ValueArray && m.key == k
    ensures Run(text, 0, Initial) == Run(text, |Head(ind, k, s1, s2)| + 1, m)
  {
    var h := |Head(ind, k, s1, s2)|;
    ReadsHead(text, ind, k, s1, s2, "[" + body);
    SplitSlice(text, h, |line|, "[", body);
    assert text[h] == text[h..h + 1][0];
    var m0 := Initial.(state := SpacesBeforeValues, keyBegin := |ind|, key := k);
    OpenBracket(text, h, m0);
    m := m0.(state := ValueArray);
  }

  /** The text the parser sees for a spaced `k = [` and `body` followed by anything. */
  lemma {:induction false} PaddedArrayText(ind: string, k: string, s1: string, s2: string, body: string, rest: string)
    returns (line: string, text: string)
    requires IsKey(k) && Spacing(ind, s1, s2) && '\0' !in body
    ensures line == Head(ind, k, s1, s2) + ("[" + body) && text == line + CString(rest)
    ensures ParseLine(line + rest) == ParseText(text)
    ensures |line| <= |text| && text[..|line|] == line
  {
    line := Head(ind, k, s1, s2) + ("[" + body);
    HeadNoNul(ind, k, s1, s2, "[" + body);
    SeenText(line, rest);
    text := line + CString(rest);
  }

  /** `k = [ ]` is a syntax error: an array needs at least one element. */
  lemma {:induction false} EmptyArray(ind: string, k: string, s1: string, s2: string, g: string, rest: string)
    requires IsKey(k) && Spacing(ind, s1, s2) && AllSpaces(g)
    ensures ParseLine(Head(ind, k, s1, s2) + "[" + g + "]" + rest) == SyntaxError
  {
    SpacesNoNul(g);
    assert '\0' !in g + "]";
    var text, p, m := OpenedBody(ind, k, s1, s2, g + "]", rest);
    EmptyRun(text, p, g, m);
    EmptyGrouped(Head(ind, k, s1, s2), g, rest);
  }

  /** Spaces and then ']' right after the '[' stop the machine in ERROR. */
  lemma {:induction false} EmptyRun(text: string, p: nat, g: string, m: Machine)
    requires p + |g| + 1 <= |text| && text[p..p + |g| + 1] == g + "]" && AllSpaces(g)
    requires Placed(m, p) && m.state == ValueArray
    ensures Run(text, p, m).0.state == Error
  {
    var q := p + |g|;
    SplitSlice(text, p, q + 1, g, "]");
    assert text[q] == text[q..q + 1][0];
    SkipSpaces(text, p, q, m);
    RunStep(text, q, m, m.(state := Error));
    RunHalted(text, q + 1, m.(state := Error));
  }

  /** Waiting for a further element, ',' or ']' is rejected. */
  lemma {:induction false} AwaitingRejects(text: string, q: nat, t: VarType, m: Machine)
    requires q < |text| && Placed(m, q) && m.state == Awaiting(t, false) && text[q] in {',', ']'}
    ensures Step(text, q, m).state == Error
  {
  }

  /** A ',' followed by spaces and then ']' or another ',' is a syntax error. */
  lemma {:induction false} TrailingComma(ind: string, k: string, s1: string, s2: string, t: VarType, vs: seq<Value>, pads: seq<Pad>,
                      g: string, z: char, rest: string)
    requires IsKey(k) && Spacing(ind, s1, s2) && Homogeneous(t, vs) && |pads| == |vs| && Spaced(pads)
    requires AllSpaces(g) && z in {',', ']'}
    ensures ParseLine(Head(ind, k, s1, s2) + "[" + SpacedElements(vs, pads) + "," + g + [z] + rest) == SyntaxError
  {
    var e := SpacedElements(vs, pads);
    SpacedElementsNoNul(vs, pads);
    SpacesNoNul(g);
    var body := e + "," + g + [z];
    var text, p, m := OpenedBody(ind, k, s1, s2, body, rest);
    CommaRun(text, p, p + |body|, t, vs, pads, g, z, m);
    Grouped(Head(ind, k, s1, s2), e, g, [z], rest);
  }

  lemma {:induction false} SpacesNoNul(g: string)
    requires AllSpaces(g)
    ensures '\0' !in g
  {
    assert forall i | 0 <= i < |g| :: g[i] != '\0';
  }

  /** Regrouping an empty list around the bracketed text that follows its head. */
  lemma {:induction false} EmptyGrouped(h: string, g: string, rest: string)
    ensures h + "[" + g + "]" + rest == h + ("[" + (g + "]")) + rest
  {
  }

  /** Regrouping a line around the bracketed text that follows its head. */
  lemma {:induction false} Grouped(h: string, e: string, g: string, z: string, rest: string)
    ensures h + "[" + e + "," + g + z + rest == h + ("[" + (e + "," + g + z)) + rest
  {
  }

  /** The elements, a ',', spaces and then ',' or ']' stop the machine in ERROR. */
  lemma {:induction false} CommaRun(text: string, p: nat, f: nat, t: VarType, vs: seq<Value>, pads: seq<Pad>, g: string, z: char,
                 m: Machine)
    requires Homogeneous(t, vs) && |pads| == |vs| && Spaced(pads) && AllSpaces(g) && z in {',', ']'}
    requires Placed(m, p) && m.state == ValueArray
    requires f == p + |SpacedElements(vs, pads)| + 1 + |g| + 1 <= |text|
    requires text[p..f] == SpacedElements(vs, pads) + "," + g + [z]
    ensures Run(text, p, m).0.state == Error
  {
    var q, r := CommaParts(text, p, f, SpacedElements(vs, pads), g, z);
    var m2 := SpacedThenComma(text, p, q, t, vs, pads, m, true);
    SkipSpaces(text, q, r, m2);
    AwaitingRejects(text, r, t, m2);
    RunStep(text, r, m2, m2.(state := Error));
    RunHalted(text, r + 1, m2.(state := Error));
  }

  /** Where the three parts of `a + "," + g + [z]` lie in a slice spelling it. */
  lemma {:induction false} CommaParts(text: string, p: nat, f: nat, a: string, g: string, z: char) returns (q: nat, r: nat)
    requires f == p + |a| + 1 + |g| + 1 <= |text| && text[p..f] == a + "," + g + [z]
    ensures q == p + |a| + 1 && r == q + |g| == f - 1
    ensures text[p..q] == a + "," && text[q..r] == g && text[r] == z
  {
    q, r := p + |a| + 1, f - 1;
    SplitSlice(text, p, f, a + "," + g, [z]);
    SplitSlice(text, p, r, a + ",", g);
    assert text[r] == text[r..f][0];
  }

  /**
   * An element whose type differs from the array's, written where a further
   * element is awaited and followed by ',', ']' or ' ', stops the machine in ERROR.
   */
  lemma {:induction false} Clash(text: string, q: nat, e: nat, v: Value, t: VarType, m: Machine)
    requires Placed(m, q) && m.state == Awaiting(t, false) && t != Undefined
    requires WellFormed(v) && TypeOf(v) != t
    requires e == q + |Literal(v)| < |text| && text[q..e] == Literal(v) && text[e] in {',', ']', ' '}
    ensures Run(text, q, m).0.state == Error
  {
    assert text[q] == Literal(v)[0] by { assert text[q] == text[q..e][0]; }
    match v
    case Str(_) =>
      ClashAt(text, q, m);
    case Int(n) =>
      if t == String {
        ClashAt(text, q, m);
      } else {
        var m1 := m.(valBegin := q, state := NextExpectedDouble);
        assert AllDigits(Literal(v));
        NumberStart(text, q, e, m, m1);
        ClashAt(text, e, m1);
      }
    case RealLit(w, f) =>
      if t == String {
        ClashAt(text, q, m);
      } else {
        var d := q + |w|;
        DottedSplit(text, q, e, w, f);
        var m1 := m.(valBegin := q, state := NextExpectedLong);
        NumberStart(text, q, d, m, m1);
        ClashAt(text, d, m1);
      }
  }

  /** One rejected character halts the loop in ERROR. */
  lemma {:induction false} ClashAt(text: string, q: nat, m: Machine)
    requires q < |text| && Placed(m, q)
    requires || (m.state in {SpacesBeforeArraysLong, SpacesBeforeArraysDouble} && text[q] == '"')
             || (m.state == SpacesBeforeArraysString && IsDigit(text[q]))
             || (m.state == NextExpectedDouble && text[q] in {',', ']', ' '})
             || (m.state == NextExpectedLong && text[q] == '.')
    ensures Run(text, q, m) == (m.(state := Error), q + 1)
  {
    RunStep(text, q, m, m.(state := Error));
    RunHalted(text, q + 1, m.(state := Error));
  }

  /**
   * After elements of type `t`, a ',', spaces and an element of another type
   * followed by `c` (',', ']' or ' ') make the line a syntax error.
   */
  lemma {:induction false} MixedArrayAt(ind: string, k: string, s1: string, s2: string, t: VarType, vs: seq<Value>, pads: seq<Pad>,
                     g: string, v: Value, c: char, body: string, tail: string)
    requires IsKey(k) && Spacing(ind, s1, s2) && Homogeneous(t, vs) && |pads| == |vs| && Spaced(pads)
    requires AllSpaces(g) && WellFormed(v) && TypeOf(v) != t && c in {',', ']', ' '}
    requires body == SpacedElements(vs, pads) + "," + g + (Literal(v) + [c])
    ensures ParseLine(Head(ind, k, s1, s2) + ("[" + body) + tail) == SyntaxError
  {
    MixedNoNul(vs, pads, g, v, c);
    var text, p, m := OpenedBody(ind, k, s1, s2, body, tail);
    MixedBody(text, p, p + |body|, t, vs, pads, g, v, c, SpacedElements(vs, pads), Literal(v), m);
  }

  /** The parser sees a spaced `k = [` and `body`; a run over the body ending in ERROR rejects the line. */
  lemma {:induction false} OpenedBody(ind: string, k: string, s1: string, s2: string, body: string, tail: string)
    returns (text: string, p: nat, m: Machine)
    requires IsKey(k) && Spacing(ind, s1, s2) && '\0' !in body
    ensures p + |body| <= |text| && text[p..p + |body|] == body
    ensures Placed(m, p) && m.state == ValueArray
    ensures Run(text, p, m).0.state == Error ==> ParseLine(Head(ind, k, s1, s2) + ("[" + body) + tail) == SyntaxError
  {
    var line;
    line, text := PaddedArrayText(ind, k, s1, s2, body, tail);
    m := OpenPaddedArray(text, line, ind, k, s1, s2, body);
    p := |Head(ind, k, s1, s2)| + 1;
    if Run(text, p, m).0.state == Error {
      RunToError(text, p, m);
    }
  }

  /** A run that stops in ERROR makes the line a syntax error. */
  lemma {:induction false} RunToError(text: string, p: nat, m: Machine)
    requires p <= |text| && Placed(m, p)
    requires Run(text, 0, Initial) == Run(text, p, m) && Run(text, p, m).0.state == Error
    ensures ParseText(text) == SyntaxError
  {
  }

  /** The body of a mixed list holds no NUL. */
  lemma {:induction false} MixedNoNul(vs: seq<Value>, pads: seq<Pad>, g: string, v: Value, c: char)
    requires |vs| > 0 && |pads| == |vs| && Spaced(pads) && (forall i | 0 <= i < |vs| :: WellFormed(vs[i]))
    requires AllSpaces(g) && WellFormed(v) && c != '\0'
    ensures '\0' !in SpacedElements(vs, pads) + "," + g + (Literal(v) + [c])
  {
    SpacedElementsNoNul(vs, pads);
    LiteralNoNul(v);
    SpacesNoNul(g);
  }

  /** Where the elements, the ',', the spaces and the other element lie, and the run over them. */
  lemma {:induction false} MixedBody(text: string, p: nat, f: nat, t: VarType, vs: seq<Value>, pads: seq<Pad>, g: string, v: Value,
                  c: char, a: string, b: string, m: Machine)
    requires Homogeneous(t, vs) && |pads| == |vs| && Spaced(pads) && AllSpaces(g)
    requires WellFormed(v) && TypeOf(v) != t && c in {',', ']', ' '}
    requires a == SpacedElements(vs, pads) && b == Literal(v)
    requires Placed(m, p) && m.state == ValueArray
    requires f == p + |a| + 1 + |g| + |b| + 1 <= |text| && text[p..f] == a + "," + g + (b + [c])
    ensures Run(text, p, m).0.state == Error
  {
    var q, r, e := FourParts(text, p, f, a, g, b, c);
    MixedLaid(text, p, q, r, e, t, vs, pads, g, v, a, b, m);
  }

  /** The same run, with the four parts already located. */
  lemma {:induction false} MixedLaid(text: string, p: nat, q: nat, r: nat, e: nat, t: VarType, vs: seq<Value>, pads: seq<Pad>,
                  g: string, v: Value, a: string, b: string, m: Machine)
    requires Homogeneous(t, vs) && |pads| == |vs| && Spaced(pads) && AllSpaces(g)
    requires WellFormed(v) && TypeOf(v) != t
    requires a == SpacedElements(vs, pads) && b == Literal(v)
    requires Placed(m, p) && m.state == ValueArray
    requires q == p + |a| + 1 && r == q + |g| && e == r + |b| < |text|
    requires text[p..q] == a + "," && text[q..r] == g && text[r..e] == b && text[e] in {',', ']', ' '}
    ensures Run(text, p, m).0.state == Error
  {
    MixedRun(text, p, q, r, e, t, vs, pads, v, m);
  }

  /** Where the four parts of `a + "," + g + (b + [c])` lie in a slice spelling it. */
  lemma {:induction false} FourParts(text: string, p: nat, f: nat, a: string, g: string, b: string, c: char) returns (q: nat, r: nat, e: nat)
    requires f == p + |a| + 1 + |g| + |b| + 1 <= |text| && text[p..f] == a + "," + g + (b + [c])
    ensures q == p + |a| + 1 && r == q + |g| && e == r + |b| && e == f - 1
    ensures text[p..q] == a + "," && text[q..r] == g && text[r..e] == b && text[e] == c
  {
    q, r, e := p + |a| + 1, p + |a| + 1 + |g|, f - 1;
    ThreeParts(text, p, f, a + "," + g, b, c);
    SplitSlice(text, p, r, a + ",", g);
  }

  /** The elements, a ',', spaces and an element of another type stop the machine in ERROR. */
  lemma {:induction false} MixedRun(text: string, p: nat, q: nat, r: nat, e: nat, t: VarType, vs: seq<Value>, pads: seq<Pad>, v: Value,
                 m: Machine)
    requires Homogeneous(t, vs) && |pads| == |vs| && Spaced(pads) && WellFormed(v) && TypeOf(v) != t
    requires Placed(m, p) && m.state == ValueArray
    requires q == p + |SpacedElements(vs, pads)| + 1 <= r && e == r + |Literal(v)| < |text|
    requires text[p..q] == SpacedElements(vs, pads) + "," && AllSpaces(text[q..r])
    requires text[r..e] == Literal(v) && text[e] in {',', ']', ' '}
    ensures Run(text, p, m).0.state == Error
  {
    var m2 := SpacedThenComma(text, p, q, t, vs, pads, m, true);
    SkipSpaces(text, q, r, m2);
    Clash(text, r, e, v, t, m2);
  }

  /** Where the three parts of `a + (b + [z])` lie in a slice spelling it. */
  lemma {:induction false} ThreeParts(text: string, p: nat, f: nat, a: string, b: string, z: char)
    requires f == p + |a| + |b| + 1 <= |text| && text[p..f] == a + (b + [z])
    ensures text[p..p + |a|] == a && text[p + |a|..f - 1] == b && text[f - 1] == z
  {
    SplitSlice(text, p, f, a, b + [z]);
    SplitSlice(text, p + |a|, f, b, [z]);
    assert text[f - 1] == text[f - 1..f][0];
  }

  /** The padded list splits at any element boundary. */
  lemma {:induction false} SpacedSplit(ws: seq<Value>, pads: seq<Pad>, i: nat)
    requires 0 < i < |ws| && |pads| == |ws| && forall j | 0 <= j < |ws| :: WellFormed(ws[j])
    ensures SpacedElements(ws, pads) == SpacedElements(ws[..i], pads[..i]) + "," + SpacedElements(ws[i..], pads[i..])
    decreases i
  {
    var a := Padded(ws[0], pads[0]);
    var r := SpacedElements(ws[i..], pads[i..]);
    if i > 1 {
      var tl, pt := ws[1..], pads[1..];
      SpacedSplit(tl, pt, i - 1);
      SpacedCons(ws, pads, tl, pt);
      PrefixCons(ws, pads, i);
      assert tl[i - 1..] == ws[i..] && pt[i - 1..] == pads[i..];
      CommaAssoc(a, SpacedElements(tl[..i - 1], pt[..i - 1]), r);
    } else {
      assert ws[..i] == [ws[0]] && pads[..i] == [pads[0]];
      assert ws[1..] == ws[i..] && pads[1..] == pads[i..];
    }
  }

  /** A prefix of two or more elements, unfolded once. */
  lemma {:induction false} PrefixCons(ws: seq<Value>, pads: seq<Pad>, i: nat)
    requires 1 < i <= |ws| && |pads| == |ws| && forall j | 0 <= j < |ws| :: WellFormed(ws[j])
    ensures SpacedElements(ws[..i], pads[..i]) ==
            Padded(ws[0], pads[0]) + "," + SpacedElements(ws[1..][..i - 1], pads[1..][..i - 1])
  {
    assert ws[..i][1..] == ws[1..][..i - 1] && pads[..i][1..] == pads[1..][..i - 1];
    SpacedCons(ws[..i], pads[..i], ws[1..][..i - 1], pads[1..][..i - 1]);
  }

  /** Regrouping three comma-separated pieces. */
  lemma {:induction false} CommaAssoc(a: string, l: string, r: string)
    ensures a + "," + (l + "," + r) == (a + "," + l) + "," + r
  {
  }

  /** A prefix of two or more elements is its first padded element, a ',' and the padded rest. */
  lemma {:induction false} SpacedCons(us: seq<Value>, ps: seq<Pad>, tl: seq<Value>, pt: seq<Pad>)
    requires |us| > 1 && |ps| == |us| && forall j | 0 <= j < |us| :: WellFormed(us[j])
    requires tl == us[1..] && pt == ps[1..]
    ensures SpacedElements(us, ps) == Padded(us[0], ps[0]) + "," + SpacedElements(tl, pt)
  {
  }

  /**
   * The padded list from element `i` on, with the closing ']': the spaces
   * before element `i`, its literal, the character `c` after it and the rest.
   */
  lemma {:induction false} SpacedFrom(ws: seq<Value>, pads: seq<Pad>, i: nat) returns (c: char, tail: string)
    requires 0 <= i < |ws| && |pads| == |ws| && Spaced(pads) && forall j | 0 <= j < |ws| :: WellFormed(ws[j])
    ensures c in {',', ']', ' '}
    ensures SpacedElements(ws[i..], pads[i..]) + "]" == pads[i].before + (Literal(ws[i]) + [c]) + tail
  {
    var us, ps := ws[i..], pads[i..];
    assert us[0] == ws[i] && ps[0] == pads[i];
    assert AllSpaces(pads[i].after);
    var x := ListEnd(us, ps);
    c, tail := PaddedThen(ws[i], pads[i], x);
  }

  /** A padded list and its ']' are the first padded element followed by ',' or ']' and the rest. */
  lemma {:induction false} ListEnd(us: seq<Value>, ps: seq<Pad>) returns (x: string)
    requires |us| > 0 && |ps| == |us| && forall j | 0 <= j < |us| :: WellFormed(us[j])
    ensures |x| > 0 && x[0] in {',', ']'}
    ensures SpacedElements(us, ps) + "]" == Padded(us[0], ps[0]) + x
  {
    if |us| == 1 {
      x := "]";
    } else {
      x := "," + SpacedElements(us[1..], ps[1..]) + "]";
    }
  }

  /** A padded literal followed by ',' or ']': the character right after the literal is ',', ']' or ' '. */
  lemma {:induction false} PaddedThen(v: Value, pad: Pad, x: string) returns (c: char, tail: string)
    requires WellFormed(v) && AllSpaces(pad.after) && |x| > 0 && x[0] in {',', ']'}
    ensures c in {',', ']', ' '}
    ensures Padded(v, pad) + x == pad.before + (Literal(v) + [c]) + tail
  {
    var y := pad.after + x;
    c, tail := y[0], y[1..];
    if |pad.after| > 0 {
      assert c == pad.after[0];
    } else {
      assert c == x[0];
    }
    assert y == [c] + tail;
  }

  /** Regrouping an array line around the element that follows `e`. */
  lemma {:induction false} Regroup(h: string, e: string, u: string, g: string, lit: string, c: char, tail: string, rest: string)
    requires u + "]" == g + (lit + [c]) + tail
    ensures h + "[" + (e + "," + u) + "]" + rest == h + ("[" + (e + "," + g + (lit + [c]))) + (tail + rest)
  {
    calc {
      h + "[" + (e + "," + u) + "]" + rest;
      (h + ("[" + (e + ","))) + (u + "]") + rest;
      (h + ("[" + (e + ","))) + (g + (lit + [c]) + tail) + rest;
      h + ("[" + (e + "," + g + (lit + [c]))) + (tail + rest);
    }
  }

  /**
   * An array line whose element `i` differs in type from the elements before
   * it is a syntax error, whatever the spacing and whatever follows.
   */
  lemma {:induction false} MixedArray(ind: string, k: string, s1: string, s2: string, ws: seq<Value>, pads: seq<Pad>, i: nat,
                   rest: string)
    requires IsKey(k) && Spacing(ind, s1, s2) && |pads| == |ws| && Spaced(pads)
    requires 0 < i < |ws| && forall j | 0 <= j < |ws| :: WellFormed(ws[j])
    requires Homogeneous(TypeOf(ws[0]), ws[..i]) && TypeOf(ws[i]) != TypeOf(ws[0])
    ensures ParseLine(Head(ind, k, s1, s2) + "[" + SpacedElements(ws, pads) + "]" + rest) == SyntaxError
  {
    var vs, pv := ws[..i], pads[..i];
    assert Spaced(pv) by {
      forall j | 0 <= j < |pv| ensures AllSpaces(pv[j].before) && AllSpaces(pv[j].after) {
        assert pv[j] == pads[j];
      }
    }
    SpacedSplit(ws, pads, i);
    var c, tail := SpacedFrom(ws, pads, i);
    var g := pads[i].before;
    var e := SpacedElements(vs, pv);
    var body := e + "," + g + (Literal(ws[i]) + [c]);
    Regroup(Head(ind, k, s1, s2), e, SpacedElements(ws[i..], pads[i..]), g, Literal(ws[i]), c, tail, rest);
    MixedArrayAt(ind, k, s1, s2, TypeOf(ws[0]), vs, pv, g, ws[i], c, body, tail + rest);
  }

  /**
   * An array line of well-formed literals, with any spacing the parser
   * allows, parses exactly when all its elements have the type of the first one.
   */
  lemma {:induction false} ArrayParsesIff(ind: string, k: string, s1: string, s2: string, ws: seq<Value>, pads: seq<Pad>, rest: string)
    requires IsKey(k) && Spacing(ind, s1, s2) && |pads| == |ws| && Spaced(pads)
    requires |ws| > 0 && forall j | 0 <= j < |ws| :: WellFormed(ws[j])
    ensures ParseLine(Head(ind, k, s1, s2) + "[" + SpacedElements(ws, pads) + "]" + rest).Parsed? <==>
            Homogeneous(TypeOf(ws[0]), ws)
  {
    var t := TypeOf(ws[0]);
    if Homogeneous(t, ws) {
      ArrayRoundTrip(ind, k, s1, s2, t, ws, pads, rest);
    } else {
      var i := FirstOther(ws);
      HomogeneousPrefix(ws, i);
      MixedArray(ind, k, s1, s2, ws, pads, i, rest);
    }
  }

  /** A list of well-formed literals that is not homogeneous has a first element of another type. */
  lemma {:induction false} FirstOther(ws: seq<Value>) returns (i: nat)
    requires |ws| > 0 && (forall j | 0 <= j < |ws| :: WellFormed(ws[j])) && !Homogeneous(TypeOf(ws[0]), ws)
    ensures 0 < i < |ws| && TypeOf(ws[i]) != TypeOf(ws[0])
    ensures forall j | 0 <= j < i :: TypeOf(ws[j]) == TypeOf(ws[0])
  {
    i := 1;
    while i < |ws| && TypeOf(ws[i]) == TypeOf(ws[0])
      invariant 1 <= i <= |ws|
      invariant forall j | 0 <= j < i :: TypeOf(ws[j]) == TypeOf(ws[0])
    {
      i := i + 1;
    }
  }

  /** The elements before the first one of another type form a homogeneous list. */
  lemma {:induction false} HomogeneousPrefix(ws: seq<Value>, i: nat)
    requires 0 < i <= |ws| && forall j | 0 <= j < |ws| :: WellFormed(ws[j])
    requires forall j | 0 <= j < i :: TypeOf(ws[j]) == TypeOf(ws[0])
    ensures Homogeneous(TypeOf(ws[0]), ws[..i])
  {
    forall j | 0 <= j < i ensures TypeOf(ws[..i][j]) == TypeOf(ws[0]) && WellFormed(ws[..i][j]) {
      assert ws[..i][j] == ws[j];
    }
  }
}
