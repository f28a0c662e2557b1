/**
 * Writing values back as configuration text: the literal forms the line
 * parser accepts for integers, reals and quoted strings, and whole
 * `key=[...]` lines built from them.
 */
module Render {
  import opened Chars
  import opened Values
  import Decimal
  import Parser

  /** Characters a quoted string must carry behind a '\'. */
  predicate NeedsEscape(c: char) {
    c == '"' || c == '\\' || c == '\n'
  }

  /** One character as it is written inside a quoted string. */
  function EscapeChar(c: char): string {
    if NeedsEscape(c) then ['\\', c] else [c]
  }

  /** The body of a quoted string denoting `s`. */
  function Escape(s: string): string {
    if |s| == 0 then [] else EscapeChar(s[0]) + Escape(s[1..])
  }

  /** Escaping adds only '\\' characters, so a NUL-free string stays NUL-free. */
  lemma {:induction false} EscapeNoNul(s: string)
    requires '\0' !in s
    ensures '\0' !in Escape(s)
  {
    if |s| > 0 {
      assert s[0] in s;
      assert forall c | c in s[1..] :: c in s;
      EscapeNoNul(s[1..]);
    }
  }

  /** Unescaping undoes escaping. */
  lemma {:induction false} UnescapeEscape(s: string)
    ensures Parser.Unescape(Escape(s)) == s
  {
    if |s| > 0 {
      var raw := Escape(s);
      UnescapeEscape(s[1..]);
      if NeedsEscape(s[0]) {
        assert raw[2..] == Escape(s[1..]);
      } else {
        assert raw[1..] == Escape(s[1..]);
      }
      assert [s[0]] + s[1..] == s;
    }
  }

  /** The text of one value: decimal digits, digits '.' digits, or a quoted escaped string. */
  function Literal(v: Value): (lit: string)
    requires WellFormed(v)
    ensures |lit| > 0
  {
    match v
    case Int(n) => Decimal.Render(n)
    case RealLit(w, f) => w + "." + f
    case Str(s) => "\"" + Escape(s) + "\""
  }

  lemma {:induction false} LiteralNoNul(v: Value)
    requires WellFormed(v)
    ensures '\0' !in Literal(v)
  {
    match v
    case Int(n) => assert forall i | 0 <= i < |Literal(v)| :: IsDigit(Literal(v)[i]);
    case RealLit(w, f) => assert forall i | 0 <= i < |w| :: IsDigit(w[i]);
    case Str(s) => EscapeNoNul(s);
  }

  /** The values of an array, comma separated. */
  function Elements(vs: seq<Value>): (txt: string)
    requires |vs| > 0 && forall i | 0 <= i < |vs| :: WellFormed(vs[i])
  {
    if |vs| == 1 then Literal(vs[0])
    else Literal(vs[0]) + "," + Elements(vs[1..])
  }

  lemma {:induction false} ElementsNoNul(vs: seq<Value>)
    requires |vs| > 0 && forall i | 0 <= i < |vs| :: WellFormed(vs[i])
    ensures '\0' !in Elements(vs)
    decreases |vs|
  {
    LiteralNoNul(vs[0]);
    if |vs| > 1 {
      assert forall i | 0 <= i < |vs[1..]| :: vs[1..][i] == vs[i + 1];
      ElementsNoNul(vs[1..]);
    }
  }

  /** The spaces written before and after one array element. */
  datatype Pad = Pad(before: string, after: string)

  /** Padding made of spaces only, which `parse_line` skips around array elements. */
  predicate Spaced(pads: seq<Pad>) {
    forall i | 0 <= i < |pads| :: AllSpaces(pads[i].before) && AllSpaces(pads[i].after)
  }

  /** One element with its padding. */
  function Padded(v: Value, pad: Pad): string
    requires WellFormed(v)
  {
    pad.before + Literal(v) + pad.after
  }

  /** The values of an array, comma separated, each with its own padding. */
  function SpacedElements(vs: seq<Value>, pads: seq<Pad>): (txt: string)
    requires |vs| > 0 && |pads| == |vs| && forall i | 0 <= i < |vs| :: WellFormed(vs[i])
  {
    if |vs| == 1 then Padded(vs[0], pads[0])
    else Padded(vs[0], pads[0]) + "," + SpacedElements(vs[1..], pads[1..])
  }

  /** No padding at all around `n` elements. */
  function Unpadded(n: nat): (pads: seq<Pad>)
    ensures |pads| == n && Spaced(pads)
    ensures forall i | 0 <= i < n :: pads[i] == Pad("", "")
  {
    seq(n, i => Pad("", ""))
  }

  /** Without padding the spaced form is the plain comma-separated one. */
  lemma {:induction false} ElementsUnpadded(vs: seq<Value>)
    requires |vs| > 0 && forall i | 0 <= i < |vs| :: WellFormed(vs[i])
    ensures SpacedElements(vs, Unpadded(|vs|)) == Elements(vs)
    decreases |vs|
  {
    var pads := Unpadded(|vs|);
    assert Padded(vs[0], pads[0]) == Literal(vs[0]);
    if |vs| > 1 {
      assert pads[1..] == Unpadded(|vs| - 1);
      ElementsUnpadded(vs[1..]);
    }
  }

  lemma {:induction false} SpacedElementsNoNul(vs: seq<Value>, pads: seq<Pad>)
    requires |vs| > 0 && |pads| == |vs| && forall i | 0 <= i < |vs| :: WellFormed(vs[i])
    requires Spaced(pads)
    ensures '\0' !in SpacedElements(vs, pads)
    decreases |vs|
  {
    LiteralNoNul(vs[0]);
    var pad := pads[0];
    assert AllSpaces(pad.before) && AllSpaces(pad.after);
    assert '\0' !in pad.before && '\0' !in pad.after;
    if |vs| > 1 {
      SpacedTail(pads);
      SpacedElementsNoNul(vs[1..], pads[1..]);
    }
  }

  lemma {:induction false} SpacedTail(pads: seq<Pad>)
    requires |pads| > 0 && Spaced(pads)
    ensures Spaced(pads[1..]) && AllSpaces(pads[0].before) && AllSpaces(pads[0].after)
  {
    forall i | 0 <= i < |pads[1..]| ensures AllSpaces(pads[1..][i].before) && AllSpaces(pads[1..][i].after) {
      assert pads[1..][i] == pads[i + 1];
    }
  }

  /** A configuration line assigning an array: `key=[v1,v2,...]`. */
  function ArrayLine(k: string, vs: seq<Value>): (line: string)
    requires IsKey(k) && |vs| > 0 && forall i | 0 <= i < |vs| :: WellFormed(vs[i])
    ensures '\0' !in line
  {
    ElementsNoNul(vs);
    k + "=[" + Elements(vs) + "]"
  }

  /** A configuration line assigning one scalar: `key=v`. */
  function ScalarLine(k: string, v: Value): (line: string)
    requires IsKey(k) && WellFormed(v)
    ensures '\0' !in line
  {
    LiteralNoNul(v);
    k + "=" + Literal(v)
  }
}
