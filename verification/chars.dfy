/**
 * Character classes used by the configuration parser and the path helpers,
 * and the view of a character sequence as a NUL-terminated C string.
 */
module Chars {

  predicate IsDigit(c: char) {
    '0' <= c <= '9'
  }

  predicate IsLetter(c: char) {
    ('A' <= c <= 'Z') || ('a' <= c <= 'z')
  }

  /** A character that may begin a configuration key. */
  predicate IsKeyStart(c: char) {
    IsLetter(c) || c == '_'
  }

  /** A character that may continue a configuration key. */
  predicate IsKeyChar(c: char) {
    IsKeyStart(c) || c == '.'
  }

  /** Whitespace skipped before a key: space, tab and newline. */
  predicate IsBlank(c: char) {
    c == ' ' || c == '\t' || c == '\n'
  }

  predicate AllDigits(s: string) {
    forall i | 0 <= i < |s| :: IsDigit(s[i])
  }

  predicate AllBlank(s: string) {
    forall i | 0 <= i < |s| :: IsBlank(s[i])
  }

  /** Nothing but ' ', the only padding allowed around a key's '='. */
  predicate AllSpaces(s: string) {
    forall i | 0 <= i < |s| :: s[i] == ' '
  }

  /** The number of leading spaces, tabs and newlines. */
  function Indent(s: string): (n: nat)
    ensures n <= |s| && AllBlank(s[..n])
    ensures n < |s| ==> !IsBlank(s[n])
  {
    if |s| == 0 || !IsBlank(s[0]) then 0
    else
      var n := 1 + Indent(s[1..]);
      assert s[..n] == [s[0]] + s[1..][..n - 1];
      n
  }

  /** In a line of nothing but whitespace the indentation is the whole line. */
  lemma {:induction false} AllBlankIndent(s: string)
    requires AllBlank(s)
    ensures Indent(s) == |s|
  {
    if |s| > 0 {
      assert IsBlank(s[0]);
      assert AllBlank(s[1..]) by {
        forall i | 0 <= i < |s[1..]| ensures IsBlank(s[1..][i]) {
          assert s[1..][i] == s[i + 1];
        }
      }
      AllBlankIndent(s[1..]);
    }
  }

  /** A key as the parser accepts it: a letter or '_' followed by letters, '_' and '.'. */
  predicate IsKey(k: string) {
    |k| > 0 && IsKeyStart(k[0]) && forall i | 0 < i < |k| :: IsKeyChar(k[i])
  }

  /**
   * The characters a C routine sees when handed `s`: everything before the
   * first NUL.
   */
  function CString(s: string): (c: string)
    ensures |c| <= |s| && c == s[..|c|]
    ensures '\0' !in c
    ensures |c| < |s| ==> s[|c|] == '\0'
  {
    if |s| == 0 then []
    else if s[0] == '\0' then []
    else [s[0]] + CString(s[1..])
  }

  lemma {:induction false} CStringAppend(a: string, b: string)
    requires '\0' !in a
    ensures CString(a + b) == a + CString(b)
  {
    if |a| == 0 {
      assert a + b == b;
    } else {
      assert (a + b)[0] == a[0];
      assert (a + b)[1..] == a[1..] + b;
      CStringAppend(a[1..], b);
    }
  }

  lemma {:induction false} CStringOfPlain(s: string)
    requires '\0' !in s
    ensures CString(s) == s
  {
    CStringAppend(s, []);
    assert s + [] == s;
  }

  /** A slice that spells `a + b` splits into a slice spelling `a` and one spelling `b`. */
  lemma {:induction false} SplitSlice(text: string, p: nat, e: nat, a: string, b: string)
    requires p + |a| + |b| == e <= |text| && text[p..e] == a + b
    ensures text[p..p + |a|] == a && text[p + |a|..e] == b
  {
    assert text[p..p + |a|] == text[p..e][..|a|];
    assert text[p + |a|..e] == text[p..e][|a|..];
  }

  /** Two adjacent slices spelling `a` and `b` make one slice spelling `a + b`. */
  lemma {:induction false} JoinSlice(text: string, p: nat, d: nat, e: nat, a: string, b: string)
    requires p <= d <= e <= |text| && text[p..d] == a && text[d..e] == b
    ensures text[p..e] == a + b
  {
    assert text[p..e] == text[p..d] + text[d..e];
  }
}
