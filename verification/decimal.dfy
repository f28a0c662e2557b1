/**
 * Base-10 digit strings: the value `strtoll` reads from a run of digits, the
 * 64-bit saturation it applies, and the canonical rendering of a number.
 */
module Decimal {
  import opened Chars

  /** LLONG_MAX: `strtoll` saturates here on overflow. */
  const LLONG_MAX: int := 0x7FFF_FFFF_FFFF_FFFF

  function DigitValue(c: char): nat {
    if IsDigit(c) then (c as int) - ('0' as int) else 0
  }

  function DigitChar(d: nat): (c: char)
    requires d < 10
    ensures IsDigit(c) && DigitValue(c) == d
  {
    (('0' as int) + d) as char
  }

  /** The base-10 value of a digit string (the empty string reads as 0). */
  function Value(ds: string): nat {
    if |ds| == 0 then 0 else Value(ds[..|ds| - 1]) * 10 + DigitValue(ds[|ds| - 1])
  }

  /** What `strtoll(s, NULL, 10)` returns for a non-negative digit run. */
  function Strtoll(ds: string): (n: int)
    ensures 0 <= n <= LLONG_MAX
    ensures Value(ds) <= LLONG_MAX ==> n == Value(ds)
  {
    if Value(ds) <= LLONG_MAX then Value(ds) else LLONG_MAX
  }

  /** The shortest digit string denoting `n` (no leading zeros). */
  function Render(n: nat): (ds: string)
    ensures |ds| > 0 && AllDigits(ds)
    ensures |ds| > 1 ==> ds[0] != '0'
  {
    if n < 10 then [DigitChar(n)] else Render(n / 10) + [DigitChar(n % 10)]
  }

  /** Reading a rendered number gives the number back. */
  lemma {:induction false} ValueOfRender(n: nat)
    ensures Value(Render(n)) == n
  {
    if n >= 10 {
      var ds := Render(n);
      assert ds[..|ds| - 1] == Render(n / 10);
      ValueOfRender(n / 10);
    }
  }

  /** A leading zero does not change the value: `007` reads as 7. */
  lemma {:induction false} LeadingZero(ds: string)
    ensures Value("0" + ds) == Value(ds)
  {
    if |ds| > 0 {
      var s := "0" + ds;
      assert s[..|s| - 1] == "0" + ds[..|ds| - 1];
      LeadingZero(ds[..|ds| - 1]);
    } else {
      assert Value("0") == Value("") + DigitValue('0');
    }
  }

  /** Any number of leading zeros can be dropped: "007" reads as 7 and "000" as 0. */
  lemma {:induction false} LeadingZeros(zs: string, ds: string)
    requires forall i | 0 <= i < |zs| :: zs[i] == '0'
    ensures Value(zs + ds) == Value(ds)
  {
    if |zs| > 0 {
      assert zs + ds == "0" + (zs[1..] + ds);
      LeadingZero(zs[1..] + ds);
      LeadingZeros(zs[1..], ds);
    } else {
      assert zs + ds == ds;
    }
  }

  /** `strtoll` reads a rendered number in range back exactly. */
  lemma {:induction false} StrtollOfRender(n: nat)
    requires n <= LLONG_MAX
    ensures Strtoll(Render(n)) == n
  {
    ValueOfRender(n);
  }
}
