/**
  Decimal digit strings: the `\d` character class of a non-unicode JavaScript
  regular expression (ASCII '0'..'9' only), `parseInt(s, 10)` on such a string,
  and the rendering of a non-negative integer by template-literal interpolation.
  Numbers are unbounded here; the floating-point limits of JavaScript numbers
  are not modelled.
 */
module Decimal {

  predicate IsDigit(c: char) {
    '0' <= c <= '9'
  }

  predicate AllDigits(s: string) {
    forall i :: 0 <= i < |s| ==> IsDigit(s[i])
  }

  /** What the capture group `(\d+)` can hold: one or more ASCII digits. */
  predicate IsDigitRun(s: string) {
    |s| > 0 && AllDigits(s)
  }

  /** The shape of a rendered number: no leading zero unless the number is 0 itself. */
  predicate NoLeadingZero(s: string) {
    |s| == 1 || (|s| > 0 && s[0] != '0')
  }

  function DigitValue(c: char): (d: nat)
    requires IsDigit(c)
    ensures d < 10
  {
    c as int - '0' as int
  }

  function DigitChar(d: nat): (c: char)
    requires d < 10
    ensures IsDigit(c) && DigitValue(c) == d
  {
    ('0' as int + d) as char
  }

  /** `parseInt(s, 10)` for a string of ASCII digits, read most significant digit first. */
  function Parse(s: string): nat
    requires AllDigits(s)
    decreases |s|
  {
    if |s| == 0 then 0 else Parse(s[..|s| - 1]) * 10 + DigitValue(s[|s| - 1])
  }

  /** The decimal rendering of `n`, without padding. */
  function Show(n: nat): (r: string)
    ensures IsDigitRun(r) && NoLeadingZero(r)
    decreases n
  {
    if n < 10 then [DigitChar(n)] else Show(n / 10) + [DigitChar(n % 10)]
  }

  /** Rendering then parsing gives the number back. */
  lemma {:induction false} ParseShow(n: nat)
    ensures Parse(Show(n)) == n
    decreases n
  {
    if n >= 10 {
      var s := Show(n);
      assert s[..|s| - 1] == Show(n / 10);
      ParseShow(n / 10);
    }
  }

  /** A digit string with a non-zero leading digit parses to a positive number. */
  lemma {:induction false} ParsePositive(s: string)
    requires IsDigitRun(s) && s[0] != '0'
    ensures Parse(s) > 0
    decreases |s|
  {
    if |s| > 1 {
      ParsePositive(s[..|s| - 1]);
    }
  }

  /** Parsing then rendering gives back every digit string that has no leading zero. */
  lemma {:induction false} ShowParse(s: string)
    requires IsDigitRun(s) && NoLeadingZero(s)
    ensures Show(Parse(s)) == s
    decreases |s|
  {
    var init := s[..|s| - 1];
    if |s| == 1 {
      assert s == [DigitChar(DigitValue(s[0]))];
    } else {
      ParsePositive(init);
      ShowParse(init);
      var n := Parse(s);
      assert n / 10 == Parse(init) && n % 10 == DigitValue(s[|s| - 1]);
      assert s == init + [DigitChar(DigitValue(s[|s| - 1]))];
    }
  }

  /** A leading zero does not change the parsed value, so `007` parses to 7. */
  lemma {:induction false} LeadingZeroIgnored(s: string)
    requires AllDigits(s)
    ensures AllDigits("0" + s) && Parse("0" + s) == Parse(s)
    decreases |s|
  {
    var z := "0" + s;
    assert AllDigits(z) by {
      forall i | 0 <= i < |z| ensures IsDigit(z[i]) {
        if i > 0 { assert z[i] == s[i - 1]; }
      }
    }
    if |s| > 0 {
      var init := s[..|s| - 1];
      assert z[..|z| - 1] == "0" + init;
      LeadingZeroIgnored(init);
    }
  }
}
