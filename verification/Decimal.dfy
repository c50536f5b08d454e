/** Decimal numerals, as Go's "%d" prints them and `strconv.ParseInt` reads them. */
module Decimal {

  predicate IsDigit(c: char) {
    '0' <= c <= '9'
  }

  predicate Digits(s: string) {
    s != "" && forall i :: 0 <= i < |s| ==> IsDigit(s[i])
  }

  function DigitChar(d: nat): (c: char)
    requires d < 10
    ensures IsDigit(c)
  {
    '0' + d as char
  }

  function DigitValue(c: char): (d: nat)
    requires IsDigit(c)
    ensures d < 10 && DigitChar(d) == c
  {
    (c - '0') as nat
  }

  function Dec(n: nat): (s: string)
    ensures Digits(s)
    ensures n > 0 ==> s[0] != '0'
  {
    if n < 10 then [DigitChar(n)] else Dec(n / 10) + [DigitChar(n % 10)]
  }

  function ParseDec(s: string): nat
    requires Digits(s)
  {
    if |s| == 1 then DigitValue(s[0]) else ParseDec(s[..|s| - 1]) * 10 + DigitValue(s[|s| - 1])
  }

  lemma {:induction false} ParseOfDec(n: nat)
    ensures ParseDec(Dec(n)) == n
  {
    if n >= 10 {
      ParseOfDec(n / 10);
      assert Dec(n)[..|Dec(n)| - 1] == Dec(n / 10);
    }
  }

  /** A numeral without a leading zero is the one that is printed for its value. */
  lemma {:induction false} DecOfParse(s: string)
    requires Digits(s) && (s[0] != '0' || |s| == 1)
    ensures Dec(ParseDec(s)) == s
    ensures |s| > 1 ==> ParseDec(s) >= 10
  {
    if |s| > 1 {
      var front := s[..|s| - 1];
      DecOfParse(front);
      assert ParseDec(front) > 0 by {
        if |front| == 1 { assert DigitValue(front[0]) != 0 by { assert front[0] != DigitChar(0); } }
      }
      assert s == front + [s[|s| - 1]];
    }
  }

  /** How many digits a number has. */
  lemma {:induction false} DecLength(n: nat)
    requires n > 0
    ensures |Dec(n)| == 1 <==> n < 10
    ensures n < 100 ==> |Dec(n)| <= 2
    ensures |Dec(n)| <= 2 + n / 100
  {
    if n >= 10 {
      DecLength(n / 10);
    }
  }
}
