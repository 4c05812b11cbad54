/**
  Decimal rendering of natural numbers, as JavaScript prints an integral
  `number` inside a template literal, together with the matching parser used
  to show that the rendering loses nothing.
*/
module Decimal {

  predicate IsDigit(c: char) {
    '0' <= c <= '9'
  }

  predicate AllDigits(s: string) {
    forall i :: 0 <= i < |s| ==> IsDigit(s[i])
  }

  function DigitChar(d: nat): (c: char)
    requires d < 10
    ensures IsDigit(c)
  {
    ['0', '1', '2', '3', '4', '5', '6', '7', '8', '9'][d]
  }

  function DigitValue(c: char): (d: nat)
    requires IsDigit(c)
    ensures d < 10
  {
    (c as int - '0' as int) as nat
  }

  lemma DigitRoundTrip(d: nat)
    requires d < 10
    ensures DigitValue(DigitChar(d)) == d
  {
  }

  /** The shortest decimal spelling of `n`: no sign, no leading zero. */
  function Show(n: nat): (s: string)
    ensures 0 < |s|
    ensures AllDigits(s)
    ensures |s| > 1 ==> s[0] != '0'
  {
    if n < 10 then [DigitChar(n)] else Show(n / 10) + [DigitChar(n % 10)]
  }

  /** The value of a string of decimal digits. */
  function Value(s: string): nat
    requires AllDigits(s)
  {
    if |s| == 0 then 0 else Value(s[..|s| - 1]) * 10 + DigitValue(s[|s| - 1])
  }

  /** Reading back what `Show` printed gives the number printed. */
  lemma {:induction false} ValueOfShow(n: nat)
    ensures Value(Show(n)) == n
  {
    if n < 10 {
      DigitRoundTrip(n);
      assert Show(n)[..0] == [];
    } else {
      var s := Show(n);
      assert s[..|s| - 1] == Show(n / 10);
      ValueOfShow(n / 10);
      DigitRoundTrip(n % 10);
    }
  }

  /** Printing the value of a digit character gives the character back. */
  lemma CharRoundTrip(c: char)
    requires IsDigit(c)
    ensures DigitChar(DigitValue(c)) == c
  {
  }

  /** A digit run that does not start with `0` has a positive value. */
  lemma {:induction false} ValuePositive(s: string)
    requires AllDigits(s) && 0 < |s| && s[0] != '0'
    ensures Value(s) > 0
    decreases |s|
  {
    if |s| > 1 {
      ValuePositive(s[..|s| - 1]);
    }
  }

  /** A digit run with no leading zero is exactly what `Show` prints for its value. */
  lemma {:induction false} ShowOfValue(s: string)
    requires AllDigits(s) && 0 < |s|
    requires |s| > 1 ==> s[0] != '0'
    ensures Show(Value(s)) == s
    decreases |s|
  {
    var last := s[|s| - 1];
    CharRoundTrip(last);
    if |s| == 1 {
      assert s[..0] == [];
    } else {
      var init := s[..|s| - 1];
      ValuePositive(init);
      ShowOfValue(init);
      var n := Value(s);
      assert n == Value(init) * 10 + DigitValue(last);
      assert n / 10 == Value(init) && n % 10 == DigitValue(last);
      assert Show(n) == Show(n / 10) + [DigitChar(n % 10)];
      assert s == init + [last];
    }
  }

  /** The number of leading decimal digits of `s`. */
  function DigitSpan(s: string): (k: nat)
    ensures k <= |s|
    ensures AllDigits(s[..k])
    ensures k < |s| ==> !IsDigit(s[k])
  {
    if |s| == 0 || !IsDigit(s[0]) then 0 else 1 + DigitSpan(s[1..])
  }

  /** A digit run followed by a non-digit (or by nothing) spans exactly the run. */
  lemma {:induction false} DigitSpanOfRun(digits: string, rest: string)
    requires AllDigits(digits)
    requires |rest| == 0 || !IsDigit(rest[0])
    ensures DigitSpan(digits + rest) == |digits|
  {
    if |digits| > 0 {
      assert (digits + rest)[1..] == digits[1..] + rest;
      DigitSpanOfRun(digits[1..], rest);
    } else {
      assert digits + rest == rest;
    }
  }
}
