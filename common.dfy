/** Small vocabulary shared by the scoring engine: optional values (JavaScript's
    null/undefined), displayed rates, and the decimal rendering of numbers that
    the engine's template literals perform. */
module Common {

  /** A value that may be absent, as a JavaScript `null`/`undefined` may be. */
  datatype Option<+T> = None | Some(value: T)

  /** A rate as the engine shows it: either the fixed default text it returns
      when there is nothing to divide by, or the exact quotient it would round
      for display. */
  datatype Rate = Default(text: string) | Exact(value: real)

  predicate IsDigit(c: char) { '0' <= c <= '9' }

  predicate IsDigits(s: string) {
    forall i :: 0 <= i < |s| ==> IsDigit(s[i])
  }

  function DigitChar(d: nat): (c: char)
    requires d < 10
    ensures IsDigit(c) && c as int - '0' as int == d
  {
    ('0' as int + d) as char
  }

  /** The decimal text of a natural number, as `${n}` prints it. */
  function NatToString(n: nat): (s: string)
    ensures |s| >= 1 && IsDigits(s)
    ensures (s[0] == '0') == (n == 0)
    ensures n == 0 ==> s == "0"
    decreases n
  {
    if n < 10 then [DigitChar(n)] else NatToString(n / 10) + [DigitChar(n % 10)]
  }

  /** The number a string of decimal digits denotes. */
  function DigitsValue(s: string): nat
    requires IsDigits(s)
  {
    if s == [] then 0
    else DigitsValue(s[..|s| - 1]) * 10 + (s[|s| - 1] as int - '0' as int)
  }

  /** Reading back the decimal text of `n` yields `n`. */
  lemma {:induction false} DigitsValueOfNatToString(n: nat)
    ensures DigitsValue(NatToString(n)) == n
    decreases n
  {
    if n >= 10 {
      var s := NatToString(n);
      assert s[..|s| - 1] == NatToString(n / 10);
      DigitsValueOfNatToString(n / 10);
    }
  }

  /** Different numbers are printed differently. */
  lemma NatToStringInjective(a: nat, b: nat)
    requires NatToString(a) == NatToString(b)
    ensures a == b
  {
    DigitsValueOfNatToString(a);
    DigitsValueOfNatToString(b);
  }

  /** Two digit strings joined by the same non-digit separator can be split
      back unambiguously. */
  lemma SplitAtSeparator(x: string, y: string, x': string, y': string, sep: char)
    requires IsDigits(x) && IsDigits(x') && !IsDigit(sep)
    requires x + [sep] + y == x' + [sep] + y'
    ensures x == x' && y == y'
  {
    var s := x + [sep] + y;
    assert !IsDigit(s[|x|]) && !IsDigit(s[|x'|]);
    assert forall i :: 0 <= i < |x| ==> IsDigit(s[i]);
    assert forall i :: 0 <= i < |x'| ==> IsDigit(s[i]);
    assert |x| == |x'|;
    assert x == s[..|x|] == x';
    assert y == s[|x| + 1..] == y';
  }

  /** A string that starts with a run of digits followed by text that does not
      start with a digit splits back unambiguously into the two. */
  lemma SplitDigitPrefix(x: string, y: string, x': string, y': string)
    requires IsDigits(x) && IsDigits(x')
    requires y == [] || !IsDigit(y[0])
    requires y' == [] || !IsDigit(y'[0])
    requires x + y == x' + y'
    ensures x == x' && y == y'
  {
    var s := x + y;
    assert forall i :: 0 <= i < |x| ==> IsDigit(s[i]);
    assert forall i :: 0 <= i < |x'| ==> IsDigit(s[i]);
    assert |x| < |s| ==> !IsDigit(s[|x|]);
    assert |x'| < |s| ==> !IsDigit(s[|x'|]);
    assert |x| == |x'|;
    assert x == s[..|x|] == x';
    assert y == s[|x|..] == y';
  }

  /** Two numbers printed with a separator between them, as `${a}/${b}` does. */
  function JoinNumbers(a: nat, sep: char, b: nat): string {
    NatToString(a) + [sep] + NatToString(b)
  }

  /** The joined text determines both numbers. */
  lemma JoinNumbersInjective(a: nat, b: nat, a': nat, b': nat, sep: char)
    requires !IsDigit(sep)
    requires JoinNumbers(a, sep, b) == JoinNumbers(a', sep, b')
    ensures a == a' && b == b'
  {
    SplitAtSeparator(NatToString(a), NatToString(b), NatToString(a'), NatToString(b'), sep);
    NatToStringInjective(a, a');
    NatToStringInjective(b, b');
  }
}
