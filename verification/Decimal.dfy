/**
 * Decimal text of unsigned integers: what `to_string`/`format!` print and what
 * `usize::from_str`/`u16::from_str` accept (an optional plus sign, at least one
 * digit, no overflow).
 */
module Decimal {
  import opened Wrappers

  predicate IsDigit(c: char) {
    '0' <= c <= '9'
  }

  function DigitChar(d: nat): (c: char)
    requires d < 10
    ensures IsDigit(c) && DigitValue(c) == d
  {
    '0' + d as char
  }

  function DigitValue(c: char): (d: nat)
    requires IsDigit(c)
    ensures d < 10
  {
    (c - '0') as int
  }

  /** The canonical decimal text of `n`. */
  function Print(n: nat): (s: string)
    ensures s != [] && forall i :: 0 <= i < |s| ==> IsDigit(s[i])
  {
    if n < 10 then [DigitChar(n)] else Print(n / 10) + [DigitChar(n % 10)]
  }

  /** The value of a digit string, or nothing when a character is not a digit. */
  function DigitsValue(s: string): (r: Option<nat>) {
    if s == [] then Some(0)
    else
      var k := |s| - 1;
      if !IsDigit(s[k]) then None
      else match DigitsValue(s[..k])
        case None => None
        case Some(v) => Some(10 * v + DigitValue(s[k]))
  }

  /** Parsing into an unsigned type holding the values below `limit`. */
  function Parse(s: string, limit: nat): (r: Option<nat>)
    ensures r.Some? ==> r.value < limit
  {
    var digits := if s != [] && s[0] == '+' then s[1..] else s;
    if digits == [] then None
    else match DigitsValue(digits)
      case None => None
      case Some(v) => if v < limit then Some(v) else None
  }

  lemma {:induction false} DigitsOfPrint(n: nat)
    ensures DigitsValue(Print(n)) == Some(n)
  {
    if n < 10 {
      assert Print(n)[..0] == [];
    } else {
      DigitsOfPrint(n / 10);
      assert Print(n)[..|Print(n)| - 1] == Print(n / 10);
    }
  }

  /** Printing then parsing gives the number back exactly when the type can hold it. */
  lemma ParseOfPrint(n: nat, limit: nat)
    ensures Parse(Print(n), limit) == if n < limit then Some(n) else None
  {
    DigitsOfPrint(n);
    assert IsDigit(Print(n)[0]);
  }

  lemma PrintInjective(a: nat, b: nat)
    requires Print(a) == Print(b)
    ensures a == b
  {
    DigitsOfPrint(a);
    DigitsOfPrint(b);
  }

  /** A digit string without superfluous leading zeros is what its value prints as. */
  lemma {:induction false} PrintOfDigits(s: string, v: nat)
    requires s != [] && DigitsValue(s) == Some(v) && (|s| == 1 || s[0] != '0')
    ensures s == Print(v)
    ensures |s| > 1 ==> v >= 10
    ensures |s| == 1 && s[0] != '0' ==> v >= 1
  {
    var k := |s| - 1;
    if k > 0 {
      var w := DigitsValue(s[..k]).value;
      PrintOfDigits(s[..k], w);
      assert v / 10 == w && v % 10 == DigitValue(s[k]);
      assert DigitChar(v % 10) == s[k];
      assert s == s[..k] + [s[k]];
    } else {
      assert s[..0] == [];
      assert v == DigitValue(s[0]);
      assert DigitChar(v) == s[0];
    }
  }

  /** A leading plus sign is accepted; nothing without a digit is. */
  lemma ParsePlus(n: nat, limit: nat)
    ensures Parse("+" + Print(n), limit) == if n < limit then Some(n) else None
    ensures Parse("", limit) == None && Parse("+", limit) == None
  {
    DigitsOfPrint(n);
    assert ("+" + Print(n))[1..] == Print(n);
    assert "+"[1..] == "";
  }

  /** Text with any other character does not parse. */
  lemma {:induction false} DigitsOnly(s: string, i: nat)
    requires i < |s| && !IsDigit(s[i])
    ensures DigitsValue(s) == None
  {
    if i < |s| - 1 { DigitsOnly(s[..|s| - 1], i); }
  }

  lemma ParseDigitsOnly(s: string, limit: nat, i: nat)
    requires i < |s| && !('0' <= s[i] <= '9')
    requires i == 0 ==> s[0] != '+'
    ensures Parse(s, limit) == None
  {
    if s[0] == '+' {
      DigitsOnly(s[1..], i - 1);
    } else {
      DigitsOnly(s, i);
    }
  }

  /** Only zero itself starts with a zero. */
  lemma {:induction false} NoLeadingZero(n: nat)
    ensures |Print(n)| == 1 <==> n < 10
    ensures n > 0 ==> Print(n)[0] != '0'
  {
    if n >= 10 { NoLeadingZero(n / 10); }
  }
}
