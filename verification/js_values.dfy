/**
 * The slice of JavaScript's value model the client touches: primitive
 * values, plain objects as finite string-keyed maps, property reads that
 * yield `undefined` for a missing key, and the string conversion applied
 * by the `+` operator when a value is concatenated onto a string.
 */
module JsValues {
  import opened Wrappers

  /** A primitive JavaScript value; numbers are restricted to integers. */
  datatype Value = Undefined | Null | Bool(b: bool) | Num(n: int) | Str(s: string)

  /** A plain object: own enumerable properties and their values. */
  type Object = map<string, Value>

  /** Property read `o.k`: a missing property reads as `undefined`. */
  function Get(o: Object, k: string): Value {
    if k in o then o[k] else Undefined
  }

  /** The test `v !== undefined`. */
  predicate Defined(v: Value) {
    v != Undefined
  }

  predicate IsDigit(c: char) {
    '0' <= c <= '9'
  }

  predicate AllDigits(s: string) {
    forall i :: 0 <= i < |s| ==> IsDigit(s[i])
  }

  function DigitChar(d: nat): (c: char)
    requires d < 10
    ensures IsDigit(c)
  {
    ['0', '1', '2', '3', '4', '5', '6', '7', '8', '9'][d]
  }

  function DigitValue(c: char): (d: nat)
    requires IsDigit(c)
    ensures d < 10
  {
    (c as int - '0' as int) as nat
  }

  /** Decimal digits of a natural number, most significant first, without leading zeros. */
  function NatToDecimal(n: nat): (s: string)
    ensures 0 < |s|
    ensures AllDigits(s)
    ensures s[0] == '0' <==> n == 0
    ensures n == 0 ==> s == "0"
  {
    if n < 10 then [DigitChar(n)] else NatToDecimal(n / 10) + [DigitChar(n % 10)]
  }

  /** Reads a string of decimal digits back as a natural number. */
  function ParseNat(s: string): nat
    requires AllDigits(s)
  {
    if s == [] then 0 else 10 * ParseNat(s[..|s| - 1]) + DigitValue(s[|s| - 1])
  }

  /** A digit string that does not start with `0` (the empty string included). */
  predicate NoLeadingZero(s: string) {
    |s| == 0 || s[0] != '0'
  }

  /**
   * The form in which JavaScript prints an integral number: an optional
   * minus sign, then at least one digit, with no leading zero except in
   * `0` itself (so never `-0` or `007`).
   */
  predicate CanonicalInt(s: string) {
    && 0 < |s|
    && var d := if s[0] == '-' then s[1..] else s;
       && 0 < |d|
       && AllDigits(d)
       && (d[0] == '0' ==> s == "0")
  }

  /** The text JavaScript prints for an integral number: an optional minus sign, then the digits. */
  function IntToDecimal(i: int): string {
    if i < 0 then "-" + NatToDecimal(-i) else NatToDecimal(i)
  }

  /** The printed form is canonical, and it starts with a minus sign exactly for negative numbers. */
  lemma IntToDecimalCanonical(i: int)
    ensures CanonicalInt(IntToDecimal(i))
    ensures IntToDecimal(i)[0] == '-' <==> i < 0
  {
    if i < 0 {
      var d := NatToDecimal(-i);
      assert IntToDecimal(i)[1..] == d;
    }
  }

  /** Reads an optionally signed decimal integer; `None` for anything else. */
  function ParseInt(s: string): Option<int> {
    if 0 < |s| && s[0] == '-' then
      if 1 < |s| && AllDigits(s[1..]) then Some(-(ParseNat(s[1..]) as int)) else None
    else if 0 < |s| && AllDigits(s) then Some(ParseNat(s))
    else None
  }

  lemma DigitRoundTrip(d: nat)
    requires d < 10
    ensures DigitValue(DigitChar(d)) == d
  {
  }

  /** Reading back the printed digits of `n` gives `n`. */
  lemma {:induction false} ParseNatOfDecimal(n: nat)
    ensures ParseNat(NatToDecimal(n)) == n
  {
    var s := NatToDecimal(n);
    if n < 10 {
      DigitRoundTrip(n);
      assert s[..|s| - 1] == [];
    } else {
      var hi := NatToDecimal(n / 10);
      assert s == hi + [DigitChar(n % 10)];
      assert s[..|s| - 1] == hi;
      ParseNatOfDecimal(n / 10);
      DigitRoundTrip(n % 10);
    }
  }

  lemma ParseSigned(d: string, n: nat)
    requires 0 < |d| && AllDigits(d) && ParseNat(d) == n
    ensures ParseInt("-" + d) == Some(-(n as int))
  {
    assert ("-" + d)[1..] == d;
  }

  lemma ParseUnsigned(d: string, n: nat)
    requires 0 < |d| && AllDigits(d) && ParseNat(d) == n
    ensures ParseInt(d) == Some(n)
  {
    assert IsDigit(d[0]);
  }

  /** Printing an integer and reading it back gives the same integer. */
  lemma IntDecimalRoundTrip(i: int)
    ensures ParseInt(IntToDecimal(i)) == Some(i)
  {
    if i < 0 {
      assert IntToDecimal(i) == "-" + NatToDecimal(-i);
      NegativeRoundTrip(-i);
    } else {
      var n: nat := i;
      assert IntToDecimal(i) == NatToDecimal(n);
      ParseNatOfDecimal(n);
      ParseUnsigned(NatToDecimal(n), n);
    }
  }

  lemma NegativeRoundTrip(n: nat)
    requires 0 < n
    ensures ParseInt("-" + NatToDecimal(n)) == Some(-(n as int))
  {
    ParseNatOfDecimal(n);
    ParseSigned(NatToDecimal(n), n);
  }

  /** A digit string without a leading zero denotes a positive number unless it is empty. */
  lemma {:induction false} ParseNatPositive(s: string)
    requires AllDigits(s) && 0 < |s| && s[0] != '0'
    ensures ParseNat(s) > 0
  {
    if |s| > 1 {
      ParseNatPositive(s[..|s| - 1]);
    }
  }

  /** Two digit strings without leading zeros that denote the same number are the same string. */
  lemma {:induction false} ParseNatInjective(a: string, b: string)
    requires AllDigits(a) && AllDigits(b) && NoLeadingZero(a) && NoLeadingZero(b)
    requires ParseNat(a) == ParseNat(b)
    ensures a == b
  {
    if a == [] {
      if b != [] { ParseNatPositive(b); }
    } else if b == [] {
      ParseNatPositive(a);
    } else {
      var a', b' := a[..|a| - 1], b[..|b| - 1];
      var x, y := DigitValue(a[|a| - 1]), DigitValue(b[|b| - 1]);
      assert 10 * ParseNat(a') + x == 10 * ParseNat(b') + y;
      assert x == y && ParseNat(a') == ParseNat(b') by {
        LastDigit(ParseNat(a'), x, ParseNat(b'), y);
      }
      assert a[|a| - 1] == b[|b| - 1];
      ParseNatInjective(a', b');
      assert a == a' + [a[|a| - 1]];
      assert b == b' + [b[|b| - 1]];
    }
  }

  lemma LastDigit(p: nat, x: nat, q: nat, y: nat)
    requires x < 10 && y < 10 && 10 * p + x == 10 * q + y
    ensures x == y && p == q
  {
    assert x == (10 * p + x) % 10;
    assert y == (10 * q + y) % 10;
  }

  /**
   * The printed form is the only canonical text of a number: any canonical
   * decimal that reads back as `i` is exactly what JavaScript prints for `i`.
   */
  lemma CanonicalDecimalUnique(i: int, s: string)
    requires CanonicalInt(s) && ParseInt(s) == Some(i)
    ensures s == IntToDecimal(i)
  {
    if s[0] == '-' {
      var d := s[1..];
      ParseNatPositive(d);
      ParseNatOfDecimal(-i);
      ParseNatInjective(d, NatToDecimal(-i));
      assert s == "-" + d;
    } else if s[0] == '0' {
      assert s == "0";
    } else {
      ParseNatPositive(s);
      ParseNatOfDecimal(i);
      ParseNatInjective(s, NatToDecimal(i));
    }
  }

  /**
   * String conversion `'' + v` as JavaScript's `+` performs it. A number
   * prints in canonical decimal form (a minus sign exactly for negatives, no
   * leading zero) that reads back to the same number, and strings are left
   * as they are.
   */
  function ToStr(v: Value): (r: string)
    ensures v.Num? ==> CanonicalInt(r) && ParseInt(r) == Some(v.n) && (r[0] == '-' <==> v.n < 0)
    ensures v.Str? ==> r == v.s
    ensures v.Undefined? ==> r == "undefined"
    ensures v.Null? ==> r == "null"
    ensures v.Bool? ==> r == if v.b then "true" else "false"
  {
    match v
    case Undefined => "undefined"
    case Null => "null"
    case Bool(b) => if b then "true" else "false"
    case Num(n) => IntDecimalRoundTrip(n); IntToDecimalCanonical(n); IntToDecimal(n)
    case Str(s) => s
  }
}
