/**
 * JavaScript numbers as the screens use them: the result of `Number(x)`,
 * which is either an integer or NaN, strict equality on such results,
 * decimal rendering (`String(n)`, `n.toString()`), and the option lists
 * built by `Array.from({ length: n }, (_, i) => i + 1)`.
 */
module Numbers {
  import opened Text

  /** A JavaScript number restricted to integers, or NaN. */
  datatype Num = Int(value: int) | NaN

  /** `a === b` on numbers: NaN equals nothing, not even NaN. */
  predicate NumEq(a: Num, b: Num) {
    a.Int? && b.Int? && a.value == b.value
  }

  /** `n <= 0` on a number; false for NaN. */
  predicate NonPositive(a: Num) {
    a.Int? && a.value <= 0
  }

  predicate IsDigit(c: char) {
    '0' <= c <= '9'
  }

  predicate AllDigits(s: string) {
    forall k :: 0 <= k < |s| ==> IsDigit(s[k])
  }

  /** The value of a string of decimal digits, most significant first. */
  function DigitsValue(s: string): (n: nat)
    requires AllDigits(s)
  {
    if s == [] then 0
    else DigitsValue(s[..|s| - 1]) * 10 + (s[|s| - 1] as int - '0' as int)
  }

  /** A run of decimal digits, optionally preceded by one sign. */
  predicate SignedDigits(t: string) {
    (t != [] && AllDigits(t)) || (|t| > 1 && (t[0] == '-' || t[0] == '+') && AllDigits(t[1..]))
  }

  /**
   * JavaScript's `Number(s)` on a string: surrounding whitespace is ignored,
   * an empty or blank string is 0, an optionally signed run of decimal
   * digits is its value, and anything else is NaN.
   */
  function ParseNumber(s: string): (r: Num)
    ensures IsBlank(s) ==> r == Int(0)
    ensures r.NaN? <==> !IsBlank(s) && !SignedDigits(Trim(s))
  {
    var t := Trim(s);
    if t == [] then Int(0)
    else if (t[0] == '-' || t[0] == '+') && |t| > 1 && AllDigits(t[1..]) then
      (if t[0] == '-' then Int(-(DigitsValue(t[1..]) as int)) else Int(DigitsValue(t[1..])))
    else if AllDigits(t) then Int(DigitsValue(t))
    else NaN
  }

  lemma {:induction false} ZerosValue(z: string)
    requires forall k :: 0 <= k < |z| ==> z[k] == '0'
    ensures AllDigits(z) && DigitsValue(z) == 0
  {
    if z != [] {
      ZerosValue(z[..|z| - 1]);
    }
  }

  /** Leading zeros do not change the value of a run of digits. */
  lemma {:induction false} LeadingZerosIgnored(z: string, d: string)
    requires forall k :: 0 <= k < |z| ==> z[k] == '0'
    requires AllDigits(d)
    ensures AllDigits(z + d) && DigitsValue(z + d) == DigitsValue(d)
  {
    if d == [] {
      assert z + d == z;
      ZerosValue(z);
    } else {
      var zd := z + d;
      assert zd[..|zd| - 1] == z + d[..|d| - 1];
      assert zd[|zd| - 1] == d[|d| - 1];
      LeadingZerosIgnored(z, d[..|d| - 1]);
    }
  }

  /** The optional sign in front of a run of digits. */
  datatype Sign = Unsigned | Plus | Minus
  {
    function Text(): string {
      match this
      case Unsigned => ""
      case Plus => "+"
      case Minus => "-"
    }
  }

  /**
   * A run of digits with an optional sign, padded with whitespace on either
   * side, reads as its signed value: " +5 " is 5 and "-3" is -3.
   */
  lemma ParsePaddedDigits(a: string, sign: Sign, d: string, b: string)
    requires AllSpace(a) && AllSpace(b)
    requires d != [] && AllDigits(d)
    ensures ParseNumber(a + (sign.Text() + d) + b) == Int(if sign == Minus then -(DigitsValue(d) as int) else DigitsValue(d))
  {
    SignedDigitsEnds(sign, d);
    TrimPadded(a, sign.Text() + d, b);
    ParseSignedDigits(a + (sign.Text() + d) + b, sign, d);
  }

  /** Leading zeros and whitespace padding do not change what a run of digits reads as: " 007 " is 7. */
  lemma ParseZeroPadded(a: string, z: string, d: string, b: string)
    requires AllSpace(a) && AllSpace(b)
    requires forall k :: 0 <= k < |z| ==> z[k] == '0'
    requires z + d != [] && AllDigits(d)
    ensures ParseNumber(a + (z + d) + b) == Int(DigitsValue(d))
  {
    LeadingZerosIgnored(z, d);
    ParsePaddedDigits(a, Unsigned, z + d, b);
    assert Unsigned.Text() + (z + d) == z + d;
  }

  lemma SignedDigitsEnds(sign: Sign, d: string)
    requires d != [] && AllDigits(d)
    ensures !IsSpace((sign.Text() + d)[0]) && !IsSpace((sign.Text() + d)[|sign.Text() + d| - 1])
  {
    var x := sign.Text() + d;
    if sign == Unsigned {
      assert x[0] == d[0];
    } else {
      assert x[0] == sign.Text()[0];
    }
    assert x[|x| - 1] == d[|d| - 1];
  }

  lemma ParseSignedDigits(s: string, sign: Sign, d: string)
    requires Trim(s) == sign.Text() + d
    requires d != [] && AllDigits(d)
    ensures ParseNumber(s) == Int(if sign == Minus then -(DigitsValue(d) as int) else DigitsValue(d))
  {
    var t := sign.Text() + d;
    if sign != Unsigned {
      assert t[1..] == d;
      assert t[0] == sign.Text()[0];
    } else {
      assert t == d;
    }
  }

  function DigitChar(d: nat): (c: char)
    requires d < 10
    ensures IsDigit(c) && c as int - '0' as int == d
  {
    (d + '0' as int) as char
  }

  /** Decimal digits of a natural number, with no leading zeros. */
  function NatToString(n: nat): (s: string)
    ensures |s| > 0 && AllDigits(s)
    ensures |s| > 1 ==> s[0] != '0'
    decreases n
  {
    if n < 10 then [DigitChar(n)] else NatToString(n / 10) + [DigitChar(n % 10)]
  }

  /** `String(n)` for an integer. */
  function IntToString(n: int): (s: string)
    ensures |s| > 0
    ensures !IsSpace(s[0]) && !IsSpace(s[|s| - 1])
  {
    if n < 0 then "-" + NatToString(-n) else NatToString(n)
  }

  /** Reading back the digits of `n` gives `n`. */
  lemma {:induction false} NatToStringValue(n: nat)
    ensures DigitsValue(NatToString(n)) == n
    decreases n
  {
    var s := NatToString(n);
    if n >= 10 {
      NatToStringValue(n / 10);
      assert s[..|s| - 1] == NatToString(n / 10);
    }
  }

  /** `Number(String(n)) === n` for every integer: rendering and parsing are inverse. */
  lemma ParseIntToString(n: int)
    ensures ParseNumber(IntToString(n)) == Int(n)
  {
    var s := IntToString(n);
    TrimOfTrimmed(s);
    if n < 0 {
      assert s[1..] == NatToString(-n);
      NatToStringValue(-n);
    } else {
      NatToStringValue(n);
    }
  }

  /** Text that is already trimmed and starts with neither a sign nor a digit reads as NaN. */
  lemma NonNumericText(s: string)
    requires Trim(s) == s && s != [] && !IsDigit(s[0]) && s[0] != '-' && s[0] != '+'
    ensures !IsBlank(s) && ParseNumber(s) == NaN
  {
  }

  /** "NaN" has no surrounding whitespace to trim. */
  lemma NaNTrimmed()
    ensures Trim("NaN") == "NaN"
  {
    var s := "NaN";
    assert |s| == 3 && s[0] == 'N' && s[2] == 'N';
    TrimOfTrimmed(s);
  }

  /** `String(n)` for a number: its decimal digits, or "NaN". */
  function NumText(n: Num): (s: string)
    ensures !IsBlank(s)
    ensures ParseNumber(s) == n
  {
    if n.NaN? then NaNTrimmed(); NonNumericText("NaN"); "NaN"
    else ParseIntToString(n.value); TrimOfTrimmed(IntToString(n.value)); IntToString(n.value)
  }

  /** JavaScript's `Array.from({ length: n }, (_, i) => i + 1)`: the list 1, 2, ..., n; empty when n <= 0. */
  function OneTo(n: int): (r: seq<int>)
    ensures |r| == if n > 0 then n else 0
    ensures forall i :: 0 <= i < |r| ==> r[i] == i + 1
  {
    if n <= 0 then [] else OneTo(n - 1) + [n]
  }
}
