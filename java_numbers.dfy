/**
 * Java's 32-bit `int` arithmetic and the number syntaxes accepted by Integer.parseInt and
 * Double.parseDouble, with ASCII digits.
 */
module JavaNumbers {
  import opened Base
  import opened JavaText

  const INT_MIN: int := -0x8000_0000
  const INT_MAX: int := 0x7FFF_FFFF

  predicate IsInt32(x: int) {
    INT_MIN <= x <= INT_MAX
  }

  /** Two's-complement wrap-around of an exact result into the `int` range. */
  function Wrap32(x: int): (r: int)
    ensures IsInt32(r)
    ensures (r - x) % 0x1_0000_0000 == 0
    ensures IsInt32(x) ==> r == x
  {
    (x - INT_MIN) % 0x1_0000_0000 + INT_MIN
  }

  /** Java's `/` on `int`: the quotient truncated toward zero, wrapped (MIN / -1 is MIN). */
  function JavaDiv(a: int, b: int): (r: int)
    requires b != 0
    ensures IsInt32(r)
    ensures IsInt32(a) && IsInt32(b) && !(a == INT_MIN && b == -1) ==> TruncatedQuotient(a, b, r)
    ensures a == INT_MIN && b == -1 ==> r == INT_MIN
  {
    var q := Abs(a) / Abs(b);
    QuotientInRange(a, b);
    Wrap32(if (a < 0) != (b < 0) then -q else q)
  }

  /**
   * `r` is `a / b` rounded toward zero: its magnitude is the largest whose multiple of |b|
   * does not exceed |a|, and it is negative exactly when a non-zero result has operands of
   * opposite signs.
   */
  predicate TruncatedQuotient(a: int, b: int, r: int) {
    && Abs(r) * Abs(b) <= Abs(a) < (Abs(r) + 1) * Abs(b)
    && (r == 0 || (r < 0 <==> (a < 0) != (b < 0)))
  }

  /** Natural division leaves a remainder below the divisor. */
  lemma DivBounds(x: nat, y: nat)
    requires y > 0
    ensures 0 <= x / y
    ensures (x / y) * y <= x < (x / y + 1) * y
  {
    assert x == (x / y) * y + x % y;
  }

  lemma MulMonotone(q: nat, m: nat, n: nat)
    requires m <= n
    ensures q * m <= q * n
  {
  }

  /** The quotient of 32-bit operands, signed as Java does, fits in 32 bits except MIN_VALUE / -1. */
  lemma QuotientInRange(a: int, b: int)
    requires b != 0
    ensures IsInt32(a) && IsInt32(b) && !(a == INT_MIN && b == -1) ==>
      var q := Abs(a) / Abs(b);
      var t := if (a < 0) != (b < 0) then -q else q;
      IsInt32(t) && TruncatedQuotient(a, b, t)
  {
    if IsInt32(a) && IsInt32(b) && !(a == INT_MIN && b == -1) {
      var x, y := Abs(a), Abs(b);
      DivBounds(x, y);
      var q: nat := x / y;
      MulMonotone(q, 1, y);
      assert q <= x;
      if y >= 2 {
        MulMonotone(q, 2, y);
        assert 2 * q <= x;
      } else {
        assert b == 1 || a != INT_MIN;
      }
      var t: int := if (a < 0) != (b < 0) then -(q as int) else q;
      assert Abs(t) == q;
      assert IsInt32(t);
    }
  }

  /** Java's -7 / 2 is -3 (Euclidean division would give -4); -7 / -2 is 3. */
  lemma JavaDivExamples()
    ensures JavaDiv(-7, 2) == -3 && JavaDiv(7, -2) == -3 && JavaDiv(-7, -2) == 3
  {
  }

  function Abs(x: int): nat {
    if x < 0 then -x else x
  }

  function DigitValue(c: char): nat
    requires IsDigit(c)
  {
    c as int - '0' as int
  }

  predicate AllDigits(s: string) {
    forall i :: 0 <= i < |s| ==> IsDigit(s[i])
  }

  /** The value of a string of decimal digits, most significant first. */
  function DigitsValue(s: string): nat
    requires AllDigits(s)
  {
    if s == [] then 0 else DigitsValue(s[..|s| - 1]) * 10 + DigitValue(s[|s| - 1])
  }

  /**
   * Integer.parseInt: an optional '-' or '+', then one or more decimal digits, whose value
   * must lie in the `int` range; anything else is a NumberFormatException (None).
   */
  function ParseInt(s: string): (r: Option<int>)
    ensures r.Some? ==> IsInt32(r.value)
    ensures r.Some? ==> s != [] && (IsDigit(s[0]) || s[0] == '-' || s[0] == '+')
    ensures r.Some? ==> forall i :: 1 <= i < |s| ==> IsDigit(s[i])
  {
    if s == [] then None
    else
      var body := if s[0] == '-' || s[0] == '+' then s[1..] else s;
      if body == [] || !AllDigits(body) then None
      else
        var v: int := if s[0] == '-' then 0 - DigitsValue(body) as int else DigitsValue(body);
        if IsInt32(v) then Some(v) else None
  }

  /** The value of an accepted text is the signed value of its digits. */
  lemma ParseIntValue(s: string)
    requires ParseInt(s).Some?
    ensures IsDigit(s[0]) ==> AllDigits(s) && ParseInt(s).value == DigitsValue(s)
    ensures !IsDigit(s[0]) ==>
      (|s| >= 2 && AllDigits(s[1..])
       && ParseInt(s).value == if s[0] == '-' then -(DigitsValue(s[1..]) as int) else DigitsValue(s[1..]))
  {
  }

  /**
   * The converse: a sign ("", "+" or "-") followed by one or more decimal digits is accepted
   * exactly when its value fits in an `int`, and it parses to that value (leading zeros and
   * "-0" included).
   */
  lemma ParseIntAccepts(sign: string, digits: string)
    requires sign == "" || sign == "+" || sign == "-"
    requires digits != [] && AllDigits(digits)
    ensures var v := if sign == "-" then -(DigitsValue(digits) as int) else DigitsValue(digits);
      ParseInt(sign + digits) == if IsInt32(v) then Some(v) else None
  {
    var s := sign + digits;
    if sign != "" {
      assert s[1..] == digits;
    } else {
      assert s == digits;
    }
  }

  /** For instance "+007" and "-0" are accepted, while a lone sign is not. */
  lemma ParseIntExamples()
    ensures ParseInt("+007") == Some(7) && ParseInt("-0") == Some(0)
    ensures ParseInt("-") == None && ParseInt("+") == None
  {
    ParseIntAccepts("+", "007");
    ParseIntAccepts("-", "0");
  }

  function DigitChar(d: nat): (c: char)
    requires d < 10
    ensures IsDigit(c) && DigitValue(c) == d
  {
    ('0' as int + d) as char
  }

  /** Decimal digits of a natural number, without leading zeros. */
  function NatToString(n: nat): (s: string)
    ensures s != [] && AllDigits(s)
  {
    if n < 10 then [DigitChar(n)] else NatToString(n / 10) + [DigitChar(n % 10)]
  }

  /** String.valueOf(int) / Integer.toString. */
  function IntToString(n: int): (s: string)
    ensures s != []
    ensures IsDigit(s[0]) || (s[0] == '-' && |s| >= 2 && IsDigit(s[1]))
  {
    if n < 0 then "-" + NatToString(-n) else NatToString(n)
  }

  lemma {:induction false} NatToStringValue(n: nat)
    ensures DigitsValue(NatToString(n)) == n
  {
    if n >= 10 {
      NatToStringValue(n / 10);
      var s := NatToString(n);
      assert s[..|s| - 1] == NatToString(n / 10);
    }
  }

  /** Integer.parseInt(Integer.toString(n)) == n for every `int` n. */
  lemma ParseIntToString(n: int)
    requires IsInt32(n)
    ensures ParseInt(IntToString(n)) == Some(n)
  {
    var s := IntToString(n);
    if n < 0 {
      NatToStringValue(-n);
      assert s[1..] == NatToString(-n);
    } else {
      NatToStringValue(n);
    }
  }

  predicate IsHexDigit(c: char) {
    IsDigit(c) || ('a' <= c <= 'f') || ('A' <= c <= 'F')
  }

  /** Digits (hexadecimal when `hex`) with at most one '.', and at least one digit. */
  predicate IsMantissa(m: string, hex: bool) {
    MantissaFrom(m, hex, false, false)
  }

  /** IsMantissa of the rest of `m`, given whether a '.' and a digit were already seen. */
  predicate MantissaFrom(m: string, hex: bool, dot: bool, digit: bool) {
    if m == [] then digit
    else if m[0] == '.' then !dot && MantissaFrom(m[1..], hex, true, digit)
    else (if hex then IsHexDigit(m[0]) else IsDigit(m[0])) && MantissaFrom(m[1..], hex, dot, true)
  }

  /** An optional sign followed by one or more decimal digits. */
  predicate IsSignedDigits(x: string) {
    var d := if x != [] && (x[0] == '+' || x[0] == '-') then x[1..] else x;
    d != [] && AllDigits(d)
  }

  function FirstIndexOfEither(s: string, a: char, b: char): (r: int)
    ensures -1 <= r < |s|
    ensures r >= 0 ==> s[r] == a || s[r] == b
    ensures r == -1 ==> a !in s && b !in s
  {
    if s == [] then -1
    else if s[0] == a || s[0] == b then 0
    else
      var k := FirstIndexOfEither(s[1..], a, b);
      if k == -1 then -1 else k + 1
  }

  function DropFloatSuffix(v: string): string {
    if v != [] && v[|v| - 1] in "fFdD" then v[..|v| - 1] else v
  }

  /** Decimal form: mantissa, optional [eE] exponent, optional [fFdD] suffix. */
  predicate IsDecimalFloat(u: string) {
    var v := DropFloatSuffix(u);
    var k := FirstIndexOfEither(v, 'e', 'E');
    if k == -1 then IsMantissa(v, false)
    else IsMantissa(v[..k], false) && IsSignedDigits(v[k + 1..])
  }

  /** Hexadecimal form after "0x": hex mantissa, a required [pP] exponent, optional suffix. */
  predicate IsHexFloat(w: string) {
    var v := DropFloatSuffix(w);
    var k := FirstIndexOfEither(v, 'p', 'P');
    k != -1 && IsMantissa(v[..k], true) && IsSignedDigits(v[k + 1..])
  }

  /**
   * Double.parseDouble's accepted syntax: after String.trim, an optional sign, then NaN,
   * Infinity, a hexadecimal or a decimal floating-point literal.
   */
  predicate IsDoubleText(s: string) {
    var t := Trim(s);
    var u := if t != [] && (t[0] == '+' || t[0] == '-') then t[1..] else t;
    if u == "NaN" || u == "Infinity" then true
    else if |u| >= 2 && u[0] == '0' && (u[1] == 'x' || u[1] == 'X') then IsHexFloat(u[2..])
    else IsDecimalFloat(u)
  }

  /** Every string Double.parseDouble accepts starts, once trimmed, with a sign, a digit, '.', 'N' or 'I'. */
  lemma DoubleTextStart(s: string)
    ensures IsDoubleText(s) ==> var t := Trim(s); t != [] && (t[0] in "+-.NI" || IsDigit(t[0]))
  {
    var t := Trim(s);
    var u := if t != [] && (t[0] == '+' || t[0] == '-') then t[1..] else t;
    if !IsDoubleText(s) || (t != [] && (t[0] == '+' || t[0] == '-')) {
    } else if u == "NaN" || u == "Infinity" {
    } else if |u| >= 2 && u[0] == '0' && (u[1] == 'x' || u[1] == 'X') {
    } else {
      var v := DropFloatSuffix(u);
      var k := FirstIndexOfEither(v, 'e', 'E');
      var m := if k == -1 then v else v[..k];
      assert IsMantissa(m, false);
      assert m[0] == '.' || IsDigit(m[0]);
      assert u[0] == m[0];
    }
  }
}
