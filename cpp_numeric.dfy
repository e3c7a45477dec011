/**
 * The numeric conversions of the C++ standard library that the core relies on,
 * over Dafny's unbounded `int` and exact `real`:
 *   - std::stoi and std::stod (prefix parsing of a decimal numeral; None where they throw),
 *   - `ostream << int` and `ostream << double` (the latter is printf's %g with precision 6),
 *   - std::round (half away from zero) and static_cast<int> (truncation toward zero).
 */
module CppNumeric {
  import opened Wrappers

  /** The values of the 32-bit C++ `int`. */
  type Int32 = x: int | -0x8000_0000 <= x < 0x8000_0000

  function Pow10(k: nat): (r: nat)
    ensures r >= 1
  {
    if k == 0 then 1 else 10 * Pow10(k - 1)
  }

  predicate IsDigit(c: char) { '0' <= c <= '9' }

  predicate AllDigits(s: string) { forall i :: 0 <= i < |s| ==> IsDigit(s[i]) }

  function DigitChar(d: nat): (c: char)
    requires d < 10
    ensures IsDigit(c)
  {
    ('0' as int + d) as char
  }

  /** The value of a decimal digit character (0 for any other character). */
  function DigitValue(c: char): (d: nat)
    ensures d < 10
  {
    if IsDigit(c) then c as int - '0' as int else 0
  }

  /** The number a string of decimal digits denotes, most significant digit first. */
  function DigitsValue(s: string): nat
    decreases |s|
  {
    if s == [] then 0 else 10 * DigitsValue(s[..|s| - 1]) + DigitValue(s[|s| - 1])
  }

  /** `k` zero digits. */
  function Zeros(k: nat): (z: string)
    ensures |z| == k
  {
    if k == 0 then [] else "0" + Zeros(k - 1)
  }

  lemma {:induction false} ZerosDigits(k: nat)
    ensures AllDigits(Zeros(k))
    ensures forall i :: 0 <= i < k ==> Zeros(k)[i] == '0'
  {
    if k > 0 {
      ZerosDigits(k - 1);
    }
  }

  lemma {:induction false} ZerosSnoc(k: nat)
    ensures Zeros(k) + "0" == Zeros(k + 1)
  {
    if k > 0 {
      ZerosSnoc(k - 1);
      assert Zeros(k) + "0" == "0" + (Zeros(k - 1) + "0");
    }
  }

  lemma {:induction false} AllDigitsAppend(a: string, b: string)
    requires AllDigits(a) && AllDigits(b)
    ensures AllDigits(a + b)
  {
  }

  lemma {:induction false} DigitsValueLast(s: string)
    requires s != []
    ensures DigitsValue(s) == 10 * DigitsValue(s[..|s| - 1]) + DigitValue(s[|s| - 1])
  {
  }

  lemma {:induction false} ShiftDistributes(x: int, p: int, y: int, d: int)
    ensures 10 * (x * p + y) + d == x * (10 * p) + (10 * y + d)
  {
  }

  lemma {:induction false} DigitsValueAppend(a: string, b: string)
    ensures DigitsValue(a + b) == DigitsValue(a) * Pow10(|b|) + DigitsValue(b)
    decreases |b|
  {
    if b == [] {
      assert a + b == a;
    } else {
      var b' := b[..|b| - 1];
      var d := DigitValue(b[|b| - 1]);
      assert (a + b)[..|a + b| - 1] == a + b';
      assert (a + b)[|a + b| - 1] == b[|b| - 1];
      DigitsValueAppend(a, b');
      DigitsValueLast(a + b);
      DigitsValueLast(b);
      ShiftDistributes(DigitsValue(a), Pow10(|b'|), DigitsValue(b'), d);
    }
  }

  lemma {:induction false} ZerosValue(k: nat)
    ensures DigitsValue(Zeros(k)) == 0
  {
    if k > 0 {
      ZerosSnoc(k - 1);
      assert Zeros(k)[..k - 1] == Zeros(k - 1);
      ZerosValue(k - 1);
    }
  }

  /** Leading zeros do not change the value of a numeral. */
  lemma {:induction false} LeadingZerosValue(k: nat, s: string)
    ensures DigitsValue(Zeros(k) + s) == DigitsValue(s)
  {
    DigitsValueAppend(Zeros(k), s);
    ZerosValue(k);
  }

  /** The decimal numeral of `n`, without leading zeros. */
  function NatToString(n: nat): (r: string)
    ensures |r| > 0 && DigitsValue(r) == n
    decreases n
  {
    if n < 10 then [DigitChar(n)]
    else
      var q := NatToString(n / 10);
      var r := q + [DigitChar(n % 10)];
      assert r[..|r| - 1] == q;
      r
  }

  lemma {:induction false} NatToStringDigits(n: nat)
    ensures AllDigits(NatToString(n))
    decreases n
  {
    if n >= 10 {
      NatToStringDigits(n / 10);
    }
  }

  lemma {:induction false} NatToStringLength(n: nat, k: nat)
    requires Pow10(k) <= n < Pow10(k + 1)
    ensures |NatToString(n)| == k + 1
  {
    if k > 0 {
      assert Pow10(k) == 10 * Pow10(k - 1);
      NatToStringLength(n / 10, k - 1);
    }
  }

  /**
   * `ostream << n` for an integer: a '-' exactly when `n` is negative, then
   * the decimal digits; a single line of text.
   */
  function FormatInt(n: int): (r: string)
    ensures '\n' !in r
  {
    NatToStringDigits(if n < 0 then -n else n);
    if n < 0 then "-" + NatToString(-n) else NatToString(n)
  }

  /** isspace in the "C" locale: space, \t, \n, \v, \f, \r. */
  predicate IsSpace(c: char)
  {
    c == ' ' || c == '\t' || c == '\n' || c == '\r' || c == 11 as char || c == 12 as char
  }

  // The readers below scan their input by position, as strtol and strtod do.

  /** The position of the first character at or after `i` that is not white space. */
  function SpacesEnd(s: string, i: nat): (j: nat)
    requires i <= |s|
    ensures i <= j <= |s|
    decreases |s| - i
  {
    if i < |s| && IsSpace(s[i]) then SpacesEnd(s, i + 1) else i
  }

  /** The position after an optional '+' or '-' at `i`. */
  function SignEnd(s: string, i: nat): (j: nat)
    requires i <= |s|
    ensures i <= j <= |s|
  {
    if i < |s| && (s[i] == '-' || s[i] == '+') then i + 1 else i
  }

  predicate MinusAt(s: string, i: nat) { i < |s| && s[i] == '-' }

  /** The position after the longest run of decimal digits starting at `i`. */
  function DigitsEnd(s: string, i: nat): (j: nat)
    requires i <= |s|
    ensures i <= j <= |s|
    decreases |s| - i
  {
    if i < |s| && IsDigit(s[i]) then DigitsEnd(s, i + 1) else i
  }

  /** The number the digits of `s` in positions [a, b) denote. */
  function DigitsValueIn(s: string, a: nat, b: nat): nat
    requires a <= b <= |s|
    decreases b - a
  {
    if a == b then 0 else 10 * DigitsValueIn(s, a, b - 1) + DigitValue(s[b - 1])
  }

  /**
   * std::stoi(s): skip white space, read an optional sign and the longest run of
   * digits; None where stoi throws (no digits: invalid_argument; outside `int`:
   * out_of_range). Whatever follows the digits is ignored.
   */
  function ParseInt(s: string): Option<Int32>
  {
    var p := SpacesEnd(s, 0);
    var q := SignEnd(s, p);
    var r := DigitsEnd(s, q);
    if r == q then None
    else
      var v: int := if MinusAt(s, p) then -(DigitsValueIn(s, q, r) as int) else DigitsValueIn(s, q, r);
      if -0x8000_0000 <= v < 0x8000_0000 then Some(v) else None
  }

  /**
   * `x` times 10 raised to the power `k`, built from multiplications and divisions
   * by the constant 10 only (so that reasoning about it stays linear in `x`).
   */
  function Scale(x: real, k: int): real
    decreases if k < 0 then -k else k
  {
    if k == 0 then x
    else if k > 0 then 10.0 * Scale(x, k - 1)
    else Scale(x, k + 1) / 10.0
  }

  /**
   * Where strtod is in a numeral: before it (white space and the sign),
   * integer digits, fraction digits, just after 'e', exponent digits.
   */
  datatype Phase = Blank | Whole | Fraction | ExpStart | ExpDigits

  /**
   * What strtod has gathered from a numeral so far: its sign, the number of
   * significand digits and their value (integer and fraction digits together),
   * how many of them follow the '.', and the sign, number and value of the
   * exponent digits.
   */
  datatype Numeral = Numeral(negative: bool, digits: nat, mantissa: nat, fracLen: nat,
                             expNegative: bool, expDigits: nat, expValue: nat)

  const NoDigits := Numeral(false, 0, 0, 0, false, 0, 0)

  /** A character of the integer part, where a digit or the '.' may come. */
  function WholeStep(n: Numeral, c: char): Option<(Phase, Numeral)>
  {
    if IsDigit(c) then Some((Whole, n.(digits := n.digits + 1, mantissa := 10 * n.mantissa + DigitValue(c))))
    else if c == '.' then Some((Fraction, n))
    else if (c == 'e' || c == 'E') && n.digits > 0 then Some((ExpStart, n))
    else None
  }

  /** One character of a numeral: where strtod goes next, or None where the numeral ends. */
  function Step(phase: Phase, n: Numeral, c: char): Option<(Phase, Numeral)>
  {
    match phase
    case Blank =>
      if IsSpace(c) then Some((Blank, n))
      else if c == '-' || c == '+' then Some((Whole, n.(negative := c == '-')))
      else WholeStep(n, c)
    case Whole => WholeStep(n, c)
    case Fraction =>
      if IsDigit(c) then
        Some((Fraction, n.(digits := n.digits + 1, mantissa := 10 * n.mantissa + DigitValue(c), fracLen := n.fracLen + 1)))
      else if (c == 'e' || c == 'E') && n.digits > 0 then Some((ExpStart, n))
      else None
    case ExpStart =>
      if c == '-' || c == '+' then Some((ExpDigits, n.(expNegative := c == '-')))
      else if IsDigit(c) then Some((ExpDigits, n.(expDigits := 1, expValue := DigitValue(c))))
      else None
    case ExpDigits =>
      if IsDigit(c) then Some((ExpDigits, n.(expDigits := n.expDigits + 1, expValue := 10 * n.expValue + DigitValue(c))))
      else None
  }

  /** The numeral strtod reads from position `i` of `s` on, in phase `phase`, having gathered `n`. */
  function ReadNumeral(s: string, i: nat, phase: Phase, n: Numeral): Numeral
    requires i <= |s|
    decreases |s| - i
  {
    if i == |s| then n
    else
      match Step(phase, n, s[i])
      case None => n
      case Some((next, n')) => ReadNumeral(s, i + 1, next, n')
  }

  /** The exponent a numeral carries; 0 when an 'e' was not followed by digits (strtod leaves it unread). */
  function Exponent(n: Numeral): int
  {
    if n.expDigits == 0 then 0
    else if n.expNegative then -(n.expValue as int)
    else n.expValue
  }

  /** The value of a numeral read in full; None when it has no significand digit. */
  function NumeralValue(n: Numeral): Option<real>
  {
    if n.digits == 0 then None
    else
      var v := Scale(n.mantissa as real, Exponent(n) - n.fracLen);
      Some(if n.negative then -v else v)
  }

  /**
   * std::stod(s) on a decimal numeral: skip white space, read an optional sign,
   * digits with an optional '.' and fraction digits (at least one digit in all),
   * and an optional exponent part; None where stod throws invalid_argument.
   * The value is the exact value of the numeral read.
   */
  function ParseReal(s: string): Option<real>
  {
    NumeralValue(ReadNumeral(s, 0, Blank, NoDigits))
  }

  /** stoi accepts only a text holding a digit, and reads a negative number only after a '-'. */
  lemma {:induction false} ParseIntNeedsDigit(s: string)
    ensures ParseInt(s).Some? ==> exists i :: 0 <= i < |s| && IsDigit(s[i])
    ensures ParseInt(s).Some? && ParseInt(s).value < 0 ==> '-' in s
  {
    var p := SpacesEnd(s, 0);
    var q := SignEnd(s, p);
    if DigitsEnd(s, q) != q {
      assert IsDigit(s[q]);
    }
  }

  /** stod accepts only a text holding a digit: it throws on everything else. */
  lemma {:induction false} ParseRealNeedsDigit(s: string)
    ensures ParseReal(s).Some? ==> exists i :: 0 <= i < |s| && IsDigit(s[i])
  {
    ReadDigitSeen(s, 0, Blank, NoDigits);
  }

  /** strtod counts a significand digit only where it reads a decimal digit. */
  lemma {:induction false} ReadDigitSeen(s: string, i: nat, phase: Phase, n: Numeral)
    requires i <= |s|
    ensures ReadNumeral(s, i, phase, n).digits > n.digits ==> exists j :: i <= j < |s| && IsDigit(s[j])
    decreases |s| - i
  {
    if i < |s| && !IsDigit(s[i]) {
      var st := Step(phase, n, s[i]);
      if st.Some? {
        ReadDigitSeen(s, i + 1, st.value.0, st.value.1);
      }
    }
  }

  lemma {:induction false} ScaleZero(k: int)
    ensures Scale(0.0, k) == 0.0
    decreases if k < 0 then -k else k
  {
    if k > 0 {
      ScaleZero(k - 1);
    } else if k < 0 {
      ScaleZero(k + 1);
    }
  }

  lemma {:induction false} ScaleSucc(x: real, k: int)
    ensures Scale(x, k + 1) == 10.0 * Scale(x, k)
  {
  }

  lemma {:induction false} ScaleAdd(x: real, a: int, b: int)
    ensures Scale(Scale(x, a), b) == Scale(x, a + b)
    decreases if b < 0 then -b else b
  {
    if b > 0 {
      ScaleAdd(x, a, b - 1);
      ScaleSucc(x, a + b - 1);
    } else if b < 0 {
      ScaleAdd(x, a, b + 1);
      ScaleSucc(Scale(x, a), b);
      ScaleSucc(x, a + b);
    }
  }

  lemma {:induction false} ScaleAddition(x: real, y: real, k: int)
    ensures Scale(x + y, k) == Scale(x, k) + Scale(y, k)
    decreases if k < 0 then -k else k
  {
    if k > 0 {
      ScaleAddition(x, y, k - 1);
    } else if k < 0 {
      ScaleAddition(x, y, k + 1);
    }
  }

  lemma {:induction false} ScaleNegate(x: real, k: int)
    ensures Scale(-x, k) == -Scale(x, k)
    decreases if k < 0 then -k else k
  {
    if k > 0 {
      ScaleNegate(x, k - 1);
    } else if k < 0 {
      ScaleNegate(x, k + 1);
    }
  }

  lemma {:induction false} ScaleMonotone(x: real, y: real, k: int)
    requires x <= y
    ensures Scale(x, k) <= Scale(y, k)
    ensures x < y ==> Scale(x, k) < Scale(y, k)
    decreases if k < 0 then -k else k
  {
    if k > 0 {
      ScaleMonotone(x, y, k - 1);
    } else if k < 0 {
      ScaleMonotone(x, y, k + 1);
    }
  }

  lemma {:induction false} ScaleNat(n: nat, k: nat)
    ensures Scale(n as real, k) == (n * Pow10(k)) as real
  {
    if k > 0 {
      ScaleNat(n, k - 1);
      assert n * Pow10(k) == 10 * (n * Pow10(k - 1));
    }
  }

  /** The exponent of the leading digit of `x >= 1`. */
  function ExponentAtLeastOne(x: real): (e: nat)
    requires x >= 1.0
    ensures Scale(1.0, e) <= x < Scale(1.0, e + 1)
    decreases x.Floor
  {
    if x < 10.0 then
      0
    else
      assert (x / 10.0).Floor < x.Floor by {
        assert (x / 10.0).Floor as real <= x / 10.0 < x - 1.0 < x.Floor as real;
      }
      var e := ExponentAtLeastOne(x / 10.0);
      ScaleSucc(1.0, e + 1);
      e + 1
  }

  /** The exponent of the leading digit of `0 < x < 1`. */
  function ExponentBelowOne(x: real): (e: int)
    requires 0.0 < x < 1.0
    ensures e < 0 && Scale(1.0, e) <= x < Scale(1.0, e + 1)
    decreases (1.0 / x).Floor
  {
    if x * 10.0 >= 1.0 then
      -1
    else
      var y := 1.0 / x;
      assert 1.0 / (x * 10.0) == y / 10.0;
      assert y > 10.0 by {
        assert x * y == 1.0;
        assert x * 10.0 < 1.0;
      }
      assert (y / 10.0).Floor < y.Floor by {
        assert (y / 10.0).Floor as real <= y / 10.0 < y - 1.0 < y.Floor as real;
      }
      var e := ExponentBelowOne(x * 10.0);
      ScaleSucc(1.0, e - 1);
      e - 1
  }

  /** floor(log10(x)): the exponent of the leading decimal digit of `x > 0`. */
  function Log10Floor(x: real): (e: int)
    requires x > 0.0
    ensures Scale(1.0, e) <= x < Scale(1.0, e + 1)
  {
    if x >= 1.0 then ExponentAtLeastOne(x) else ExponentBelowOne(x)
  }

  /** Rounding to the nearest integer, ties to even (printf's rounding of an exact value). */
  function RoundHalfEven(y: real): (n: int)
    ensures y - 0.5 <= n as real <= y + 0.5
    ensures (n as real == y - 0.5 || n as real == y + 0.5) ==> n % 2 == 0
  {
    var f := y.Floor;
    var d := y - f as real;
    if d < 0.5 then f
    else if d > 0.5 then f + 1
    else if f % 2 == 0 then f
    else f + 1
  }

  /** A value with six significant decimal digits: `digits` times 10^(exp - 5). */
  datatype Decimal6 = Decimal6(digits: nat, exp: int)

  function Decimal6Value(s: Decimal6): real
  {
    Scale(s.digits as real, s.exp - 5)
  }

  /** Scaling the leading-digit window of `x` brings it into [100000, 1000000). */
  lemma {:induction false} ScaleIntoSixDigits(x: real, e: int)
    requires Scale(1.0, e) <= x < Scale(1.0, e + 1)
    ensures 100000.0 <= Scale(x, 5 - e) < 1000000.0
  {
    ScaleMonotone(Scale(1.0, e), x, 5 - e);
    ScaleMonotone(x, Scale(1.0, e + 1), 5 - e);
    ScaleAdd(1.0, e, 5 - e);
    ScaleAdd(1.0, e + 1, 5 - e);
    ScaleNat(1, 5);
    ScaleNat(1, 6);
  }

  /**
   * `x > 0` rounded to six significant digits, as %g does: the six-digit
   * significand and the decimal exponent of its leading digit (a carry out of
   * the sixth digit, as in 999999.5, moves to the next exponent).
   */
  function Significand6(x: real): (s: Decimal6)
    requires x > 0.0
    ensures 100000 <= s.digits < 1000000
    ensures |NatToString(s.digits)| == 6
  {
    var e := Log10Floor(x);
    ScaleIntoSixDigits(x, e);
    var n := RoundHalfEven(Scale(x, 5 - e));
    assert Pow10(5) == 100000 && Pow10(6) == 1000000;
    if n >= 1000000 then
      NatToStringLength(100000, 5);
      Decimal6(100000, e + 1)
    else
      NatToStringLength(n, 5);
      Decimal6(n, e)
  }

  /** The absolute value of a real. */
  function Magnitude(x: real): real
  {
    if x < 0.0 then -x else x
  }

  /** The value `ostream << x` denotes: `x` rounded to six significant digits. */
  function RoundSig6(x: real): real
  {
    if x == 0.0 then 0.0
    else
      var v := Decimal6Value(Significand6(Magnitude(x)));
      if x < 0.0 then -v else v
  }

  /** `s` without its trailing '0' characters. */
  function StripTrailingZeros(s: string): (r: string)
    ensures |r| <= |s|
  {
    if s != [] && s[|s| - 1] == '0' then StripTrailingZeros(s[..|s| - 1]) else s
  }

  lemma {:induction false} AppendAssoc(a: string, b: string, c: string)
    ensures (a + b) + c == a + (b + c)
  {
  }

  /** StripTrailingZeros removes exactly the trailing zeros. */
  lemma {:induction false} StripTrailingZerosSplit(s: string)
    ensures s == StripTrailingZeros(s) + Zeros(|s| - |StripTrailingZeros(s)|)
    ensures StripTrailingZeros(s) != [] ==> StripTrailingZeros(s)[|StripTrailingZeros(s)| - 1] != '0'
  {
    var r := StripTrailingZeros(s);
    if s != [] && s[|s| - 1] == '0' {
      var t := s[..|s| - 1];
      assert r == StripTrailingZeros(t);
      StripTrailingZerosSplit(t);
      var z := |t| - |r|;
      ZerosSnoc(z);
      assert s == t + "0";
      AppendAssoc(r, Zeros(z), "0");
    } else {
      assert s + [] == s;
    }
  }

  /** "." followed by the fraction digits, or nothing when there are none. */
  function FractionSuffix(f: string): string
  {
    if f == [] then [] else "." + f
  }

  function Abs(e: int): nat { if e < 0 then -e else e }

  /** The exponent of scientific notation: 'e', a sign and at least two digits. */
  function ExponentSuffix(e: int): string
  {
    "e" + (if e < 0 then "-" else "+") + (if Abs(e) < 10 then "0" else "") + NatToString(Abs(e))
  }

  /** %g with precision 6 for `x > 0`. */
  function FormatPositive(x: real): string
    requires x > 0.0
  {
    var s := Significand6(x);
    FormatSignificand(NatToString(s.digits), s.exp)
  }

  /**
   * The six significant digits `d` with decimal exponent `e`, in fixed notation
   * for exponents -4 through 5 and in scientific notation otherwise.
   */
  function FormatSignificand(d: string, e: int): string
    requires |d| == 6
  {
    if 0 <= e < 6 then d[..e + 1] + FractionSuffix(StripTrailingZeros(d[e + 1..]))
    else if -4 <= e < 0 then "0." + Zeros(-e - 1) + StripTrailingZeros(d)
    else d[..1] + FractionSuffix(StripTrailingZeros(d[1..])) + ExponentSuffix(e)
  }

  /**
   * `ostream << x` for a double under the default stream settings: printf's %g
   * with precision 6 (fixed notation for decimal exponents -4 through 5,
   * scientific notation otherwise, trailing zeros removed).
   */
  function FormatReal(x: real): (r: string)
    ensures '\n' !in r
  {
    if x == 0.0 then "0"
    else
      PositiveOneLine(Magnitude(x));
      if x < 0.0 then "-" + FormatPositive(Magnitude(x))
      else FormatPositive(Magnitude(x))
  }

  /** std::round: to the nearest integer, ties away from zero. */
  function Round(x: real): (n: int)
    ensures x - 0.5 <= n as real <= x + 0.5
    ensures n as real == x + 0.5 ==> x > 0.0
    ensures n as real == x - 0.5 ==> x < 0.0
  {
    if x >= 0.0 then (x + 0.5).Floor else -((0.5 - x).Floor)
  }

  /** static_cast<int> of a double: truncation toward zero. */
  function TruncToInt(x: real): (n: int)
    ensures x >= 0.0 ==> 0 <= n && n as real <= x < n as real + 1.0
    ensures x < 0.0 ==> n <= 0 && n as real - 1.0 < x <= n as real
  {
    if x >= 0.0 then x.Floor else -((-x).Floor)
  }

  // ---------------------------------------------------------------------------
  // What the readers see in a text they are given

  /** In `v + w`, a run of digits `v` that `w` does not continue ends at |v|. */
  lemma {:induction false} DigitsEndRun(v: string, w: string, i: nat)
    requires i <= |v| && AllDigits(v) && (w == [] || !IsDigit(w[0]))
    ensures DigitsEnd(v + w, i) == |v|
    decreases |v| - i
  {
    if i < |v| {
      assert (v + w)[i] == v[i];
      DigitsEndRun(v, w, i + 1);
    } else if w != [] {
      assert (v + w)[i] == w[0];
    }
  }

  /** In `v + w`, the positions of `v` denote the value of `v`. */
  lemma {:induction false} DigitsValueHead(v: string, w: string)
    ensures DigitsValueIn(v + w, 0, |v|) == DigitsValue(v)
    decreases |v|
  {
    if v != [] {
      var v' := v[..|v| - 1];
      assert v + w == v' + ([v[|v| - 1]] + w);
      DigitsValueHead(v', [v[|v| - 1]] + w);
    }
  }

  /** Behind a prefix `u`, the run of digits is that of `v`, shifted by |u|. */
  lemma {:induction false} DigitsEndShift(u: string, v: string, i: nat)
    requires |u| <= i <= |u| + |v|
    ensures DigitsEnd(u + v, i) == |u| + DigitsEnd(v, i - |u|)
    decreases |u| + |v| - i
  {
    if i < |u| + |v| {
      assert (u + v)[i] == v[i - |u|];
      DigitsEndShift(u, v, i + 1);
    }
  }

  lemma {:induction false} DigitsValueInShift(u: string, v: string, a: nat, b: nat)
    requires |u| <= a <= b <= |u| + |v|
    ensures DigitsValueIn(u + v, a, b) == DigitsValueIn(v, a - |u|, b - |u|)
    decreases b - a
  {
    if a < b {
      assert (u + v)[b - 1] == v[b - 1 - |u|];
      DigitsValueInShift(u, v, a, b - 1);
    }
  }

  /** In `u + v + w`, a run of digits `v` that `w` does not continue ends at |u| + |v|. */
  lemma {:induction false} DigitsEndOver(u: string, v: string, w: string)
    requires AllDigits(v) && (w == [] || !IsDigit(w[0]))
    ensures DigitsEnd(u + v + w, |u|) == |u| + |v|
  {
    assert u + v + w == u + (v + w);
    DigitsEndShift(u, v + w, |u|);
    DigitsEndRun(v, w, 0);
  }

  /** In `u + v + w`, positions [|u|, |u| + |v|) denote the value of `v`. */
  lemma {:induction false} DigitsValueOver(u: string, v: string, w: string)
    ensures DigitsValueIn(u + v + w, |u|, |u| + |v|) == DigitsValue(v)
  {
    assert u + v + w == u + (v + w);
    DigitsValueInShift(u, v + w, |u|, |u| + |v|);
    DigitsValueHead(v, w);
  }

  /** stoi reads a run of digits as its value, when that fits in an `int`. */
  lemma {:induction false} ParseIntDigits(ds: string)
    requires ds != [] && AllDigits(ds) && DigitsValue(ds) < 0x8000_0000
    ensures ParseInt(ds) == Some(DigitsValue(ds))
  {
    assert IsDigit(ds[0]);
    assert ds + [] == ds;
    DigitsEndRun(ds, [], 0);
    DigitsValueHead(ds, []);
  }

  /** stoi reads '-' and a run of digits as the negated value, when that fits in an `int`. */
  lemma {:induction false} ParseIntNegatedDigits(ds: string)
    requires ds != [] && AllDigits(ds) && DigitsValue(ds) <= 0x8000_0000
    ensures ParseInt("-" + ds) == Some(-(DigitsValue(ds) as int))
  {
    assert "-" + ds == "-" + ds + [];
    DigitsEndOver("-", ds, []);
    DigitsValueOver("-", ds, []);
  }

  /** What `ostream << n` writes for an `int`, stoi reads back as `n`. */
  lemma {:induction false} ParseIntFormatInt(n: Int32)
    ensures ParseInt(FormatInt(n)) == Some(n)
  {
    NatToStringDigits(Abs(n));
    if n < 0 {
      ParseIntNegatedDigits(NatToString(-(n as int)));
    } else {
      ParseIntDigits(NatToString(n));
    }
  }

  /** Behind a prefix `u`, strtod reads on as it would in the rest. */
  lemma {:induction false} ReadShift(u: string, v: string, i: nat, phase: Phase, n: Numeral)
    requires i <= |v|
    ensures ReadNumeral(u + v, |u| + i, phase, n) == ReadNumeral(v, i, phase, n)
    decreases |v| - i
  {
    if i < |v| {
      assert (u + v)[|u| + i] == v[i];
      var st := Step(phase, n, v[i]);
      if st.Some? {
        ReadShift(u, v, i + 1, st.value.0, st.value.1);
      }
    }
  }

  /** `m` followed by `k` zero digits. */
  function Shift10(m: nat, k: nat): (r: nat)
    ensures k == 0 ==> r == m
  {
    if k == 0 then m else 10 * Shift10(m, k - 1)
  }

  lemma {:induction false} Shift10Zero(k: nat)
    ensures Shift10(0, k) == 0
  {
    if k > 0 {
      Shift10Zero(k - 1);
    }
  }

  /** One significand digit. */
  lemma {:induction false} ReadDigitStep(s: string, i: nat, phase: Phase, n: Numeral)
    requires i < |s| && IsDigit(s[i]) && (phase == Whole || phase == Fraction)
    ensures ReadNumeral(s, i, phase, n)
         == ReadNumeral(s, i + 1, phase, n.(digits := n.digits + 1,
                                            mantissa := 10 * n.mantissa + DigitValue(s[i]),
                                            fracLen := if phase == Fraction then n.fracLen + 1 else n.fracLen))
  {
  }

  /** The numeral `n` with `k` more significand digits of value `v`, read in `phase`. */
  function MoreDigits(n: Numeral, phase: Phase, k: nat, v: nat): Numeral
  {
    n.(digits := n.digits + k, mantissa := Shift10(n.mantissa, k) + v,
       fracLen := if phase == Fraction then n.fracLen + k else n.fracLen)
  }

  /** Significand digits in positions [i, j) append their value to the mantissa. */
  lemma {:induction false} ReadDigitRun(s: string, i: nat, j: nat, phase: Phase, n: Numeral)
    requires i <= j <= |s| && (phase == Whole || phase == Fraction)
    requires forall k :: i <= k < j ==> IsDigit(s[k])
    ensures ReadNumeral(s, i, phase, n) == ReadNumeral(s, j, phase, MoreDigits(n, phase, j - i, DigitsValueIn(s, i, j)))
    decreases j - i
  {
    if i < j {
      ReadDigitRun(s, i, j - 1, phase, n);
      var before := MoreDigits(n, phase, j - 1 - i, DigitsValueIn(s, i, j - 1));
      ReadDigitStep(s, j - 1, phase, before);
      assert Shift10(n.mantissa, j - i) == 10 * Shift10(n.mantissa, j - 1 - i);
      assert DigitsValueIn(s, i, j) == 10 * DigitsValueIn(s, i, j - 1) + DigitValue(s[j - 1]);
      assert before.(digits := before.digits + 1,
                     mantissa := 10 * before.mantissa + DigitValue(s[j - 1]),
                     fracLen := if phase == Fraction then before.fracLen + 1 else before.fracLen)
          == MoreDigits(n, phase, j - i, DigitsValueIn(s, i, j));
    } else {
      assert MoreDigits(n, phase, 0, DigitsValueIn(s, i, j)) == n;
    }
  }

  /** One exponent digit. */
  lemma {:induction false} ReadExponentStep(s: string, i: nat, n: Numeral)
    requires i < |s| && IsDigit(s[i])
    ensures ReadNumeral(s, i, ExpDigits, n)
         == ReadNumeral(s, i + 1, ExpDigits, n.(expDigits := n.expDigits + 1,
                                                expValue := 10 * n.expValue + DigitValue(s[i])))
  {
  }

  /** Exponent digits in positions [i, j) append their value to the exponent. */
  lemma {:induction false} ReadExponentRun(s: string, i: nat, j: nat, n: Numeral)
    requires i <= j <= |s|
    requires forall k :: i <= k < j ==> IsDigit(s[k])
    ensures ReadNumeral(s, i, ExpDigits, n)
         == ReadNumeral(s, j, ExpDigits, n.(expDigits := n.expDigits + (j - i),
                                            expValue := Shift10(n.expValue, j - i) + DigitsValueIn(s, i, j)))
    decreases j - i
  {
    if i < j {
      ReadExponentRun(s, i, j - 1, n);
      var m := Shift10(n.expValue, j - 1 - i) + DigitsValueIn(s, i, j - 1);
      ReadExponentStep(s, j - 1, n.(expDigits := n.expDigits + (j - 1 - i), expValue := m));
    }
  }

  lemma {:induction false} Shift10Pow10(m: nat, k: nat)
    ensures Shift10(m, k) == m * Pow10(k)
  {
    if k > 0 {
      Shift10Pow10(m, k - 1);
      assert m * Pow10(k) == 10 * (m * Pow10(k - 1));
    }
  }

  /** A numeral that starts with a digit is read from its first character on. */
  lemma {:induction false} BlankDigit(t: string, n: Numeral)
    requires t != [] && IsDigit(t[0])
    ensures ReadNumeral(t, 0, Blank, n) == ReadNumeral(t, 0, Whole, n)
  {
    assert Step(Blank, n, t[0]) == Step(Whole, n, t[0]);
  }

  /** Past the sign, strtod leaves the sign it read alone. */
  lemma {:induction false} ReadKeepsSign(s: string, i: nat, phase: Phase, n: Numeral, b: bool)
    requires i <= |s| && phase != Blank
    ensures ReadNumeral(s, i, phase, n.(negative := b)) == ReadNumeral(s, i, phase, n).(negative := b)
    decreases |s| - i
  {
    if i < |s| {
      var st := Step(phase, n, s[i]);
      if st.Some? {
        assert Step(phase, n.(negative := b), s[i]) == Some((st.value.0, st.value.1.(negative := b)));
        ReadKeepsSign(s, i + 1, st.value.0, st.value.1, b);
      }
    }
  }

  /** Integer digits in positions [0, j) start the significand. */
  lemma {:induction false} ReadIntegerPart(s: string, j: nat)
    requires 0 < j <= |s| && forall m :: 0 <= m < j ==> IsDigit(s[m])
    ensures ReadNumeral(s, 0, Blank, NoDigits)
         == ReadNumeral(s, j, Whole, NoDigits.(digits := j, mantissa := DigitsValueIn(s, 0, j)))
  {
    BlankDigit(s, NoDigits);
    ReadDigitRun(s, 0, j, Whole, NoDigits);
    Shift10Zero(j);
    assert MoreDigits(NoDigits, Whole, j, DigitsValueIn(s, 0, j))
        == NoDigits.(digits := j, mantissa := DigitsValueIn(s, 0, j));
  }

  /** A '.' at position j and fraction digits in (j, k) continue the significand. */
  lemma {:induction false} ReadFractionPart(s: string, j: nat, k: nat, n: Numeral)
    requires j < k <= |s| && s[j] == '.' && forall m :: j < m < k ==> IsDigit(s[m])
    ensures ReadNumeral(s, j, Whole, n)
         == ReadNumeral(s, k, Fraction, MoreDigits(n, Fraction, k - j - 1, DigitsValueIn(s, j + 1, k)))
  {
    assert ReadNumeral(s, j, Whole, n) == ReadNumeral(s, j + 1, Fraction, n);
    ReadDigitRun(s, j + 1, k, Fraction, n);
  }

  /** 'e', a sign and exponent digits from position k to the end complete the numeral. */
  lemma {:induction false} ReadExponentPart(s: string, k: nat, phase: Phase, n: Numeral)
    requires (phase == Whole || phase == Fraction) && n.digits > 0 && n.expDigits == 0 && n.expValue == 0
    requires k + 2 < |s| && s[k] == 'e' && (s[k + 1] == '-' || s[k + 1] == '+')
    requires forall m :: k + 2 <= m < |s| ==> IsDigit(s[m])
    ensures ReadNumeral(s, k, phase, n)
         == n.(expNegative := s[k + 1] == '-', expDigits := |s| - k - 2, expValue := DigitsValueIn(s, k + 2, |s|))
  {
    var n1 := n.(expNegative := s[k + 1] == '-');
    assert ReadNumeral(s, k, phase, n) == ReadNumeral(s, k + 1, ExpStart, n);
    assert ReadNumeral(s, k + 1, ExpStart, n) == ReadNumeral(s, k + 2, ExpDigits, n1);
    ReadExponentRun(s, k + 2, |s|, n1);
    Shift10Zero(|s| - k - 2);
  }

  /** `x` is 'e', the sign of `e`, and digits denoting the magnitude of `e`. */
  predicate ExponentShape(x: string, e: int)
  {
    |x| > 2 && x[0] == 'e' && x[1] == (if e < 0 then '-' else '+')
    && (forall m :: 2 <= m < |x| ==> IsDigit(x[m]))
    && DigitsValueIn(x, 2, |x|) == Abs(e)
  }

  /** The exponent suffix of `e` has the shape strtod reads as `e`. */
  lemma {:induction false} ExponentText(e: int)
    ensures ExponentShape(ExponentSuffix(e), e)
  {
    var pad := if Abs(e) < 10 then "0" else "";
    var ds := pad + NatToString(Abs(e));
    var sign := if e < 0 then "-" else "+";
    var x := ExponentSuffix(e);
    assert x == ("e" + sign) + ds + [];
    assert AllDigits(ds) && DigitsValue(ds) == Abs(e) by {
      assert pad == Zeros(|pad|);
      ZerosDigits(|pad|);
      NatToStringDigits(Abs(e));
      AllDigitsAppend(pad, NatToString(Abs(e)));
      LeadingZerosValue(|pad|, NatToString(Abs(e)));
    }
    assert forall m :: 2 <= m < |x| ==> x[m] == ds[m - 2];
    DigitsValueOver("e" + sign, ds, []);
  }

  /** The characters of `head + x` past `head`, for an exponent of that shape. */
  lemma {:induction false} ExponentAt(t: string, head: string, x: string, e: int)
    requires t == head + x && ExponentShape(x, e)
    ensures |head| + 2 < |t| && t[|head|] == 'e' && t[|head| + 1] == (if e < 0 then '-' else '+')
    ensures forall m :: |head| + 2 <= m < |t| ==> IsDigit(t[m])
    ensures DigitsValueIn(t, |head| + 2, |t|) == Abs(e)
  {
    assert forall m :: |head| <= m < |t| ==> t[m] == x[m - |head|];
    DigitsValueInShift(head, x, |head| + 2, |t|);
  }

  /** In `u + v + w`, the positions of `v` hold digits when `v` does. */
  lemma {:induction false} DigitsAt(u: string, v: string, w: string)
    requires AllDigits(v)
    ensures forall m :: |u| <= m < |u| + |v| ==> IsDigit((u + v + w)[m])
  {
    assert forall m :: |u| <= m < |u| + |v| ==> (u + v + w)[m] == v[m - |u|];
  }

  /** The significand `ip` "." `f` denotes the digits of `ip + f`. */
  lemma {:induction false} SignificandValue(ip: string, f: string)
    ensures Shift10(DigitsValue(ip), |f|) + DigitsValue(f) == DigitsValue(ip + f)
  {
    Shift10Pow10(DigitsValue(ip), |f|);
    DigitsValueAppend(ip, f);
  }

  /** strtod reads the integer significand `ip` and stops where `after` begins. */
  lemma {:induction false} ReadInteger(t: string, ip: string, after: string)
    requires t == ip + after && ip != [] && AllDigits(ip)
    ensures ReadNumeral(t, 0, Blank, NoDigits)
         == ReadNumeral(t, |ip|, Whole, NoDigits.(digits := |ip|, mantissa := DigitsValue(ip)))
  {
    DigitsAt([], ip, after);
    assert [] + ip + after == t;
    DigitsValueHead(ip, after);
    ReadIntegerPart(t, |ip|);
  }

  /** strtod reads the significand `ip` "." `f` and stops where `after` begins. */
  lemma {:induction false} ReadDecimal(t: string, ip: string, f: string, after: string)
    requires t == ip + "." + f + after && ip != [] && AllDigits(ip) && AllDigits(f)
    ensures ReadNumeral(t, 0, Blank, NoDigits)
         == ReadNumeral(t, |ip| + 1 + |f|, Fraction,
                        NoDigits.(digits := |ip| + |f|, mantissa := DigitsValue(ip + f), fracLen := |f|))
  {
    ReadInteger(t, ip, "." + f + after);
    assert t[|ip|] == '.';
    DigitsAt(ip + ".", f, after);
    DigitsValueOver(ip + ".", f, after);
    ReadFractionPart(t, |ip|, |ip| + 1 + |f|, NoDigits.(digits := |ip|, mantissa := DigitsValue(ip)));
    SignificandValue(ip, f);
  }

  /** strtod reads the significand `ip` "." `f`, stopping at position |ip + FractionSuffix(f)|. */
  lemma {:induction false} ReadSignificand(t: string, ip: string, f: string, after: string)
    requires t == ip + FractionSuffix(f) + after
    requires ip != [] && AllDigits(ip) && AllDigits(f)
    ensures |ip| + |FractionSuffix(f)| <= |t|
    ensures ReadNumeral(t, 0, Blank, NoDigits)
         == ReadNumeral(t, |ip| + |FractionSuffix(f)|, if f == [] then Whole else Fraction,
                        NoDigits.(digits := |ip| + |f|, mantissa := DigitsValue(ip + f), fracLen := |f|))
  {
    if f == [] {
      assert ip + f == ip;
      ReadInteger(t, ip, after);
    } else {
      assert t == ip + "." + f + after;
      ReadDecimal(t, ip, f, after);
    }
  }

  /** stod reads integer digits `ip` and the fraction digits `f` after a '.'. */
  lemma {:induction false} ParsePlain(t: string, ip: string, f: string)
    requires t == ip + FractionSuffix(f)
    requires ip != [] && AllDigits(ip) && AllDigits(f)
    ensures ParseReal(t) == Some(Scale(DigitsValue(ip + f) as real, -|f|))
  {
    assert t == ip + FractionSuffix(f) + [];
    ReadSignificand(t, ip, f, []);
  }

  /** The value of a numeral with digits and no '-' sign. */
  lemma {:induction false} PositiveNumeralValue(n: Numeral, m: nat, k: int)
    requires n.digits > 0 && !n.negative && n.mantissa == m && Exponent(n) - n.fracLen == k
    ensures NumeralValue(n) == Some(Scale(m as real, k))
  {
  }

  /** strtod reads integer digits `ip`, the fraction digits `f` after a '.', and the exponent `e` to the end. */
  lemma {:induction false} ReadWithExponent(t: string, ip: string, f: string, x: string, e: int)
    requires t == ip + FractionSuffix(f) + x && ExponentShape(x, e)
    requires ip != [] && AllDigits(ip) && AllDigits(f)
    ensures ReadNumeral(t, 0, Blank, NoDigits)
         == NoDigits.(digits := |ip| + |f|, mantissa := DigitsValue(ip + f), fracLen := |f|,
                      expNegative := e < 0, expDigits := |x| - 2, expValue := Abs(e))
  {
    var head := ip + FractionSuffix(f);
    ReadSignificand(t, ip, f, x);
    ExponentAt(t, head, x, e);
    ReadExponentPart(t, |head|, if f == [] then Whole else Fraction,
                     NoDigits.(digits := |ip| + |f|, mantissa := DigitsValue(ip + f), fracLen := |f|));
  }

  /** stod reads integer digits `ip`, the fraction digits `f` after a '.', and the exponent `e`. */
  lemma {:induction false} ParseWithExponent(t: string, ip: string, f: string, x: string, e: int)
    requires t == ip + FractionSuffix(f) + x && ExponentShape(x, e)
    requires ip != [] && AllDigits(ip) && AllDigits(f)
    ensures ParseReal(t) == Some(Scale(DigitsValue(ip + f) as real, e - |f|))
  {
    ReadWithExponent(t, ip, f, x, e);
    var n := ReadNumeral(t, 0, Blank, NoDigits);
    assert Exponent(n) - n.fracLen == e - |f|;
    PositiveNumeralValue(n, DigitsValue(ip + f), e - |f|);
  }

  /** A leading '-' marks as negative what strtod reads from a numeral that starts with a digit. */
  lemma {:induction false} ReadNegated(t: string)
    requires t != [] && IsDigit(t[0])
    ensures ReadNumeral("-" + t, 0, Blank, NoDigits) == ReadNumeral(t, 0, Blank, NoDigits).(negative := true)
    ensures !ReadNumeral(t, 0, Blank, NoDigits).negative && ReadNumeral(t, 0, Blank, NoDigits).digits > 0
  {
    var s := "-" + t;
    var minus := NoDigits.(negative := true);
    assert s[0] == '-';
    assert ReadNumeral(s, 0, Blank, NoDigits) == ReadNumeral(s, 1, Whole, minus);
    ReadShift("-", t, 0, Whole, minus);
    ReadKeepsSign(t, 0, Whole, NoDigits, true);
    ReadKeepsSign(t, 0, Whole, NoDigits, false);
    BlankDigit(t, NoDigits);
    assert Step(Whole, NoDigits, t[0]).Some?;
    ReadMonotone(t, 1, Whole, NoDigits.(digits := 1, mantissa := DigitValue(t[0])));
  }

  /** Marking a numeral with digits as negative negates its value. */
  lemma {:induction false} NegatedValue(n: Numeral)
    requires n.digits > 0 && !n.negative
    ensures NumeralValue(n).Some? && NumeralValue(n.(negative := true)) == Some(-NumeralValue(n).value)
  {
  }

  /** A leading '-' negates what stod reads from a numeral that starts with a digit. */
  lemma {:induction false} ParseNegated(t: string)
    requires t != [] && IsDigit(t[0])
    ensures ParseReal(t).Some? && ParseReal("-" + t) == Some(-ParseReal(t).value)
  {
    ReadNegated(t);
    NegatedValue(ReadNumeral(t, 0, Blank, NoDigits));
  }

  /** strtod never forgets a digit it has gathered. */
  lemma {:induction false} ReadMonotone(s: string, i: nat, phase: Phase, n: Numeral)
    requires i <= |s|
    ensures ReadNumeral(s, i, phase, n).digits >= n.digits
    decreases |s| - i
  {
    if i < |s| {
      var st := Step(phase, n, s[i]);
      if st.Some? {
        ReadMonotone(s, i + 1, st.value.0, st.value.1);
      }
    }
  }

  /** stod reads a run of digits as its value. */
  lemma {:induction false} ParseDigits(ds: string)
    requires ds != [] && AllDigits(ds)
    ensures ParseReal(ds) == Some(DigitsValue(ds) as real)
  {
    ParsePlain(ds, ds, []);
    assert ds + [] == ds;
  }

  /** What `ostream << n` writes for an integer, stod reads back as that integer. */
  lemma {:induction false} ParseRealFormatInt(n: int)
    ensures ParseReal(FormatInt(n)) == Some(n as real)
  {
    var ds := NatToString(Abs(n));
    NatToStringDigits(Abs(n));
    ParseDigits(ds);
    if n < 0 {
      ParseNegated(ds);
    }
  }

  /** Trailing zero digits shift the scale of a numeral. */
  lemma {:induction false} ScaledTrailingZeros(a: string, z: nat, k: int)
    ensures Scale(DigitsValue(a + Zeros(z)) as real, k) == Scale(DigitsValue(a) as real, z + k)
  {
    DigitsValueAppend(a, Zeros(z));
    ZerosValue(z);
    ScaleNat(DigitsValue(a), z);
    ScaleAdd(DigitsValue(a) as real, z, k);
  }

  lemma {:induction false} NonZeroHasNonZeroDigit(d: string)
    requires DigitsValue(d) > 0
    ensures StripTrailingZeros(d) != []
  {
    StripTrailingZerosSplit(d);
    if StripTrailingZeros(d) == [] {
      assert d == Zeros(|d|);
      ZerosValue(|d|);
    }
  }

  /** A prefix of a digit string is a digit string. */
  lemma {:induction false} PrefixDigits(d: string, k: nat)
    requires k <= |d| && AllDigits(d)
    ensures AllDigits(d[..k])
  {
    assert forall i :: 0 <= i < k ==> d[..k][i] == d[i];
  }

  /** `d` is its first `k` digits, the rest without trailing zeros, and those zeros. */
  lemma {:induction false} SplitTrailingZeros(d: string, k: nat) returns (f: string, z: nat)
    requires k <= |d| && AllDigits(d)
    ensures f == StripTrailingZeros(d[k..]) && AllDigits(f) && |f| + z == |d| - k
    ensures d == (d[..k] + f) + Zeros(z)
  {
    f := StripTrailingZeros(d[k..]);
    z := |d| - k - |f|;
    StripTrailingZerosSplit(d[k..]);
    assert AllDigits(f) by {
      assert forall i :: 0 <= i < |f| ==> f[i] == d[k..][i] == d[k + i];
    }
    assert d == d[..k] + d[k..];
  }

  lemma {:induction false} FixedLargeText(d: string, e: int) returns (ip: string, f: string, z: nat)
    requires |d| == 6 && AllDigits(d) && 0 <= e < 6
    ensures ip != [] && AllDigits(ip) && AllDigits(f) && d == (ip + f) + Zeros(z)
    ensures FormatSignificand(d, e) == ip + FractionSuffix(f)
    ensures -|f| == z + (e - 5)
  {
    ip := d[..e + 1];
    PrefixDigits(d, e + 1);
    f, z := SplitTrailingZeros(d, e + 1);
  }

  /** A digit string with a non-zero value is its digits up to the last non-zero one, then zeros. */
  lemma {:induction false} StrippedDigits(d: string) returns (g: string, z: nat)
    requires AllDigits(d) && DigitsValue(d) > 0
    ensures g == StripTrailingZeros(d) && g != [] && AllDigits(g) && d == g + Zeros(z)
  {
    g := StripTrailingZeros(d);
    z := |d| - |g|;
    StripTrailingZerosSplit(d);
    NonZeroHasNonZeroDigit(d);
    assert g == d[..|g|];
    PrefixDigits(d, |g|);
  }

  lemma {:induction false} FixedSmallText(d: string, e: int) returns (f: string, g: string, z: nat)
    requires |d| == 6 && AllDigits(d) && DigitsValue(d) > 0 && -4 <= e < 0
    ensures AllDigits(f) && d == g + Zeros(z)
    ensures DigitsValue("0" + f) == DigitsValue(g)
    ensures FormatSignificand(d, e) == "0" + FractionSuffix(f)
    ensures -|f| == z + (e - 5)
  {
    g, z := StrippedDigits(d);
    f := Zeros(-e - 1) + g;
    ZerosDigits(-e - 1);
    AllDigitsAppend(Zeros(-e - 1), g);
    assert "0" + f == Zeros(-e) + g;
    LeadingZerosValue(-e, g);
    assert "0." + Zeros(-e - 1) + g == "0" + ("." + f);
  }

  lemma {:induction false} ScientificText(d: string, e: int) returns (ip: string, f: string, z: nat)
    requires |d| == 6 && AllDigits(d) && !(-4 <= e < 6)
    ensures ip != [] && AllDigits(ip) && AllDigits(f) && d == (ip + f) + Zeros(z)
    ensures FormatSignificand(d, e) == ip + FractionSuffix(f) + ExponentSuffix(e)
    ensures |f| + z == 5
  {
    ip := d[..1];
    PrefixDigits(d, 1);
    f, z := SplitTrailingZeros(d, 1);
  }

  lemma {:induction false} ParseFixedLarge(t: string, d: string, e: int)
    requires |d| == 6 && AllDigits(d) && 0 <= e < 6 && t == FormatSignificand(d, e)
    ensures ParseReal(t) == Some(Scale(DigitsValue(d) as real, e - 5))
  {
    var ip, f, z := FixedLargeText(d, e);
    ParsePlain(t, ip, f);
    ScaledTrailingZeros(ip + f, z, e - 5);
  }

  lemma {:induction false} ParseFixedSmall(t: string, d: string, e: int)
    requires |d| == 6 && AllDigits(d) && DigitsValue(d) > 0 && -4 <= e < 0 && t == FormatSignificand(d, e)
    ensures ParseReal(t) == Some(Scale(DigitsValue(d) as real, e - 5))
  {
    var f, g, z := FixedSmallText(d, e);
    ParsePlain(t, "0", f);
    ScaledTrailingZeros(g, z, e - 5);
  }

  /** stod reads a significand `ip` "." `f` followed by the exponent suffix of `e`. */
  lemma {:induction false} ParseScientificParts(ip: string, f: string, z: nat, e: int)
    requires ip != [] && AllDigits(ip) && AllDigits(f) && |f| + z == 5
    ensures ParseReal(ip + FractionSuffix(f) + ExponentSuffix(e))
         == Some(Scale(DigitsValue((ip + f) + Zeros(z)) as real, e - 5))
  {
    ExponentText(e);
    ParseWithExponent(ip + FractionSuffix(f) + ExponentSuffix(e), ip, f, ExponentSuffix(e), e);
    ScaledTrailingZeros(ip + f, z, e - 5);
    assert z + (e - 5) == e - |f|;
  }

  lemma {:induction false} ParseScientific(t: string, d: string, e: int)
    requires |d| == 6 && AllDigits(d) && !(-4 <= e < 6) && t == FormatSignificand(d, e)
    ensures ParseReal(t) == Some(Scale(DigitsValue(d) as real, e - 5))
  {
    var ip, f, z := ScientificText(d, e);
    ParseScientificParts(ip, f, z, e);
  }

  /** stod reads back the value of the six digits that FormatSignificand writes. */
  lemma {:induction false} ParseFormatSignificand(t: string, d: string, e: int)
    requires |d| == 6 && AllDigits(d) && DigitsValue(d) > 0
    requires t == FormatSignificand(d, e)
    ensures t != [] && IsDigit(t[0])
    ensures ParseReal(t) == Some(Scale(DigitsValue(d) as real, e - 5))
  {
    if 0 <= e < 6 {
      ParseFixedLarge(t, d, e);
    } else if -4 <= e < 0 {
      ParseFixedSmall(t, d, e);
    } else {
      ParseScientific(t, d, e);
    }
  }

  lemma {:induction false} ParseFormatPositive(t: string, x: real)
    requires x > 0.0 && t == FormatPositive(x)
    ensures t != [] && IsDigit(t[0])
    ensures ParseReal(t) == Some(Decimal6Value(Significand6(x)))
  {
    var s := Significand6(x);
    NatToStringDigits(s.digits);
    ParseFormatSignificand(t, NatToString(s.digits), s.exp);
  }

  /** stod reads '-' and a numeral that starts with a digit as the negated value of that numeral. */
  lemma {:induction false} ParseSigned(t: string, p: string, v: real)
    requires t == "-" + p && p != [] && IsDigit(p[0]) && ParseReal(p) == Some(v)
    ensures ParseReal(t) == Some(-v)
  {
    ParseNegated(p);
  }

  /** What `ostream << -y` writes for `y > 0`, stod reads back as -y rounded to six significant digits. */
  lemma {:induction false} ParseFormatNegative(t: string, y: real)
    requires y > 0.0 && t == "-" + FormatPositive(y)
    ensures ParseReal(t) == Some(-Decimal6Value(Significand6(y)))
  {
    var p := FormatPositive(y);
    ParseFormatPositive(p, y);
    ParseSigned(t, p, Decimal6Value(Significand6(y)));
  }

  /**
   * What `ostream << x` writes, stod reads back as `x` rounded to six
   * significant digits.
   */
  lemma {:induction false} ParseRealFormatReal(x: real)
    ensures ParseReal(FormatReal(x)) == Some(RoundSig6(x))
  {
    if x == 0.0 {
      ParseDigits("0");
      assert DigitsValue("0") == 0 by { assert "0"[..0] == []; }
    } else if x < 0.0 {
      ParseFormatNegative(FormatReal(x), Magnitude(x));
    } else {
      ParseFormatPositive(FormatReal(x), Magnitude(x));
    }
  }

  // ---------------------------------------------------------------------------
  // The written numbers are single-line text.

  lemma {:induction false} DigitsOneLine(s: string)
    requires AllDigits(s)
    ensures '\n' !in s
  {
  }

  lemma {:induction false} FractionOneLine(f: string)
    requires AllDigits(f)
    ensures '\n' !in FractionSuffix(f)
  {
  }

  lemma {:induction false} ExponentOneLine(e: int)
    ensures '\n' !in ExponentSuffix(e)
  {
    NatToStringDigits(Abs(e));
  }

  lemma {:induction false} FixedLargeOneLine(d: string, e: int)
    requires |d| == 6 && AllDigits(d) && 0 <= e < 6
    ensures '\n' !in FormatSignificand(d, e)
  {
    var ip, f, z := FixedLargeText(d, e);
    FractionOneLine(f);
  }

  lemma {:induction false} FixedSmallOneLine(d: string, e: int)
    requires |d| == 6 && AllDigits(d) && DigitsValue(d) > 0 && -4 <= e < 0
    ensures '\n' !in FormatSignificand(d, e)
  {
    var f, g, z := FixedSmallText(d, e);
    FractionOneLine(f);
  }

  lemma {:induction false} ScientificOneLine(d: string, e: int)
    requires |d| == 6 && AllDigits(d) && !(-4 <= e < 6)
    ensures '\n' !in FormatSignificand(d, e)
  {
    var ip, f, z := ScientificText(d, e);
    FractionOneLine(f);
    ExponentOneLine(e);
  }

  /** %g of a positive number writes no '\n'. */
  lemma {:induction false} PositiveOneLine(x: real)
    requires x > 0.0
    ensures '\n' !in FormatPositive(x)
  {
    var s := Significand6(x);
    var d := NatToString(s.digits);
    NatToStringDigits(s.digits);
    if 0 <= s.exp < 6 {
      FixedLargeOneLine(d, s.exp);
    } else if -4 <= s.exp < 0 {
      FixedSmallOneLine(d, s.exp);
    } else {
      ScientificOneLine(d, s.exp);
    }
  }
}
