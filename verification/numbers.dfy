/** JavaScript numbers as the client uses them: decimal rendering of integers
    (`${n}`), `parseInt(s, 10)`, the truncating `%` operator, `Math.round`, and
    exact decimal values for the user-entered leave durations. */
module Numbers {

  /** A JavaScript number that is either `NaN` or an integer value. */
  datatype JsNumber = NaN | Num(n: int)

  predicate IsDigit(c: char) {
    '0' <= c <= '9'
  }

  predicate AllDigits(s: string) {
    forall i :: 0 <= i < |s| ==> IsDigit(s[i])
  }

  function DigitChar(d: nat): (c: char)
    requires d < 10
    ensures IsDigit(c)
  {
    "0123456789"[d]
  }

  function DigitValue(c: char): (d: nat)
    requires IsDigit(c)
    ensures d < 10
  {
    (c as int - '0' as int) as nat
  }

  lemma DigitRoundTrip(d: nat)
    requires d < 10
    ensures DigitValue(DigitChar(d)) == d
  {
  }

  /** The decimal numeral of `n`, without leading zeros (`${n}` for `n >= 0`). */
  function NatToString(n: nat): (s: string)
    ensures |s| >= 1
    ensures AllDigits(s)
    ensures |s| > 1 ==> s[0] != '0'
  {
    if n < 10 then [DigitChar(n)] else NatToString(n / 10) + [DigitChar(n % 10)]
  }

  /** `${i}` for an integer-valued JavaScript number. */
  function IntToString(i: int): (s: string)
    ensures |s| >= 1
    ensures i >= 0 ==> s == NatToString(i)
    ensures i < 0 ==> s == "-" + NatToString(-i)
  {
    if i < 0 then "-" + NatToString(-i) else NatToString(i)
  }

  /** `${x}` for a JavaScript number that is `NaN` or an integer. */
  function ShowNumber(x: JsNumber): string {
    match x
    case NaN => "NaN"
    case Num(n) => IntToString(n)
  }

  /** The value of a numeral read in base ten. */
  function DigitsValue(s: string): nat
    requires AllDigits(s)
  {
    if s == [] then 0 else DigitsValue(s[..|s| - 1]) * 10 + DigitValue(s[|s| - 1])
  }

  /** Reading back a rendered natural number gives the number. */
  lemma {:induction false} NatToStringRoundTrip(n: nat)
    ensures DigitsValue(NatToString(n)) == n
  {
    if n >= 10 {
      var s := NatToString(n);
      assert s[..|s| - 1] == NatToString(n / 10);
      NatToStringRoundTrip(n / 10);
      DigitRoundTrip(n % 10);
    } else {
      DigitRoundTrip(n);
    }
  }

  /** Two naturals render alike only if they are equal. */
  lemma NatToStringInjective(a: nat, b: nat)
    requires NatToString(a) == NatToString(b)
    ensures a == b
  {
    NatToStringRoundTrip(a);
    NatToStringRoundTrip(b);
  }

  /** The whitespace `parseInt` skips before the numeral (ASCII subset). */
  predicate IsSpace(c: char) {
    c == ' ' || c == '\t' || c == '\n' || c == '\r' || c == '\U{000B}' || c == '\U{000C}'
  }

  function TrimStart(s: string): (t: string)
    ensures |t| <= |s| && t == s[|s| - |t|..]
    ensures t == [] || !IsSpace(t[0])
  {
    if s != [] && IsSpace(s[0]) then TrimStart(s[1..]) else s
  }

  /** The longest prefix of `s` made of decimal digits. */
  function DigitPrefix(s: string): (d: string)
    ensures d <= s
    ensures AllDigits(d)
    ensures |d| < |s| ==> !IsDigit(s[|d|])
  {
    if s != [] && IsDigit(s[0]) then [s[0]] + DigitPrefix(s[1..]) else []
  }

  /** `parseInt(s, 10)`: skip leading whitespace, read an optional sign, then
      the longest run of decimal digits; no digits at all gives `NaN`. */
  function ParseInt(s: string): (x: JsNumber)
    ensures x.NaN? <==> DigitPrefix(SignStripped(TrimStart(s))) == []
  {
    var t := TrimStart(s);
    var negative := t != [] && t[0] == '-';
    var d := DigitPrefix(SignStripped(t));
    if d == [] then NaN
    else if negative then Num(-(DigitsValue(d) as int))
    else Num(DigitsValue(d))
  }

  function SignStripped(t: string): string {
    if t != [] && (t[0] == '-' || t[0] == '+') then t[1..] else t
  }

  /** A numeral followed by anything that does not continue it parses back to
      its value: `parseInt` inverts `NatToString`. */
  lemma ParseIntOfNumeral(n: nat, rest: string)
    requires rest == [] || !IsDigit(rest[0])
    ensures ParseInt(NatToString(n) + rest) == Num(n)
  {
    ParseIntOfDigits(NatToString(n), rest);
    NatToStringRoundTrip(n);
  }

  /** Any run of digits, leading zeros included, followed by anything that
      does not continue it parses to the value of the digits. */
  lemma ParseIntOfDigits(d: string, rest: string)
    requires |d| >= 1 && AllDigits(d)
    requires rest == [] || !IsDigit(rest[0])
    ensures ParseInt(d + rest) == Num(DigitsValue(d))
  {
    var s := d + rest;
    assert s[0] == d[0];
    StartsWithDigit(s);
    DigitPrefixOfNumeral(d, rest);
  }

  /** A text that starts with a digit has no whitespace or sign to skip. */
  lemma StartsWithDigit(s: string)
    requires s != [] && IsDigit(s[0])
    ensures SignStripped(TrimStart(s)) == s
  {
  }

  lemma {:induction false} DigitPrefixOfNumeral(d: string, rest: string)
    requires |d| >= 1 && AllDigits(d)
    requires rest == [] || !IsDigit(rest[0])
    ensures DigitPrefix(d + rest) == d
  {
    if |d| > 1 {
      assert (d + rest)[1..] == d[1..] + rest;
      DigitPrefixOfNumeral(d[1..], rest);
    } else {
      assert (d + rest)[1..] == rest;
    }
  }

  function Abs(i: int): nat {
    if i < 0 then -i else i
  }

  /** JavaScript's `a % b`: the remainder takes the sign of the dividend. */
  function JsRem(a: int, b: int): (r: int)
    requires b != 0
    ensures Abs(r) < Abs(b)
    ensures a >= 0 ==> 0 <= r
    ensures a <= 0 ==> r <= 0
  {
    if a >= 0 then a % Abs(b) else -((-a) % Abs(b))
  }

  /** `Math.floor(a / b)` for integers and a positive divisor. */
  function FloorDiv(a: int, b: int): (q: int)
    requires b > 0
    ensures q * b <= a < q * b + b
  {
    a / b
  }

  /** `Math.floor(x)` for a real value. */
  function Floor(x: real): (f: int)
    ensures f as real <= x < f as real + 1.0
  {
    x.Floor
  }

  /** `Math.round(x)`: the nearest integer, halves rounded up. */
  function Round(x: real): (r: int)
    ensures x - 0.5 < r as real <= x + 0.5
  {
    Floor(x + 0.5)
  }

  function Pow10(e: nat): (p: nat)
    ensures p >= 1
  {
    if e == 0 then 1 else 10 * Pow10(e - 1)
  }

  /** An exact decimal `units / 10^scale`, the shape of a number typed into a
      numeric form field. */
  datatype Decimal = Decimal(units: int, scale: nat)

  function Value(d: Decimal): real {
    d.units as real / Pow10(d.scale) as real
  }

  /** The same value with trailing zero digits of the fraction removed. */
  function Normalize(d: Decimal): (n: Decimal)
    ensures Value(n) == Value(d)
    ensures n.scale > 0 ==> n.units % 10 != 0
    decreases d.scale
  {
    if d.scale > 0 && d.units % 10 == 0 then
      var smaller := Decimal(d.units / 10, d.scale - 1);
      assert Value(smaller) == Value(d) by {
        assert d.units == 10 * (d.units / 10);
        assert Pow10(d.scale) == 10 * Pow10(d.scale - 1);
      }
      Normalize(smaller)
    else d
  }

  /** `s` padded on the left with zeros to `width` characters. */
  function ZeroPad(s: string, width: nat): (r: string)
    ensures |r| == if |s| < width then width else |s|
    decreases width - |s|
  {
    if |s| < width then ZeroPad("0" + s, width) else s
  }

  /** `${x}` for a decimal value in plain (non-exponent) notation: the integer
      part, then a point and the fraction digits without trailing zeros when
      the value is not whole. */
  function ShowDecimal(d: Decimal): string {
    var n := Normalize(d);
    if n.scale == 0 then IntToString(n.units)
    else
      (if n.units < 0 then "-" else "") + PointNotation(Abs(n.units), n.scale)
  }

  /** `a / 10^scale` written with `scale` fraction digits. */
  function PointNotation(a: nat, scale: nat): string {
    var p := Pow10(scale);
    DivNonNegative(a, p);
    NatToString(a / p) + "." + ZeroPad(NatToString(a % p), scale)
  }

  lemma DivNonNegative(a: nat, p: nat)
    requires p >= 1
    ensures a / p >= 0 && a % p >= 0
  {
  }

  /** A whole number renders as its integer numeral, however many zero
      fraction digits it was written with. */
  lemma {:induction false} ShowWholeDecimal(k: int, scale: nat)
    ensures ShowDecimal(Decimal(k * Pow10(scale), scale)) == IntToString(k)
  {
    NormalizeWhole(k, scale);
  }

  lemma TimesTen(k: int, p: int)
    ensures k * (10 * p) == 10 * (k * p)
  {
  }

  lemma {:induction false} NormalizeWhole(k: int, scale: nat)
    ensures Normalize(Decimal(k * Pow10(scale), scale)) == Normalize(Decimal(k, 0))
    decreases scale
  {
    if scale > 0 {
      var m := k * Pow10(scale - 1);
      var u := k * Pow10(scale);
      assert Pow10(scale) == 10 * Pow10(scale - 1);
      TimesTen(k, Pow10(scale - 1));
      assert u == 10 * m;
      assert u % 10 == 0 && u / 10 == m;
      NormalizeWhole(k, scale - 1);
    }
  }
}
