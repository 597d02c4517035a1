/** Numeric conversions of the parsers: Python's `float(token)`, `int(token)`,
    `round(x, 2)` and the truncating `int(x)` of a float, stated over exact reals. */
module Numbers {
  import opened Wrappers

  predicate IsDigit(c: char) {
    '0' <= c <= '9'
  }

  predicate AllDigits(s: string) {
    forall i | 0 <= i < |s| :: IsDigit(s[i])
  }

  /** The value of a string of decimal digits. */
  function DigitsValue(s: string): nat
    requires AllDigits(s)
  {
    if s == [] then 0
    else 10 * DigitsValue(s[..|s| - 1]) + (s[|s| - 1] as int - '0' as int)
  }

  function Pow10(n: nat): (r: real)
    ensures r >= 1.0
  {
    if n == 0 then 1.0 else 10.0 * Pow10(n - 1)
  }

  /** Multiplying by `Scale(x)` shifts the decimal point by `x` places. */
  function Scale(x: int): (r: real)
    ensures r > 0.0
  {
    if x >= 0 then Pow10(x) else 1.0 / Pow10(-x)
  }

  /** Index of the first occurrence of `c` in `s`, or `|s|` when there is none. */
  function IndexOf(s: string, c: char): (i: nat)
    ensures i <= |s|
    ensures forall j | 0 <= j < i :: s[j] != c
    ensures i < |s| ==> s[i] == c
  {
    if s == [] then 0
    else if s[0] == c then 0
    else 1 + IndexOf(s[1..], c)
  }

  /** Index of the first exponent marker ('e' or 'E'), or `|s|`. */
  function IndexOfExponent(s: string): (i: nat)
    ensures i <= |s|
    ensures forall j | 0 <= j < i :: s[j] != 'e' && s[j] != 'E'
    ensures i < |s| ==> s[i] == 'e' || s[i] == 'E'
  {
    if s == [] then 0
    else if s[0] == 'e' || s[0] == 'E' then 0
    else 1 + IndexOfExponent(s[1..])
  }

  /** `digits[.digits]` or `.digits`, with at least one digit in all. */
  function ParseMantissa(m: string): Option<real> {
    var d := IndexOf(m, '.');
    var whole := m[..d];
    var frac := if d < |m| then m[d + 1..] else [];
    if !AllDigits(whole) || !AllDigits(frac) || (whole == [] && frac == []) then None
    else Some(DigitsValue(whole) as real + DigitsValue(frac) as real / Pow10(|frac|))
  }

  /** An optionally signed, non-empty run of digits. */
  function ParseInt(s: string): (r: Option<int>)
    ensures r.Some? ==> s != []
  {
    var neg := s != [] && s[0] == '-';
    var body := if s != [] && (s[0] == '+' || s[0] == '-') then s[1..] else s;
    if body == [] || !AllDigits(body) then None
    else Some(if neg then -(DigitsValue(body) as int) else DigitsValue(body))
  }

  function ParseUnsigned(s: string): Option<real> {
    var e := IndexOfExponent(s);
    var mantissa := ParseMantissa(s[..e]);
    if mantissa.None? then None
    else if e == |s| then mantissa
    else
      match ParseInt(s[e + 1..])
      case None => None
      case Some(x) => Some(mantissa.value * Scale(x))
  }

  /** Python's `float(token)` on a whitespace-free token: an optional sign, a
      decimal mantissa and an optional exponent; `None` where Python raises
      ValueError. */
  function ParseNum(s: string): (r: Option<real>)
    ensures r.Some? ==> s != []
  {
    if s != [] && (s[0] == '+' || s[0] == '-') then
      match ParseUnsigned(s[1..])
      case None => None
      case Some(v) => Some(if s[0] == '-' then -v else v)
    else ParseUnsigned(s)
  }

  /** Rounds to the nearest integer, ties to the even one. */
  function RoundHalfEven(y: real): (n: int)
    ensures -0.5 <= n as real - y <= 0.5
  {
    var f := y.Floor;
    var frac := y - f as real;
    if frac < 0.5 then f
    else if frac > 0.5 then f + 1
    else if f % 2 == 0 then f
    else f + 1
  }

  /** Python's `round(x, 2)`: the nearest multiple of 0.01, ties to even. */
  function Round2(x: real): (r: real)
    ensures -0.005 <= r - x <= 0.005
    ensures (r * 100.0).Floor as real == r * 100.0
  {
    RoundHalfEven(x * 100.0) as real / 100.0
  }

  /** Python's `int(x)` on a float: truncation toward zero. */
  function TruncToInt(x: real): (n: int)
    ensures x >= 0.0 ==> 0 <= n && n as real <= x < n as real + 1.0
    ensures x < 0.0 ==> n <= 0 && n as real - 1.0 < x <= n as real
  {
    if x >= 0.0 then x.Floor else -((-x).Floor)
  }
}
