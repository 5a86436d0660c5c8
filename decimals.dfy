/**
 * rust_decimal's `Decimal`, as the exact value it denotes. A `Decimal` holds a 96-bit
 * mantissa, so its magnitude never exceeds 2^96 - 1; the checked operations fail
 * (return `None`) when a result would leave that range or the divisor is zero.
 */
module Decimals {
  import opened Wrappers

  /** The largest magnitude a `Decimal` can hold, 2^96 - 1. */
  const MaxMagnitude: real := 79228162514264337593543950335.0

  predicate Representable(x: real) {
    -MaxMagnitude <= x <= MaxMagnitude
  }

  type Decimal = x: real | Representable(x)

  /** `Decimal::checked_div`. */
  function CheckedDiv(a: Decimal, b: Decimal): (r: Option<Decimal>)
    ensures b == 0.0 ==> r == None
    ensures r.Some? <==> b != 0.0 && Representable(a / b)
    ensures r.Some? ==> r.value * b == a
  {
    if b == 0.0 then None
    else if Representable(a / b) then Some(a / b)
    else None
  }

  /** `Decimal::checked_mul`. */
  function CheckedMul(a: Decimal, b: Decimal): (r: Option<Decimal>)
    ensures r.Some? <==> Representable(a * b)
    ensures r.Some? ==> r.value == a * b
    ensures b == 1.0 ==> r == Some(a)
  {
    if Representable(a * b) then Some(a * b) else None
  }

  // ---------------------------------------------------------------------------
  // `Decimal::from_str` / `str::parse::<Decimal>` on plain decimal literals:
  // an optional sign, then digits with at most one decimal point and at least
  // one digit.

  predicate IsDigit(c: char) {
    '0' <= c <= '9'
  }

  predicate AllDigits(s: string) {
    forall i :: 0 <= i < |s| ==> IsDigit(s[i])
  }

  /** The number a string of decimal digits spells, most significant digit first. */
  function DigitsValue(ds: string): (n: nat)
    requires AllDigits(ds)
  {
    if ds == [] then 0
    else DigitsValue(ds[..|ds| - 1]) * 10 + (ds[|ds| - 1] as int - '0' as int)
  }

  function Pow10(n: nat): (p: nat)
    ensures p >= 1
  {
    if n == 0 then 1 else 10 * Pow10(n - 1)
  }

  /** The position of the first `c` in `s`. */
  function FirstIndex(s: string, c: char): (k: nat)
    requires c in s
    ensures k < |s| && s[k] == c && c !in s[..k]
  {
    if s[0] == c then 0 else 1 + FirstIndex(s[1..], c)
  }

  /** The value of an unsigned literal: `whole` digits, optionally `.` and `frac` digits. */
  function Magnitude(body: string): (r: Option<real>)
    ensures r.Some? ==> r.value >= 0.0
  {
    if '.' in body then
      var k := FirstIndex(body, '.');
      var whole, frac := body[..k], body[k + 1..];
      if AllDigits(whole) && AllDigits(frac) && |whole| + |frac| > 0
      then Some(DigitsValue(whole + frac) as real / Pow10(|frac|) as real)
      else None
    else if |body| > 0 && AllDigits(body) then Some(DigitsValue(body) as real)
    else None
  }

  predicate IsSign(c: char) {
    c == '-' || c == '+'
  }

  /** Parses a decimal literal; fails on anything else and on values a `Decimal` cannot hold. */
  function ParseDecimal(s: string): (r: Result<Decimal, string>)
    ensures s == [] ==> r.Err?
    ensures r.Ok? && (s == [] || s[0] != '-') ==> r.value >= 0.0
  {
    var negative := |s| > 0 && s[0] == '-';
    var body := if |s| > 0 && IsSign(s[0]) then s[1..] else s;
    match Magnitude(body)
    case None => Err(if s == [] then "empty" else "invalid decimal literal")
    case Some(m) =>
      var v := if negative then -m else m;
      if Representable(v) then Ok(v) else Err("value out of range")
  }

  /** A literal of digits alone parses to the number those digits spell. */
  lemma ParseDigits(ds: string)
    requires |ds| > 0 && AllDigits(ds)
    requires DigitsValue(ds) as real <= MaxMagnitude
    ensures ParseDecimal(ds) == Ok(DigitsValue(ds) as real)
  {
    assert !IsSign(ds[0]);
  }

  /** A leading `-` negates the value of an unsigned literal. */
  lemma ParseNegated(t: string)
    requires |t| > 0 && !IsSign(t[0])
    requires ParseDecimal(t).Ok?
    ensures ParseDecimal("-" + t) == Ok(-ParseDecimal(t).value)
  {
    var s := "-" + t;
    assert s[0] == '-' && s[1..] == t;
  }

  /** A fractional literal: `1.05` is 105 / 10^2. */
  lemma ParseFraction()
    ensures ParseDecimal("1.05") == Ok(1.05)
  {
    var s := "1.05";
    assert FirstIndex(s, '.') == 1;
    assert s[..1] == "1" && s[2..] == "05";
    assert AllDigits("105") && DigitsValue("105") == 105 by {
      assert "105"[..2] == "10" && "10"[..1] == "1" && "1"[..0] == "";
    }
    assert "1" + "05" == "105";
  }

  /** Words and a second decimal point are not decimal literals. */
  lemma RejectedLiterals()
    ensures ParseDecimal("abc") == Err("invalid decimal literal")
    ensures ParseDecimal("1.2.3") == Err("invalid decimal literal")
  {
    assert !IsDigit('a');
    var t := "1.2.3";
    assert FirstIndex(t, '.') == 1;
    assert t[2..] == "2.3" && !IsDigit(t[2..][1]);
  }
}
