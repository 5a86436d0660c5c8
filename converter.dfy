/**
 * The conversion engine: cross rates between two currencies of a daily table, and the
 * same table re-expressed against another base currency.
 */
module Converter {
  import opened Wrappers
  import opened Decimals
  import opened Text
  import opened Error
  import opened Rate

  /**
   * How many units of `code` one unit of the table's base buys: 1 for the base itself
   * (whatever the table lists under that key), the listed rate for any other known code.
   */
  function RateFromBase(d: DailyRate, code: string): (r: Option<Decimal>)
    ensures r.Some? <==> code == d.base || code in d.rates
    ensures code == d.base ==> r == Some(1.0)
    ensures code != d.base && code in d.rates ==> r == Some(d.rates[code])
  {
    if code == d.base then Some(1.0)
    else if code in d.rates then Some(d.rates[code])
    else None
  }

  /** A code the table can price: its base or one of its keys. */
  predicate Known(d: DailyRate, code: string) {
    code == d.base || code in d.rates
  }

  /**
   * `convert_currency`: the amount in `to` and the rate used, for `amount` units of `from`.
   * Codes are upper-cased first; `from` is looked up before `to`.
   */
  function ConvertCurrency(d: DailyRate, from: string, to: string, amount: Decimal)
    : (r: Result<(Decimal, Decimal), ApiError>)
    ensures ToUpper(from) == ToUpper(to) ==> r == Ok((amount, 1.0))
    ensures r.Ok? && ToUpper(from) != ToUpper(to) ==> Known(d, ToUpper(from)) && Known(d, ToUpper(to))
  {
    var f, t := ToUpper(from), ToUpper(to);
    if f == t then Ok((amount, 1.0))
    else
      match RateFromBase(d, f)
      case None => Err(CurrencyNotFound(f))
      case Some(fromRate) =>
        match RateFromBase(d, t)
        case None => Err(CurrencyNotFound(t))
        case Some(toRate) =>
          match CheckedDiv(toRate, fromRate)
          case None => Err(CalculationError("Division by zero or overflow in conversion"))
          case Some(rate) =>
            match CheckedMul(amount, rate)
            case None => Err(CalculationError("Overflow in amount calculation"))
            case Some(result) => Ok((result, rate))
  }

  /**
   * A conversion between distinct codes fails with `CurrencyNotFound(c)` exactly when `c`
   * is the first unknown code, `from` before `to`.
   */
  lemma ConvertNotFound(d: DailyRate, from: string, to: string, amount: Decimal, c: string)
    ensures ConvertCurrency(d, from, to, amount) == Err(CurrencyNotFound(c)) <==>
      var f, t := ToUpper(from), ToUpper(to);
      && f != t
      && ((!Known(d, f) && c == f) || (Known(d, f) && !Known(d, t) && c == t))
  {
  }

  /** Codes are compared case-insensitively: converting the upper-cased codes gives the same outcome. */
  lemma ConvertCaseInsensitive(d: DailyRate, from: string, to: string, amount: Decimal)
    ensures ConvertCurrency(d, from, to, amount) == ConvertCurrency(d, ToUpper(from), ToUpper(to), amount)
  {
    ToUpperIsUpper(from);
    ToUpperIsUpper(to);
  }

  /**
   * A successful conversion between distinct codes never divided by zero; its rate turns
   * one unit of `from` into the base-relative rate of `to`, and its result is the amount
   * times that rate.
   */
  lemma ConvertSuccess(d: DailyRate, from: string, to: string, amount: Decimal)
    requires ConvertCurrency(d, from, to, amount).Ok? && ToUpper(from) != ToUpper(to)
    ensures var (result, rate) := ConvertCurrency(d, from, to, amount).value;
      var fromRate, toRate := RateFromBase(d, ToUpper(from)).value, RateFromBase(d, ToUpper(to)).value;
      && fromRate != 0.0
      && rate * fromRate == toRate
      && result == amount * rate
  {
  }

  /**
   * Between two known distinct codes the conversion succeeds exactly when the cross rate
   * and the converted amount are both representable.
   */
  lemma ConvertSucceeds(d: DailyRate, from: string, to: string, amount: Decimal)
    requires ToUpper(from) != ToUpper(to) && Known(d, ToUpper(from)) && Known(d, ToUpper(to))
    ensures var fromRate, toRate := RateFromBase(d, ToUpper(from)).value, RateFromBase(d, ToUpper(to)).value;
      ConvertCurrency(d, from, to, amount).Ok? <==>
        fromRate != 0.0 && Representable(toRate / fromRate) && Representable(amount * (toRate / fromRate))
  {
    var f, t := ToUpper(from), ToUpper(to);
    ConvertCaseInsensitive(d, from, to, amount);
    ToUpperIsUpper(from);
    ToUpperIsUpper(to);
    UpperConvertSucceeds(d, f, t, amount);
  }

  lemma UpperConvertSucceeds(d: DailyRate, f: string, t: string, amount: Decimal)
    requires IsUpper(f) && IsUpper(t) && f != t && Known(d, f) && Known(d, t)
    ensures var fromRate, toRate := RateFromBase(d, f).value, RateFromBase(d, t).value;
      ConvertCurrency(d, f, t, amount).Ok? <==>
        fromRate != 0.0 && Representable(toRate / fromRate) && Representable(amount * (toRate / fromRate))
  {
  }

  /**
   * Between two known distinct codes every failure is a `CalculationError`, and a zero rate
   * for `from` always causes one.
   */
  lemma ConvertCalculationError(d: DailyRate, from: string, to: string, amount: Decimal)
    requires ToUpper(from) != ToUpper(to) && Known(d, ToUpper(from)) && Known(d, ToUpper(to))
    ensures ConvertCurrency(d, from, to, amount).Err? ==>
      ConvertCurrency(d, from, to, amount).error.CalculationError?
    ensures RateFromBase(d, ToUpper(from)).value == 0.0 ==>
      ConvertCurrency(d, from, to, amount)
        == Err(CalculationError("Division by zero or overflow in conversion"))
    ensures var fromRate, toRate := RateFromBase(d, ToUpper(from)).value, RateFromBase(d, ToUpper(to)).value;
      fromRate != 0.0 && !Representable(toRate / fromRate) ==>
        ConvertCurrency(d, from, to, amount)
          == Err(CalculationError("Division by zero or overflow in conversion"))
    ensures var fromRate, toRate := RateFromBase(d, ToUpper(from)).value, RateFromBase(d, ToUpper(to)).value;
      fromRate != 0.0 && Representable(toRate / fromRate) && !Representable(amount * (toRate / fromRate)) ==>
        ConvertCurrency(d, from, to, amount) == Err(CalculationError("Overflow in amount calculation"))
  {
  }

  /** Quotients of base-relative rates chain: `(rb / ra) * (rc / rb) == rc / ra`. */
  lemma QuotientChain(ra: real, rb: real, rc: real)
    requires ra != 0.0 && rb != 0.0
    ensures (rb / ra) * (rc / rb) == rc / ra
  {
  }

  /**
   * Chaining a conversion `a -> b` with `b -> c` gives the rate of `a -> c`, in exact
   * arithmetic; with `c` equal to `a` this says the rates of `a -> b` and `b -> a` are
   * reciprocal.
   */
  lemma CrossRateConsistency(d: DailyRate, a: string, b: string, c: string)
    requires ConvertCurrency(d, a, b, 1.0).Ok?
    requires ConvertCurrency(d, b, c, 1.0).Ok?
    requires ConvertCurrency(d, a, c, 1.0).Ok?
    ensures ConvertCurrency(d, a, b, 1.0).value.1 * ConvertCurrency(d, b, c, 1.0).value.1
      == ConvertCurrency(d, a, c, 1.0).value.1
  {
    ConvertCaseInsensitive(d, a, b, 1.0);
    ConvertCaseInsensitive(d, b, c, 1.0);
    ConvertCaseInsensitive(d, a, c, 1.0);
    ToUpperIsUpper(a);
    ToUpperIsUpper(b);
    ToUpperIsUpper(c);
    UpperCrossRate(d, ToUpper(a), ToUpper(b), ToUpper(c));
  }

  /** `CrossRateConsistency` for codes already in upper case. */
  lemma UpperCrossRate(d: DailyRate, a: string, b: string, c: string)
    requires IsUpper(a) && IsUpper(b) && IsUpper(c)
    requires ConvertCurrency(d, a, b, 1.0).Ok?
    requires ConvertCurrency(d, b, c, 1.0).Ok?
    requires ConvertCurrency(d, a, c, 1.0).Ok?
    ensures ConvertCurrency(d, a, b, 1.0).value.1 * ConvertCurrency(d, b, c, 1.0).value.1
      == ConvertCurrency(d, a, c, 1.0).value.1
  {
    if a == b || b == c {
    } else if a == c {
      ReciprocalRates(d, a, b);
    } else {
      DistinctCrossRate(d, a, b, c);
    }
  }

  /** The rates of `a -> b` and `b -> a` multiply to 1. */
  lemma ReciprocalRates(d: DailyRate, a: string, b: string)
    requires IsUpper(a) && IsUpper(b) && a != b
    requires ConvertCurrency(d, a, b, 1.0).Ok?
    requires ConvertCurrency(d, b, a, 1.0).Ok?
    ensures ConvertCurrency(d, a, b, 1.0).value.1 * ConvertCurrency(d, b, a, 1.0).value.1 == 1.0
  {
    var ra, rb := RateFromBase(d, a).value, RateFromBase(d, b).value;
    assert ConvertCurrency(d, a, b, 1.0).value.1 == rb / ra;
    assert ConvertCurrency(d, b, a, 1.0).value.1 == ra / rb;
    QuotientChain(ra, rb, ra);
  }

  /** The cross-rate chain through three distinct upper-case codes. */
  lemma DistinctCrossRate(d: DailyRate, a: string, b: string, c: string)
    requires IsUpper(a) && IsUpper(b) && IsUpper(c) && a != b && b != c && a != c
    requires ConvertCurrency(d, a, b, 1.0).Ok?
    requires ConvertCurrency(d, b, c, 1.0).Ok?
    requires ConvertCurrency(d, a, c, 1.0).Ok?
    ensures ConvertCurrency(d, a, b, 1.0).value.1 * ConvertCurrency(d, b, c, 1.0).value.1
      == ConvertCurrency(d, a, c, 1.0).value.1
  {
    var ra, rb, rc := RateFromBase(d, a).value, RateFromBase(d, b).value, RateFromBase(d, c).value;
    assert ConvertCurrency(d, a, b, 1.0).value.1 == rb / ra;
    assert ConvertCurrency(d, b, c, 1.0).value.1 == rc / rb;
    assert ConvertCurrency(d, a, c, 1.0).value.1 == rc / ra;
    QuotientChain(ra, rb, rc);
  }

  // ---------------------------------------------------------------------------
  // Rebasing.

  /** Every division a rebase onto `x` performs succeeds: `1 / r` and each other rate over `r`. */
  predicate RebaseDivides(d: DailyRate, x: string)
    requires x in d.rates
  {
    && CheckedDiv(1.0, d.rates[x]).Some?
    && forall c :: c in d.rates && c != x ==> CheckedDiv(d.rates[c], d.rates[x]).Some?
  }

  /** The rates of the table rebased onto `x`, once every division has succeeded. */
  function RebasedRates(d: DailyRate, x: string): (rates: map<string, Decimal>)
    requires x != d.base && x in d.rates && RebaseDivides(d, x)
  {
    map c | c in (d.rates.Keys - {x}) + {d.base} ::
      if c in d.rates then CheckedDiv(d.rates[c], d.rates[x]).value
      else CheckedDiv(1.0, d.rates[x]).value
  }

  /** The map the rebase loop holds once the keys in `done` have been visited. */
  function PartialRebase(d: DailyRate, x: string, done: set<string>): (rates: map<string, Decimal>)
    requires x != d.base && x in d.rates && CheckedDiv(1.0, d.rates[x]).Some?
    requires done <= d.rates.Keys
    requires forall c :: c in done && c != x ==> CheckedDiv(d.rates[c], d.rates[x]).Some?
  {
    map c | c in (done - {x}) + {d.base} ::
      if c in done then CheckedDiv(d.rates[c], d.rates[x]).value
      else CheckedDiv(1.0, d.rates[x]).value
  }

  /**
   * `rebase_rates`: the table re-expressed against `newBase` (upper-cased). Keys are
   * visited in an unspecified order, as a `HashMap` iterates; the result on success does
   * not depend on it, and a failing division reports one of the failing keys.
   */
  method RebaseRates(d: DailyRate, newBase: string) returns (r: Result<DailyRate, ApiError>)
    ensures ToUpper(newBase) == d.base ==> r == Ok(d)
    ensures var x := ToUpper(newBase);
      x != d.base && x !in d.rates ==> r == Err(CurrencyNotFound(x))
    ensures var x := ToUpper(newBase);
      x != d.base && x in d.rates && CheckedDiv(1.0, d.rates[x]).None? ==>
        r == Err(CalculationError("Division by zero in rebase"))
    ensures var x := ToUpper(newBase);
      x != d.base && x in d.rates && CheckedDiv(1.0, d.rates[x]).Some? && !RebaseDivides(d, x) ==>
        exists c :: && c in d.rates && c != x && CheckedDiv(d.rates[c], d.rates[x]).None?
                    && r == Err(CalculationError("Division error for " + c))
    ensures var x := ToUpper(newBase);
      x != d.base && x in d.rates && RebaseDivides(d, x) ==>
        r == Ok(DailyRate(d.date, x, RebasedRates(d, x)))
    ensures var x := ToUpper(newBase);
      r.Ok? && x != d.base ==>
        && r.value.date == d.date && r.value.base == x
        && r.value.rates.Keys == (d.rates.Keys - {x}) + {d.base}
        && (forall c :: c in d.rates && c != x ==> r.value.rates[c] == d.rates[c] / d.rates[x])
        && (d.base !in d.rates ==> r.value.rates[d.base] == 1.0 / d.rates[x])
  {
    var x := ToUpper(newBase);
    if x == d.base {
      return Ok(d);
    }
    if x !in d.rates {
      return Err(CurrencyNotFound(x));
    }
    var baseRate := d.rates[x];
    var oldBaseRate := CheckedDiv(1.0, baseRate);
    if oldBaseRate.None? {
      return Err(CalculationError("Division by zero in rebase"));
    }
    var newRates := map[d.base := oldBaseRate.value];
    var pending := d.rates.Keys;
    while pending != {}
      invariant pending <= d.rates.Keys
      invariant forall c :: c in d.rates.Keys - pending && c != x ==> CheckedDiv(d.rates[c], baseRate).Some?
      invariant newRates == PartialRebase(d, x, d.rates.Keys - pending)
      decreases pending
    {
      var c :| c in pending;
      pending := pending - {c};
      if c == x {
        continue;
      }
      var q := CheckedDiv(d.rates[c], baseRate);
      if q.None? {
        return Err(CalculationError("Division error for " + c));
      }
      newRates := newRates[c := q.value];
    }
    assert d.rates.Keys - pending == d.rates.Keys;
    return Ok(DailyRate(d.date, x, newRates));
  }

  /**
   * A rebased table agrees with direct conversion: for every key `c` of the table rebased
   * onto `x`, converting one unit of `x` into `c` yields exactly that rate. This needs the
   * base and keys to be upper case and, when the base is also a key, its listed rate to be 1.
   */
  lemma RebaseAgreesWithConvert(d: DailyRate, x: string, c: string)
    requires Canonical(d)
    requires x != d.base && x in d.rates && RebaseDivides(d, x)
    requires d.base in d.rates ==> d.rates[d.base] == 1.0
    requires c in RebasedRates(d, x)
    ensures ConvertCurrency(d, x, c, 1.0) == Ok((RebasedRates(d, x)[c], RebasedRates(d, x)[c]))
  {
    assert IsUpper(c);
  }

  /** Rebasing a canonical table onto one of its keys keeps it canonical. */
  lemma RebasePreservesCanonical(d: DailyRate, x: string)
    requires Canonical(d)
    requires x != d.base && x in d.rates && RebaseDivides(d, x)
    ensures Canonical(DailyRate(d.date, x, RebasedRates(d, x)))
  {
  }

  /** Every table fetched from the feed can be rebased onto any of its non-`EUR` keys consistently with conversion. */
  lemma EcbRebaseAgreesWithConvert(time: string, rs: seq<EcbRate>, x: string, c: string)
    requires Snapshot(time, rs, ParseDecimal).Ok?
    requires var d := Snapshot(time, rs, ParseDecimal).value;
      x != d.base && x in d.rates && RebaseDivides(d, x) && c in RebasedRates(d, x)
    ensures var d := Snapshot(time, rs, ParseDecimal).value;
      ConvertCurrency(d, x, c, 1.0) == Ok((RebasedRates(d, x)[c], RebasedRates(d, x)[c]))
  {
    var d := Snapshot(time, rs, ParseDecimal).value;
    EcbSnapshotCanonical(time, rs);
    RebaseAgreesWithConvert(d, x, c);
  }

  // ---------------------------------------------------------------------------
  // The worked examples of the converter's unit tests, on their four-currency table.

  /** The test table: base `EUR`, which is also listed at 1. */
  function SampleTable(): (d: DailyRate)
    ensures Canonical(d)
  {
    DailyRate("2024-12-04", "EUR", map["USD" := 1.05, "GBP" := 0.85, "JPY" := 158.2, "EUR" := 1.0])
  }

  /** Upper-case codes of the test table are their own upper-casing. */
  lemma SampleCodesUpper()
    ensures ToUpper("USD") == "USD" && ToUpper("EUR") == "EUR" && ToUpper("JPY") == "JPY"
    ensures ToUpper("GBP") == "GBP" && ToUpper("XXX") == "XXX"
    ensures ToUpper("usd") == "USD" && ToUpper("gbp") == "GBP"
  {
    assert ToUpper("USD") == ['U', 'S', 'D'];
    assert ToUpper("EUR") == ['E', 'U', 'R'];
    assert ToUpper("JPY") == ['J', 'P', 'Y'];
    assert ToUpper("GBP") == ['G', 'B', 'P'];
    assert ToUpper("XXX") == ['X', 'X', 'X'];
    assert ToUpper("usd") == ['U', 'S', 'D'];
    assert ToUpper("gbp") == ['G', 'B', 'P'];
  }

  /** Same currency: the amount comes back unchanged at rate 1. */
  lemma SampleSameCurrency()
    ensures ConvertCurrency(SampleTable(), "USD", "USD", 100.0) == Ok((100.0, 1.0))
  {
    SampleCodesUpper();
  }

  /** Quote to base and base to quote. */
  lemma SampleToAndFromBase()
    ensures ConvertCurrency(SampleTable(), "USD", "EUR", 100.0) == Ok((100.0 * (1.0 / 1.05), 1.0 / 1.05))
    ensures ConvertCurrency(SampleTable(), "EUR", "USD", 100.0) == Ok((105.0, 1.05))
  {
    SampleCodesUpper();
  }

  /** A cross rate between two quoted currencies, on lower-case input. */
  lemma SampleCross()
    ensures ConvertCurrency(SampleTable(), "USD", "JPY", 100.0) == Ok((100.0 * (158.2 / 1.05), 158.2 / 1.05))
    ensures ConvertCurrency(SampleTable(), "usd", "gbp", 1.0) == Ok((0.85 / 1.05, 0.85 / 1.05))
  {
    SampleCodesUpper();
  }

  /** A code missing from the table is reported in upper case. */
  lemma SampleUnknown()
    ensures ConvertCurrency(SampleTable(), "USD", "XXX", 100.0) == Err(CurrencyNotFound("XXX"))
  {
    SampleCodesUpper();
  }

  /** Rebasing the test table onto `USD`: `EUR` at 1 / 1.05, `JPY` at 158.2 / 1.05, no `USD` key. */
  lemma SampleRebase()
    ensures RebaseDivides(SampleTable(), "USD")
    ensures var r := RebasedRates(SampleTable(), "USD");
      && r.Keys == {"EUR", "GBP", "JPY"}
      && r["EUR"] == 1.0 / 1.05 && r["JPY"] == 158.2 / 1.05
  {
  }
}
