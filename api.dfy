/**
 * Request parameters of the two endpoints: the length rules on currency codes and the
 * parsing of the conversion amount.
 */
module Api {
  import opened Wrappers
  import opened Decimals

  /** Query of `GET /api/latest?base=..`. */
  datatype LatestRatesQuery = LatestRatesQuery(base: Option<string>)

  /** Query of `GET /api/convert?from=..&to=..&amount=..`; the amount stays text until parsed. */
  datatype ConvertQuery = ConvertQuery(from: string, to: string, amount: string)

  /** The required length of every currency code in a query. */
  const CodeLength: nat := 3

  /** The fields of a `LatestRatesQuery` that break their rule: `base`, when present, has length 3. */
  function ValidateLatest(q: LatestRatesQuery): (failed: set<string>)
    ensures failed == {} <==> q.base.None? || |q.base.value| == CodeLength
    ensures failed <= {"base"}
  {
    match q.base
    case None => {}
    case Some(b) => if |b| == CodeLength then {} else {"base"}
  }

  /** The fields of a `ConvertQuery` that break their rule: `from` and `to` each have length 3. */
  function ValidateConvert(q: ConvertQuery): (failed: set<string>)
    ensures "from" in failed <==> |q.from| != CodeLength
    ensures "to" in failed <==> |q.to| != CodeLength
    ensures failed == {} <==> |q.from| == CodeLength && |q.to| == CodeLength
    ensures failed <= {"from", "to"}
  {
    (if |q.from| == CodeLength then {} else {"from"})
      + (if |q.to| == CodeLength then {} else {"to"})
  }

  /** `ConvertQuery::parse_amount`. */
  function ParseAmount(q: ConvertQuery): (r: Result<Decimal, string>)
    ensures r.Ok? <==> ParseDecimal(q.amount).Ok? && ParseDecimal(q.amount).value >= 0.0
    ensures r.Ok? ==> r.value == ParseDecimal(q.amount).value && r.value >= 0.0
    ensures ParseDecimal(q.amount).Err? ==>
      r == Err("Invalid amount format: " + ParseDecimal(q.amount).error)
    ensures ParseDecimal(q.amount).Ok? && ParseDecimal(q.amount).value < 0.0 ==>
      r == Err("Amount must be non-negative")
  {
    match ParseDecimal(q.amount)
    case Err(e) => Err("Invalid amount format: " + e)
    case Ok(v) => if v < 0.0 then Err("Amount must be non-negative") else Ok(v)
  }

  /** An amount written without a leading `-` is accepted whenever it parses, zero included. */
  lemma UnsignedAmountAccepted(q: ConvertQuery)
    requires q.amount == [] || q.amount[0] != '-'
    requires ParseDecimal(q.amount).Ok?
    ensures ParseAmount(q) == Ok(ParseDecimal(q.amount).value)
  {
  }

  /** Negating a positive amount turns acceptance into the non-negativity error. */
  lemma NegatedAmountRejected(from: string, to: string, t: string)
    requires |t| > 0 && !IsSign(t[0])
    requires ParseAmount(ConvertQuery(from, to, t)).Ok? && ParseAmount(ConvertQuery(from, to, t)).value > 0.0
    ensures ParseAmount(ConvertQuery(from, to, "-" + t)) == Err("Amount must be non-negative")
  {
    ParseNegated(t);
  }

  /** The amount `0` is accepted as zero. */
  lemma ZeroAmountAccepted(from: string, to: string)
    ensures ParseAmount(ConvertQuery(from, to, "0")) == Ok(0.0)
  {
    ParseDigits("0");
  }
}
