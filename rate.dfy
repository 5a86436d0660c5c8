/**
 * The daily rate table and its construction from the ECB reference-rate feed.
 */
module Rate {
  import opened Wrappers
  import opened Decimals
  import opened Text

  /**
   * `DailyRate`: for one date, how many units of each currency one unit of `base` buys.
   * Nothing stops `base` from also being a key of `rates`.
   */
  datatype DailyRate = DailyRate(date: string, base: string, rates: map<string, Decimal>)

  /** One `<Cube currency=.. rate=..>` entry of the feed, both attributes as text. */
  datatype EcbRate = EcbRate(currency: string, rate: string)

  /** The base currency of every table built from the feed. */
  const Euro: string := "EUR"

  /** The error text of a rate that does not parse, naming the currency as given. */
  function ParseFailure(currency: string, detail: string): (msg: string)
    ensures |msg| == 27 + |currency| + |detail|
    ensures msg[25..25 + |currency|] == currency
    ensures msg[|msg| - |detail|..] == detail
  {
    "Failed to parse rate for " + currency + ": " + detail
  }

  /** A decimal parser: `Decimal`'s `FromStr`, yielding the parsed value or the parser's error text. */
  type Parser = string -> Result<Decimal, string>

  /**
   * The map the ingestion loop builds from `rs`, in order: each entry's upper-cased code
   * is bound to its parsed rate, later entries overwriting earlier ones; the first entry
   * whose rate does not parse ends the fold with an error.
   */
  function CollectRates(rs: seq<EcbRate>, parse: Parser): (r: Result<map<string, Decimal>, string>)
  {
    if rs == [] then Ok(map[])
    else
      match CollectRates(rs[..|rs| - 1], parse)
      case Err(e) => Err(e)
      case Ok(m) =>
        var last := rs[|rs| - 1];
        match parse(last.rate)
        case Err(e) => Err(ParseFailure(last.currency, e))
        case Ok(v) => Ok(m[ToUpper(last.currency) := v])
  }

  /** The table built from the fold: base `EUR`, the feed's time string, `EUR` forced to 1. */
  function Snapshot(time: string, rs: seq<EcbRate>, parse: Parser): (r: Result<DailyRate, string>)
  {
    match CollectRates(rs, parse)
    case Err(e) => Err(e)
    case Ok(m) => Ok(DailyRate(time, Euro, m[Euro := 1.0]))
  }

  /** Once the fold has failed, further entries keep the same error. */
  lemma {:induction false} CollectRatesErrSticks(rs: seq<EcbRate>, n: nat, parse: Parser)
    requires n <= |rs|
    requires CollectRates(rs[..n], parse).Err?
    ensures CollectRates(rs, parse) == CollectRates(rs[..n], parse)
    decreases |rs| - n
  {
    if n < |rs| {
      var p := rs[..n + 1];
      assert p[..|p| - 1] == rs[..n];
      CollectRatesErrSticks(rs, n + 1, parse);
    } else {
      assert rs[..n] == rs;
    }
  }

  /** `DailyRate::from_ecb_data`, parsing each rate with `Decimal`'s parser. */
  method FromEcbData(time: string, rates: seq<EcbRate>) returns (r: Result<DailyRate, string>)
    ensures r == Snapshot(time, rates, ParseDecimal)
  {
    var rateMap: map<string, Decimal> := map[];
    var i := 0;
    while i < |rates|
      invariant 0 <= i <= |rates|
      invariant CollectRates(rates[..i], ParseDecimal) == Ok(rateMap)
    {
      var entry := rates[i];
      assert rates[..i + 1][..i] == rates[..i];
      var parsed := ParseDecimal(entry.rate);
      if parsed.Err? {
        CollectRatesErrSticks(rates, i + 1, ParseDecimal);
        return Err(ParseFailure(entry.currency, parsed.error));
      }
      rateMap := rateMap[ToUpper(entry.currency) := parsed.value];
      i := i + 1;
    }
    assert rates[..i] == rates;
    rateMap := rateMap[Euro := 1.0];
    return Ok(DailyRate(time, Euro, rateMap));
  }

  // ---------------------------------------------------------------------------
  // What the fold promises, for any parser.

  /** Every rate parses. */
  predicate AllParse(rs: seq<EcbRate>, parse: Parser) {
    forall i :: 0 <= i < |rs| ==> parse(rs[i].rate).Ok?
  }

  /** Entry `i` is the first whose rate does not parse. */
  predicate FirstUnparsable(rs: seq<EcbRate>, parse: Parser, i: int) {
    && 0 <= i < |rs| && parse(rs[i].rate).Err?
    && forall j :: 0 <= j < i ==> parse(rs[j].rate).Ok?
  }

  /** The upper-cased codes of the entries. */
  function UpperCodes(rs: seq<EcbRate>): (codes: set<string>) {
    if rs == [] then {} else UpperCodes(rs[..|rs| - 1]) + {ToUpper(rs[|rs| - 1].currency)}
  }

  /** A string is among the upper-cased codes exactly when some entry's code upper-cases to it. */
  lemma {:induction false} UpperCodesMembers(rs: seq<EcbRate>, c: string)
    ensures c in UpperCodes(rs) <==> exists i :: 0 <= i < |rs| && ToUpper(rs[i].currency) == c
  {
    if rs != [] {
      var p := rs[..|rs| - 1];
      UpperCodesMembers(p, c);
      assert forall j :: 0 <= j < |p| ==> p[j] == rs[j];
    }
  }

  /**
   * The fold succeeds exactly when every rate parses, and otherwise fails with the error
   * of the first entry that does not.
   */
  lemma {:induction false} CollectRatesOutcome(rs: seq<EcbRate>, parse: Parser)
    ensures CollectRates(rs, parse).Ok? <==> AllParse(rs, parse)
    ensures CollectRates(rs, parse).Err? ==>
      exists i :: && FirstUnparsable(rs, parse, i)
                  && CollectRates(rs, parse).error == ParseFailure(rs[i].currency, parse(rs[i].rate).error)
  {
    if rs != [] {
      var p := rs[..|rs| - 1];
      CollectRatesOutcome(p, parse);
      assert forall j :: 0 <= j < |p| ==> p[j] == rs[j];
      if CollectRates(p, parse).Err? {
        var i :| FirstUnparsable(p, parse, i)
          && CollectRates(p, parse).error == ParseFailure(p[i].currency, parse(p[i].rate).error);
        assert FirstUnparsable(rs, parse, i);
      } else if parse(rs[|rs| - 1].rate).Err? {
        assert FirstUnparsable(rs, parse, |rs| - 1);
      }
    }
  }

  /** The keys of a successful fold are exactly the upper-cased input codes. */
  lemma {:induction false} CollectRatesKeys(rs: seq<EcbRate>, parse: Parser)
    requires CollectRates(rs, parse).Ok?
    ensures CollectRates(rs, parse).value.Keys == UpperCodes(rs)
  {
    if rs != [] {
      CollectRatesKeys(rs[..|rs| - 1], parse);
    }
  }

  /** Entry `i` is the last one whose code upper-cases to the same string. */
  predicate LastWithCode(rs: seq<EcbRate>, i: int) {
    && 0 <= i < |rs|
    && forall j :: i < j < |rs| ==> ToUpper(rs[j].currency) != ToUpper(rs[i].currency)
  }

  /** Duplicates, including codes that differ only in case, resolve to the last entry. */
  lemma {:induction false} CollectRatesLastWriteWins(rs: seq<EcbRate>, parse: Parser, i: int)
    requires CollectRates(rs, parse).Ok?
    requires LastWithCode(rs, i)
    ensures ToUpper(rs[i].currency) in CollectRates(rs, parse).value && parse(rs[i].rate).Ok?
    ensures CollectRates(rs, parse).value[ToUpper(rs[i].currency)] == parse(rs[i].rate).value
  {
    var p := rs[..|rs| - 1];
    var m := CollectRates(p, parse).value;
    var last := rs[|rs| - 1];
    assert CollectRates(rs, parse).value == m[ToUpper(last.currency) := parse(last.rate).value];
    if i < |rs| - 1 {
      assert p[i] == rs[i];
      assert LastWithCode(p, i);
      CollectRatesLastWriteWins(p, parse, i);
    }
  }

  // ---------------------------------------------------------------------------
  // What `from_ecb_data` promises.

  /** Every table produced from the feed: base `EUR`, the time string untouched, `EUR` at exactly 1. */
  lemma EcbSnapshotShape(time: string, rs: seq<EcbRate>)
    requires Snapshot(time, rs, ParseDecimal).Ok?
    ensures var d := Snapshot(time, rs, ParseDecimal).value;
      d.base == Euro && d.date == time && Euro in d.rates && d.rates[Euro] == 1.0
  {
  }

  /** Construction fails as a whole, naming the first unparsable entry, exactly when some rate does not parse. */
  lemma EcbSnapshotFailure(time: string, rs: seq<EcbRate>)
    ensures Snapshot(time, rs, ParseDecimal).Err? <==> !AllParse(rs, ParseDecimal)
    ensures Snapshot(time, rs, ParseDecimal).Err? ==>
      exists i :: && FirstUnparsable(rs, ParseDecimal, i)
                  && Snapshot(time, rs, ParseDecimal).error
                     == ParseFailure(rs[i].currency, ParseDecimal(rs[i].rate).error)
  {
    CollectRatesOutcome(rs, ParseDecimal);
  }

  /** The keys are the upper-cased input codes plus `EUR`, so every key comes from the input or is `EUR`. */
  lemma EcbSnapshotKeys(time: string, rs: seq<EcbRate>)
    requires Snapshot(time, rs, ParseDecimal).Ok?
    ensures Snapshot(time, rs, ParseDecimal).value.rates.Keys == UpperCodes(rs) + {Euro}
    ensures forall c :: c in Snapshot(time, rs, ParseDecimal).value.rates ==>
      c == Euro || exists i :: 0 <= i < |rs| && ToUpper(rs[i].currency) == c
  {
    CollectRatesKeys(rs, ParseDecimal);
    forall c | c in UpperCodes(rs) ensures exists i :: 0 <= i < |rs| && ToUpper(rs[i].currency) == c {
      UpperCodesMembers(rs, c);
    }
  }

  /** The key count is the number of distinct upper-cased codes, plus one unless `EUR` is among them. */
  lemma EcbSnapshotKeyCount(time: string, rs: seq<EcbRate>)
    requires Snapshot(time, rs, ParseDecimal).Ok?
    ensures |Snapshot(time, rs, ParseDecimal).value.rates|
      == |UpperCodes(rs)| + (if Euro in UpperCodes(rs) then 0 else 1)
  {
    var d := Snapshot(time, rs, ParseDecimal).value;
    EcbSnapshotKeys(time, rs);
    assert |d.rates| == |d.rates.Keys|;
    if Euro in UpperCodes(rs) {
      assert UpperCodes(rs) + {Euro} == UpperCodes(rs);
    }
  }

  /** A code other than `EUR` carries the rate of its last entry; `EUR` is 1 whatever the feed says. */
  lemma EcbSnapshotLastWriteWins(time: string, rs: seq<EcbRate>, i: int)
    requires Snapshot(time, rs, ParseDecimal).Ok?
    requires LastWithCode(rs, i)
    ensures var d := Snapshot(time, rs, ParseDecimal).value;
      Euro in d.rates && d.rates[Euro] == 1.0
    ensures var d := Snapshot(time, rs, ParseDecimal).value;
      ToUpper(rs[i].currency) != Euro ==>
        && ToUpper(rs[i].currency) in d.rates && ParseDecimal(rs[i].rate).Ok?
        && d.rates[ToUpper(rs[i].currency)] == ParseDecimal(rs[i].rate).value
  {
    CollectRatesLastWriteWins(rs, ParseDecimal, i);
  }

  /** A table whose base and keys are all upper case; the converter's lookups then find its codes. */
  predicate Canonical(d: DailyRate) {
    IsUpper(d.base) && forall c :: c in d.rates ==> IsUpper(c)
  }

  /** Every table built from the feed is canonical. */
  lemma EcbSnapshotCanonical(time: string, rs: seq<EcbRate>)
    requires Snapshot(time, rs, ParseDecimal).Ok?
    ensures Canonical(Snapshot(time, rs, ParseDecimal).value)
  {
    var d := Snapshot(time, rs, ParseDecimal).value;
    EcbSnapshotKeys(time, rs);
    forall c | c in d.rates ensures IsUpper(c) {
      if c != Euro {
        var i :| 0 <= i < |rs| && ToUpper(rs[i].currency) == c;
        ToUpperIsUpper(rs[i].currency);
      }
    }
  }

  /**
   * `DailyRate::validate_date`. The calendar check (chrono's `%Y-%m-%d` parse) is a
   * library call and is passed in as `parseDate`, which yields the parser's error text.
   */
  function ValidateDate(d: DailyRate, parseDate: string -> Result<(), string>): (r: Result<(), string>)
    ensures r.Ok? <==> parseDate(d.date).Ok?
    ensures r.Err? ==> r.error == "Invalid date format: " + parseDate(d.date).error
  {
    match parseDate(d.date)
    case Err(e) => Err("Invalid date format: " + e)
    case Ok(_) => Ok(())
  }

  /** A one-entry feed: the code is upper-cased and `EUR` is added at 1. */
  lemma SampleEcbSnapshot(time: string)
    ensures Snapshot(time, [EcbRate("usd", "1.05")], ParseDecimal)
         == Ok(DailyRate(time, Euro, map["USD" := 1.05, Euro := 1.0]))
  {
    var rs := [EcbRate("usd", "1.05")];
    assert rs[..0] == [];
    ParseFraction();
    assert ToUpper("usd") == ['U', 'S', 'D'];
    assert CollectRates(rs, ParseDecimal) == Ok(map["USD" := 1.05]);
  }

  /** A rate that is not a decimal literal fails the snapshot, naming the code as the feed spells it. */
  lemma SampleEcbFailure(time: string)
    ensures Snapshot(time, [EcbRate("usd", "abc")], ParseDecimal)
         == Err(ParseFailure("usd", "invalid decimal literal"))
  {
    var rs := [EcbRate("usd", "abc")];
    assert rs[..0] == [];
    RejectedLiterals();
    assert CollectRates(rs, ParseDecimal) == Err(ParseFailure("usd", "invalid decimal literal"));
  }
}
