# Currency converter core, in Dafny

This models the core of `currency-converter-api`, a small HTTP service. Once a day it fetches the
European Central Bank's reference rates. It stores them as one daily table, with `EUR` as the base,
and answers two kinds of request: the latest rates, optionally against another base, and the
conversion of an amount from one currency into another.

The model covers four parts of the service:

- **The rate table** (`Rate`). `DailyRate` holds a date string, a base code and a map from currency
  code to rate. `FromEcbData` turns the feed's `(currency, rate-text)` entries into a table. It works
  the way `from_ecb_data` does: a loop that parses each rate and upper-cases each code, then the
  forced entry `EUR ↦ 1`. `FromEcbData` is proved equal to the fold `Snapshot`, and the properties of
  the constructor are lemmas about that fold.
- **The converter** (`Converter`).
  - `ConvertCurrency` computes the cross rate `to_rate / from_rate`, where the base has the implicit
    rate 1, and multiplies the amount by it.
  - `RebaseRates` is a method with the source's loop over the map's keys. It visits the keys in an
    unspecified order, as a `HashMap` does. It is proved equal to the order-independent table
    `RebasedRates` whenever every division succeeds.
  - A lemma shows that rebasing agrees with direct conversion.
- **Request parameters** (`Api`): the length-3 rule on currency codes and `parse_amount`.
- **Errors** (`Error`): `ApiError` and its rendering as an HTTP status plus a JSON body
  `{"error": …}`.

Supporting modules:

- `Decimals` models `rust_decimal::Decimal` as exact rationals bounded by its largest magnitude,
  2^96 − 1. It provides the checked division and multiplication the converter uses, and a parser for
  plain decimal literals.
- `Text` models ASCII upper-casing.
- `Wrappers` holds `Option` and `Result`.

Two points where the code decides what the model does:

- **The base can be a key of its own table.** `from_ecb_data` inserts `EUR` into the table whose base
  is `EUR` (`src/models/rate.rs:59`), and the converter's test table does the same. The model follows
  the code. It does not assume the base is absent from the map. Only a rebased table is guaranteed not
  to list its own base.
- **`CalculationError` is added.** The converter raises `ApiError::CalculationError`, but the enum in
  `src/error.rs` does not declare it. The model adds the variant and leaves its HTTP rendering
  undefined: `Display` and `IntoResponse` require a declared variant.

## Model

| member | source | states |
|---|---|---|
| Text.ToUpper | src/services/converter.rs:19-20 | upper-casing keeps the length and maps each character independently: `a`..`z` to `A`..`Z`, everything else unchanged |
| Text.ToUpperIsUpper | src/services/converter.rs:19-20 | upper-casing a code is idempotent, so an upper-cased code is its own upper-case form |
| Decimals.CheckedDiv | src/services/converter.rs:50-52 | `checked_div` fails on a zero divisor and on an unrepresentable quotient, and otherwise returns `q` with `q * b == a` |
| Decimals.CheckedMul | src/services/converter.rs:55-57 | `checked_mul` succeeds exactly when the product is representable and then returns it; multiplying by 1 always succeeds |
| Decimals.ParseDecimal | src/models/api.rs:36 | parsing the empty string fails; a parsed value without a leading `-` is never negative |
| Decimals.ParseDigits | src/models/api.rs:36 | a literal of digits alone parses to the number those digits spell, when that number is at most 2^96 − 1 |
| Decimals.ParseNegated | src/models/api.rs:36 | a leading `-` on a parsable unsigned literal parses to the negated value |
| Decimals.ParseFraction | src/models/rate.rs:51-53 | the rate text `1.05` parses to 1.05 |
| Decimals.RejectedLiterals | src/models/rate.rs:51-54 | `abc` and `1.2.3` are not decimal literals and fail to parse |
| Error.IntoResponse | src/error.rs:33-75 | 404 exactly for `CurrencyNotFound`, 503 exactly for `NoRatesAvailable`, 400 exactly for `ValidationError`, 500 exactly for the four server failures; the 404, 503 and 400 bodies are the error's display text (the 503 text spelled out); each 500 variant has its own fixed generic message, never its detail |
| Error.Display | src/error.rs:11-30 | the display text of `CurrencyNotFound(c)` contains `c` after its fixed prefix; every variant carrying a detail ends its text with that detail |
| Error.ServerFailureHidesDetail | src/error.rs:39-66 | a 500 response is the same whatever detail the error carries, so the detail is never echoed |
| Error.ValidationMessageCarriesDetail | src/error.rs:38 | the 400 body of `ValidationError(m)` ends with `m` |
| Error.FromAnyhow | src/error.rs:78-82 | an `anyhow` error becomes `InternalError` carrying its text |
| Error.AnyhowIsGeneric500 | src/error.rs:60-66 | whatever its text, an `anyhow` error is answered with 500 and "Internal server error" |
| Rate.FromEcbData | src/models/rate.rs:46-66 | the constructor's loop computes exactly the fold `Snapshot` of the entries with the decimal parser |
| Rate.ParseFailure | src/models/rate.rs:54 | the parse error text carries the currency as given, after the fixed prefix, and ends with the parser's message |
| Rate.CollectRatesErrSticks | src/models/rate.rs:50-54 | once a prefix of the feed fails to parse, the whole feed fails with the same error (the loop's early return) |
| Rate.CollectRatesOutcome | src/models/rate.rs:50-54 | the fold succeeds exactly when every rate parses; otherwise its error names the first unparsable entry's code and parser message |
| Rate.CollectRatesKeys | src/models/rate.rs:55 | the keys of a successful fold are exactly the upper-cased input codes |
| Rate.UpperCodesMembers | src/models/rate.rs:55 | a string is among the upper-cased codes exactly when some entry's code upper-cases to it |
| Rate.CollectRatesLastWriteWins | src/models/rate.rs:50-56 | for duplicate codes, including codes that differ only in case, the last entry's rate is the one kept |
| Rate.EcbSnapshotShape | src/models/rate.rs:58-65 | a built table has base `EUR`, the input time string as its date, and `EUR ↦ 1` |
| Rate.EcbSnapshotFailure | src/models/rate.rs:50-54 | construction fails as a whole exactly when some rate does not parse, and its error names the first such entry |
| Rate.EcbSnapshotKeys | src/models/rate.rs:55-59 | the keys are the upper-cased input codes plus `EUR`, so every key is `EUR` or the upper-cased form of an input code |
| Rate.EcbSnapshotKeyCount | src/models/rate.rs:47-59 | the key count is the number of distinct upper-cased codes, plus one unless `EUR` is among them |
| Rate.EcbSnapshotLastWriteWins | src/models/rate.rs:50-59 | a code other than `EUR` carries the rate of its last entry; `EUR` is 1 whatever the feed lists for it |
| Rate.EcbSnapshotCanonical | src/models/rate.rs:55-63 | every built table has an upper-case base and upper-case keys |
| Rate.ValidateDate | src/models/rate.rs:69-73 | succeeds exactly when the date parses; otherwise the error is "Invalid date format: " followed by the parser's message |
| Rate.SampleEcbSnapshot | src/models/rate.rs:46-66 | the feed `[usd ↦ "1.05"]` gives the table `{USD ↦ 1.05, EUR ↦ 1}` with base `EUR` |
| Rate.SampleEcbFailure | src/models/rate.rs:51-54 | the feed `[usd ↦ "abc"]` fails with "Failed to parse rate for usd: …", naming the code as the feed spells it |
| Api.ValidateLatest | src/models/api.rs:16-20 | `LatestRatesQuery` is valid exactly when `base` is absent or has length 3 |
| Api.ValidateConvert | src/models/api.rs:23-30 | `from` and `to` are each reported exactly when their length is not 3; the query is valid exactly when both have length 3 |
| Api.ParseAmount | src/models/api.rs:34-43 | succeeds exactly when the amount parses to a value ≥ 0 and returns that value; an unparsable amount gives "Invalid amount format: " and the parser's message; a negative one gives "Amount must be non-negative" |
| Api.UnsignedAmountAccepted | src/models/api.rs:38-42 | an amount without a leading `-` is accepted whenever it parses |
| Api.NegatedAmountRejected | src/models/api.rs:38-40 | negating an accepted positive amount turns acceptance into the non-negativity error |
| Api.ZeroAmountAccepted | src/models/api.rs:35-43 | the amount `0` is accepted as zero |
| Converter.RateFromBase | src/services/converter.rs:29-46 | the base has rate 1 whatever the map lists for it; any other code has its listed rate; a code that is neither is not found |
| Converter.ConvertCurrency | src/services/converter.rs:13-60 | codes equal after upper-casing give `(amount, 1)` with no lookup, even when unknown; a successful conversion between distinct codes has both codes known |
| Converter.ConvertNotFound | src/services/converter.rs:29-46 | between distinct codes, the result is `CurrencyNotFound(c)` exactly when `c` is the upper-cased first unknown code, `from` before `to` |
| Converter.ConvertCaseInsensitive | src/services/converter.rs:19-20 | converting with the upper-cased codes gives the same outcome as the codes as given |
| Converter.ConvertSuccess | src/services/converter.rs:50-59 | a successful conversion between distinct codes has a nonzero `from` rate; its rate times that rate is the `to` rate, and its result is the amount times its rate |
| Converter.ConvertSucceeds | src/services/converter.rs:50-59 | between known distinct codes, conversion succeeds exactly when the `from` rate is nonzero and both the cross rate and the converted amount are representable |
| Converter.UpperConvertSucceeds | src/services/converter.rs:50-59 | the same equivalence, for codes already in upper case |
| Converter.ConvertCalculationError | src/services/converter.rs:50-57 | between known distinct codes every failure is a `CalculationError`; "Division by zero or overflow in conversion" when the `from` rate is zero or the quotient is out of range, "Overflow in amount calculation" when only the product is |
| Converter.CrossRateConsistency | src/services/converter.rs:48-52 | the rate of `a → b` times the rate of `b → c` equals the rate of `a → c` (exact arithmetic) |
| Converter.ReciprocalRates | src/services/converter.rs:48-52 | for distinct upper-case codes, the rates of `a → b` and `b → a` multiply to 1 (exact arithmetic); the general case is `CrossRateConsistency(d, a, b, a)` |
| Converter.RebaseRates | src/services/converter.rs:70-112 | identity when the upper-cased new base is the base; `CurrencyNotFound` when it is not a key; "Division by zero in rebase" when `1 / r` fails; "Division error for c" naming a failing key; otherwise date kept, new base, keys `(keys − {X}) ∪ {old base}`, every other key `rate / r`, old base `1 / r` unless it was listed |
| Converter.RebaseAgreesWithConvert | src/services/converter.rs:88-103 | for a table whose base and keys are upper case and whose listed base rate, if any, is 1, every rate of the table rebased onto one of its keys equals the rate of converting one unit of the new base into that code |
| Converter.RebasePreservesCanonical | src/services/converter.rs:107-111 | rebasing a table whose base and keys are upper case onto one of its keys keeps the base and keys upper case |
| Converter.EcbRebaseAgreesWithConvert | src/models/rate.rs:59-64 | for every table built from the feed, rebasing agrees with conversion |
| Converter.SampleTable | src/services/converter.rs:119-131 | the test table (USD 1.05, GBP 0.85, JPY 158.2, EUR 1, base EUR) has upper-case codes |
| Converter.SampleSameCurrency | src/services/converter.rs:134-140 | USD to USD returns 100 at rate 1 |
| Converter.SampleToAndFromBase | src/services/converter.rs:143-176 | USD to EUR uses rate 1 / 1.05; EUR to USD gives 105 at rate 1.05 |
| Converter.SampleCross | src/services/converter.rs:156-166 | USD to JPY uses rate 158.2 / 1.05; lower-case `usd` to `gbp` uses rate 0.85 / 1.05 |
| Converter.SampleUnknown | src/services/converter.rs:179-190 | USD to XXX fails with `CurrencyNotFound("XXX")` |
| Converter.SampleRebase | src/services/converter.rs:201-229 | rebasing onto USD succeeds with keys EUR, GBP and JPY (no USD), EUR at 1 / 1.05 and JPY at 158.2 / 1.05 |

## Left out

- HTTP handlers, routing, the Redis store, the ECB fetcher's HTTP and XML parsing, the cron scheduler,
  configuration and start-up are all I/O. They only pass tables and queries to the functions modelled
  here.
- Decimal rounding: rust_decimal keeps at most 28 fractional digits and rounds. The model computes
  with exact rationals, so no rounding error appears. Only overflow beyond 2^96 − 1 is modelled.
- Converter.CrossRateConsistency: this holds of the exact-arithmetic model only. Under rust_decimal's
  rounding the product can differ from the direct rate in its last digit.
- Converter.ReciprocalRates: likewise, this holds in exact arithmetic only.
- Decimals.ParseDecimal is weaker than `Decimal::from_str`.
  - It accepts only plain literals: an optional sign, digits and at most one point.
  - It does not accept underscores or scientific notation.
  - It accepts any number of fractional digits and keeps their exact value, where the library rounds
    beyond 28 fractional digits.
  - Its error messages ("empty", "invalid decimal literal", "value out of range") stand in for the
    library's own wording.
- Text.ToUpper upper-cases ASCII letters only. Rust's `to_uppercase` also maps other Unicode letters,
  and some of them to several characters.
- Error.IntoResponse and Error.Display are undefined for `CalculationError`, which the error enum does
  not declare. Its status and message are therefore not modelled.
- Rate.ValidateDate takes chrono's `%Y-%m-%d` parser as a parameter. The calendar rules are not
  modelled.
- Error.IntoResponse, Error.Display: `RedisError` carries its detail as text, standing in for the
  `redis::RedisError` value it wraps; the `From<redis::RedisError>` conversion is not modelled, since it
  belongs to the Redis client library.
- Logging through `tracing::error!` in `into_response` is not modelled.
- Converter.RebaseRates: when several divisions fail, the key named in the error depends on the map's
  iteration order. The model states only that some failing key is named.
- The service keeps no in-memory snapshot and has no atomic swap, single-flight refresh or staleness
  tracking. None of these is modelled.
