/**
 * The service's error type and its HTTP rendering: every variant maps to one status
 * code and one public message, sent as a JSON body with a single `error` field.
 */
module Error {

  /**
   * `ApiError`. `CalculationError` is raised by the converter although the enum
   * declaring the other seven variants does not list it.
   */
  datatype ApiError =
    | CurrencyNotFound(code: string)
    | NoRatesAvailable
    | ValidationError(detail: string)
    | EcbFetchError(detail: string)
    | RedisError(detail: string)
    | XmlParseError(detail: string)
    | InternalError(detail: string)
    | CalculationError(detail: string)

  /** The variants the enum declares, for which a status and a message are defined. */
  predicate Declared(e: ApiError) {
    !e.CalculationError?
  }

  const NotFound: nat := 404
  const ServiceUnavailable: nat := 503
  const BadRequest: nat := 400
  const InternalServerError: nat := 500

  /** The `Display` text of each declared variant (its `#[error(...)]` format). */
  function Display(e: ApiError): (s: string)
    requires Declared(e)
    ensures e.CurrencyNotFound? ==> |s| >= 15 + |e.code| && s[15..15 + |e.code|] == e.code
    ensures !e.CurrencyNotFound? && !e.NoRatesAvailable? ==>
      |s| > |e.detail| && s[|s| - |e.detail|..] == e.detail
  {
    match e
    case CurrencyNotFound(c) => "Currency code '" + c + "' not found in exchange rates"
    case NoRatesAvailable => "No exchange rates available. Please try again later."
    case ValidationError(m) => "Invalid parameter: " + m
    case EcbFetchError(m) => "Failed to fetch ECB data: " + m
    case RedisError(m) => "Redis error: " + m
    case XmlParseError(m) => "XML parse error: " + m
    case InternalError(m) => "Internal server error: " + m
  }

  /** The JSON body `{"error": ...}`. */
  datatype ErrorBody = ErrorBody(error: string)

  datatype Response = Response(status: nat, body: ErrorBody)

  /** The fixed messages that replace the detail of every 5xx error. */
  const GenericServerMessages: set<string> := {
    "Failed to fetch exchange rates",
    "Database connection error",
    "Failed to parse exchange rate data",
    "Internal server error"
  }

  predicate IsServerFailure(e: ApiError) {
    e.EcbFetchError? || e.RedisError? || e.XmlParseError? || e.InternalError?
  }

  /** `IntoResponse::into_response` for `ApiError`. */
  function IntoResponse(e: ApiError): (r: Response)
    requires Declared(e)
    ensures r.status == NotFound <==> e.CurrencyNotFound?
    ensures r.status == ServiceUnavailable <==> e.NoRatesAvailable?
    ensures r.status == BadRequest <==> e.ValidationError?
    ensures r.status == InternalServerError <==> IsServerFailure(e)
    ensures !IsServerFailure(e) ==> r.body.error == Display(e)
    ensures IsServerFailure(e) ==> r.body.error in GenericServerMessages
    ensures e.NoRatesAvailable? ==> r.body.error == "No exchange rates available. Please try again later."
    ensures e.EcbFetchError? ==> r.body.error == "Failed to fetch exchange rates"
    ensures e.RedisError? ==> r.body.error == "Database connection error"
    ensures e.XmlParseError? ==> r.body.error == "Failed to parse exchange rate data"
    ensures e.InternalError? ==> r.body.error == "Internal server error"
    ensures e.CurrencyNotFound? ==>
      r.body.error == "Currency code '" + e.code + "' not found in exchange rates"
    ensures e.ValidationError? ==> r.body.error == "Invalid parameter: " + e.detail
  {
    match e
    case CurrencyNotFound(_) => Response(NotFound, ErrorBody(Display(e)))
    case NoRatesAvailable => Response(ServiceUnavailable, ErrorBody(Display(e)))
    case ValidationError(_) => Response(BadRequest, ErrorBody(Display(e)))
    case EcbFetchError(_) => Response(InternalServerError, ErrorBody("Failed to fetch exchange rates"))
    case RedisError(_) => Response(InternalServerError, ErrorBody("Database connection error"))
    case XmlParseError(_) => Response(InternalServerError, ErrorBody("Failed to parse exchange rate data"))
    case InternalError(_) => Response(InternalServerError, ErrorBody("Internal server error"))
  }

  /** The same variant with its detail replaced. */
  function WithDetail(e: ApiError, detail: string): (e': ApiError)
    requires IsServerFailure(e)
    ensures IsServerFailure(e')
  {
    match e
    case EcbFetchError(_) => EcbFetchError(detail)
    case RedisError(_) => RedisError(detail)
    case XmlParseError(_) => XmlParseError(detail)
    case InternalError(_) => InternalError(detail)
  }

  /** A 5xx response never depends on the error's detail, so the detail is never echoed. */
  lemma ServerFailureHidesDetail(e: ApiError, detail: string)
    requires IsServerFailure(e)
    ensures IntoResponse(WithDetail(e, detail)) == IntoResponse(e)
  {
  }

  /** A `ValidationError` response (400) always carries the validation detail. */
  lemma ValidationMessageCarriesDetail(m: string)
    ensures var msg := IntoResponse(ValidationError(m)).body.error;
      |msg| >= |m| && msg[|msg| - |m|..] == m
  {
  }

  /** `From<anyhow::Error>`: any other error becomes an internal error carrying its text. */
  function FromAnyhow(text: string): (e: ApiError)
    ensures e.InternalError? && e.detail == text
  {
    InternalError(text)
  }

  /** Whatever the text of an `anyhow` error, the client sees a generic 500. */
  lemma AnyhowIsGeneric500(text: string)
    ensures IntoResponse(FromAnyhow(text)) == Response(InternalServerError, ErrorBody("Internal server error"))
  {
  }
}
