/**
 * Request checks of the payment routes (src/backend/routes/paymentRoutes.js):
 * the `validatePaymentRequest` middleware in front of `/process`, and the
 * timeframe check of the `/profit` handler.
 */
module PaymentRoutes {
  import opened Js
  import opened Wrappers
  import PaymentController

  /** A JSON error response: `res.status(status).json({ error, message })`. */
  datatype ErrorResponse = ErrorResponse(status: int, error: string, message: string)

  /** What a middleware does: pass the request on with `next()`, or answer it. */
  datatype Verdict = Next | Respond(response: ErrorResponse)

  const MissingFields := ErrorResponse(400, "Invalid request", "Amount and currency are required")
  const BadAmount := ErrorResponse(400, "Invalid amount", "Amount must be a positive number")

  /** `typeof amount === 'number' && amount > 0`. */
  predicate IsPositiveNumber(v: Value) {
    v.Num? && v.n > 0
  }

  /**
   * `validatePaymentRequest` on the parsed JSON body: the missing-field check
   * comes first, then the amount check, and only a request that passes both
   * reaches `next()`.
   */
  function ValidatePaymentRequest(body: map<string, Value>): (r: Verdict)
    ensures !Truthy(Get(body, "amount")) || !Truthy(Get(body, "currency")) ==> r == Respond(MissingFields)
    ensures Truthy(Get(body, "amount")) && Truthy(Get(body, "currency")) && !IsPositiveNumber(Get(body, "amount"))
      ==> r == Respond(BadAmount)
    ensures r.Next? <==> IsPositiveNumber(Get(body, "amount")) && Truthy(Get(body, "currency"))
    ensures r.Respond? ==> r.response.status == 400
  {
    var amount, currency := Get(body, "amount"), Get(body, "currency");
    if !Truthy(amount) || !Truthy(currency) then Respond(MissingFields)
    else if !amount.Num? || amount.n <= 0 then Respond(BadAmount)
    else Next
  }

  /** An amount of 0 is caught by the missing-field check, not by the amount check. */
  lemma ZeroAmountIsMissing(body: map<string, Value>)
    requires Get(body, "amount") == Num(0)
    ensures ValidatePaymentRequest(body) == Respond(MissingFields)
  {
  }

  /**
   * A request the middleware lets through is never refused by `processPayment`
   * as "Invalid payment data".
   */
  lemma ValidatedRequestIsProcessed(body: map<string, Value>)
    requires ValidatePaymentRequest(body).Next?
    ensures Get(body, "amount").Num?
    ensures PaymentController.IsValidPayment(
      PaymentController.PaymentData(Some(Get(body, "amount").n), Get(body, "currency"), Get(body, "metadata")))
  {
  }

  /** The timeframes `/profit` accepts. */
  const ValidTimeframes: seq<string> := ["day", "week", "month", "year", "all"]

  /** `parts.join(separator)`. */
  function Join(parts: seq<string>, separator: string): string {
    if parts == [] then ""
    else if |parts| == 1 then parts[0]
    else parts[0] + separator + Join(parts[1..], separator)
  }

  /** The 400 answer for a timeframe outside the list. */
  function BadTimeframe(): ErrorResponse {
    ErrorResponse(400, "Invalid timeframe", "Timeframe must be one of: " + Join(ValidTimeframes, ", "))
  }

  /**
   * The check at the start of the `/profit` handler: an absent (or empty)
   * timeframe means 'all'; a timeframe outside the list is answered with 400,
   * and `Ok(timeframe)` is the argument `getNetProfit` is then called with.
   */
  function ResolveTimeframe(param: Option<string>): (r: Result<string, ErrorResponse>)
    ensures param.None? || param.value == "" ==> r == Ok("all")
    ensures r.Ok? ==> r.value in ValidTimeframes
    ensures r.Ok? <==> param.None? || param.value == "" || param.value in ValidTimeframes
    ensures r.Ok? && param.Some? && param.value != "" ==> r.value == param.value
    ensures r.Err? ==> r.error == BadTimeframe()
  {
    var timeframe := if param.Some? && param.value != "" then param.value else "all";
    if timeframe in ValidTimeframes then Ok(timeframe) else Err(BadTimeframe())
  }

  /** Joining a list of two or more parts puts the separator after the first. */
  lemma JoinCons(first: string, rest: seq<string>, separator: string)
    requires rest != []
    ensures Join([first] + rest, separator) == first + separator + Join(rest, separator)
  {
    assert ([first] + rest)[1..] == rest;
  }

  /** The message lists the accepted timeframes, separated by commas. */
  lemma BadTimeframeMessage()
    ensures BadTimeframe().message == "Timeframe must be one of: day, week, month, year, all"
  {
    var sep := ", ";
    assert ValidTimeframes == ["day"] + (["week"] + (["month"] + (["year"] + ["all"])));
    JoinCons("year", ["all"], sep);
    JoinCons("month", ["year"] + ["all"], sep);
    JoinCons("week", ["month"] + (["year"] + ["all"]), sep);
    JoinCons("day", ["week"] + (["month"] + (["year"] + ["all"])), sep);
  }
}
