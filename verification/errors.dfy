/** The exceptions the extractor raises, as one tagged union, and the
    classification of Salesforce error bodies. */
module Errors {
  import opened Base
  import opened Json
  import Text

  /** Built-in Python exceptions the modelled code can raise. */
  datatype PyError =
    | KeyError
    | IndexError
    | TypeError
    | ValueError
    | AttributeError
    | ZeroDivisionError
    | RecursionError

  /** Which of the two quota ceilings was crossed. */
  datatype QuotaReason = DailyTotal | PerRun

  datatype Exc =
    | QuotaExceeded(reason: QuotaReason)
    | OauthFailed
    | InvalidCredentials
    | QueryLengthExceeded(table: string)
    /** `SalesforceException(message, code)`; a missing code is `Null`. */
    | Salesforce(message: Json, code: Json)
    | PrimaryKeyNotMatch(expected: Json, found: Json)
    /** `requests.HTTPError` from `raise_for_status`, with the parsed body. */
    | HttpError(status: int, body: Json)
    | Python(kind: PyError)

  datatype Result<+T> = Ok(value: T) | Err(error: Exc)

  /** Subclasses of `TapSalesforceException`. */
  predicate IsTapSalesforceException(e: Exc)
  {
    e.QuotaExceeded? || e.OauthFailed? || e.InvalidCredentials?
  }

  predicate IsSalesforceException(e: Exc)
  {
    e.Salesforce?
  }

  /** `QueryLengthExceedLimit` derives from `Exception` directly. */
  lemma QueryLengthIsNotTapOrSalesforce(table: string)
    ensures !IsTapSalesforceException(QueryLengthExceeded(table))
    ensures !IsSalesforceException(QueryLengthExceeded(table))
  {
  }

  /** The shape of body that carries a Salesforce error: a non-empty list
      whose first element is an object with a non-null `message`. */
  predicate IsErrorBody(j: Json)
  {
    j.Arr? && |j.items| > 0 && j.items[0].Obj? && Get(j.items[0].fields, "message") != Null
  }

  /** `build_salesforce_exception`: `body` is `None` when the response body
      is not valid JSON. */
  function BuildSalesforceException(status: int, body: Option<Json>): (r: Option<Exc>)
    ensures r.Some? ==> IsSalesforceException(r.value)
    ensures body.None? ==>
              r == Some(Salesforce(Str("response code: " + Text.IntToString(status)), Str("UNKNOWN")))
    ensures body.Some? ==> (r.Some? <==> IsErrorBody(body.value))
    ensures body.Some? && r.Some? ==>
              var first := body.value.items[0].fields;
              r.value.message == first["message"] && r.value.code == Get(first, "errorCode")
  {
    match body
    case None =>
      Some(Salesforce(Str("response code: " + Text.IntToString(status)), Str("UNKNOWN")))
    case Some(errArray) =>
      if !errArray.Arr? then None
      else if |errArray.items| < 1 then None
      else
        var errDict := errArray.items[0];
        if !errDict.Obj? then None
        else
          var msg := Get(errDict.fields, "message");
          if msg == Null then None
          else Some(Salesforce(msg, Get(errDict.fields, "errorCode")))
  }

  /** Only the first element of an error list is consulted, and the status
      code matters only when the body could not be parsed. */
  lemma OnlyFirstErrorConsulted(status: int, status': int, first: Json, rest: seq<Json>)
    ensures BuildSalesforceException(status, Some(Arr([first] + rest)))
         == BuildSalesforceException(status', Some(Arr([first])))
  {
  }
}
