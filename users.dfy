/**
 * The account client's response classification: `Create` and `Confirm` turn
 * the outcome of one HTTP request into `nil` or an application error. Building
 * and sending the request is not part of this model; its outcome is the input.
 */
module Users {
  import opened Wrappers
  import opened Text

  /** The three error codes of the client. */
  datatype ErrorCode = RequestFailed | UnexpectedError | ValidationFailed

  /** The string constant behind each code. */
  function CodeString(c: ErrorCode): string {
    match c
    case RequestFailed => "request_failed"
    case UnexpectedError => "unexpected_error"
    case ValidationFailed => "validation_failed"
  }

  /** Distinct codes have distinct strings, so callers can switch on the string. */
  lemma CodeStringInjective(a: ErrorCode, b: ErrorCode)
    ensures CodeString(a) == CodeString(b) <==> a == b
  {
    if a != b {
      assert CodeString(a)[0] != CodeString(b)[0];
    }
  }

  /** An application error: its code, the underlying error if any, a message and whether to retry. */
  datatype AppError = AppError(code: ErrorCode, cause: Option<Cause>, message: string, retryable: bool)

  /** A decoded JSON value (`interface{}` after `encoding/json`). */
  datatype Json =
    | JNull
    | JBool(b: bool)
    | JNumber(n: real)
    | JString(s: string)
    | JArray(items: seq<Json>)
    | JObject(fields: map<string, Json>)

  /** A body decoded into `map[string]interface{}`. */
  type JsonObject = map<string, Json>

  /**
   * A response body, as the two ways of consuming it see it: read as text
   * (`ToString`) or decoded as a JSON object (`FromJsonTo`). Either can fail.
   */
  datatype Body = Body(text: Result<string, Cause>, decoded: Result<JsonObject, Cause>)

  /** What one request produced: a transport error, or a status code and a body. */
  datatype Outcome =
    | TransportError(err: Cause)
    | Response(status: int, body: Body)

  const StatusOK := 200
  const StatusCreated := 201
  const StatusUnprocessable := 422

  /** The retry convention: input rejected by the server is final, everything else may be retried. */
  predicate Conventional(e: AppError) {
    e.retryable <==> e.code != ValidationFailed
  }

  /** `j["error"] == "invalid_params"`: the key is present and holds that JSON string. */
  predicate InvalidParams(j: JsonObject) {
    "error" in j && j["error"] == JString("invalid_params")
  }

  /** A response `Create` accepts for classification: 201 or 422. */
  predicate CreateStatus(o: Outcome) {
    o.Response? && (o.status == StatusCreated || o.status == StatusUnprocessable)
  }

  /**
   * `users.Create` after the request: classify its outcome. `render` stands for
   * `util.ValidationErrorsToString`, which turns a 422 body into a display message.
   */
  function Create(o: Outcome, render: JsonObject -> string): (r: Option<AppError>)
    ensures r.Some? ==> Conventional(r.value)
    ensures r == None <==> CreateStatus(o) && o.status == StatusCreated && o.body.decoded.Ok?
    ensures r.Some? && r.value.code == RequestFailed <==> o.TransportError?
    ensures o.TransportError? ==> r == Some(AppError(RequestFailed, Some(o.err), "", true))
    ensures r.Some? && r.value.code == ValidationFailed <==>
      CreateStatus(o) && o.status == StatusUnprocessable && o.body.decoded.Ok? && InvalidParams(o.body.decoded.value)
    ensures r.Some? && r.value.code == ValidationFailed ==>
      r.value.cause == None && r.value.message == render(o.body.decoded.value)
    ensures r.Some? && r.value.code == UnexpectedError ==>
      r.value.message == "" &&
      r.value.cause == (if CreateStatus(o) && o.body.decoded.Err? then Some(o.body.decoded.error) else None)
  {
    match o
    case TransportError(err) => Some(AppError(RequestFailed, Some(err), "", true))
    case Response(status, body) =>
      if status != StatusUnprocessable && status != StatusCreated then
        Some(AppError(UnexpectedError, None, "", true))
      else match body.decoded
        case Err(decodeErr) => Some(AppError(UnexpectedError, Some(decodeErr), "", true))
        case Ok(j) =>
          if status == StatusUnprocessable then
            if InvalidParams(j) then Some(AppError(ValidationFailed, None, render(j), false))
            else Some(AppError(UnexpectedError, None, "", true))
          else None
  }

  /** The server text that marks a wrong confirmation code. */
  const IncorrectCodeMarker := "invalid email or confirmation_code"

  /** The message shown for a wrong confirmation code. */
  const IncorrectCodeMessage := "You've entered an incorrect confirmation code. Please try again."

  /** A response `Confirm` accepts for classification: 200 or 422. */
  predicate ConfirmStatus(o: Outcome) {
    o.Response? && (o.status == StatusOK || o.status == StatusUnprocessable)
  }

  /**
   * `users.Confirm` after the request: classify its outcome. A 200 is success
   * without looking at the body; a 422 body is read as text and searched for
   * the wrong-code marker.
   */
  function Confirm(o: Outcome): (r: Option<AppError>)
    ensures r.Some? ==> Conventional(r.value)
    ensures r == None <==> o.Response? && o.status == StatusOK
    ensures r.Some? && r.value.code == RequestFailed <==> o.TransportError?
    ensures o.TransportError? ==> r == Some(AppError(RequestFailed, Some(o.err), "", true))
    ensures r.Some? && r.value.code == ValidationFailed <==>
      o.Response? && o.status == StatusUnprocessable && o.body.text.Ok? &&
      exists i :: OccursAt(o.body.text.value, IncorrectCodeMarker, i)
    ensures r.Some? && r.value.code == ValidationFailed ==>
      r.value.cause == None && r.value.message == IncorrectCodeMessage
    ensures r.Some? && r.value.code == UnexpectedError && ConfirmStatus(o) ==>
      (o.body.text.Err? ==> r.value.cause == Some(o.body.text.error) && r.value.message == "") &&
      (o.body.text.Ok? ==> r.value.cause == None && r.value.message == o.body.text.value)
    ensures r.Some? && r.value.code == UnexpectedError && !ConfirmStatus(o) ==>
      r.value.cause == None && r.value.message == ""
  {
    match o
    case TransportError(err) => Some(AppError(RequestFailed, Some(err), "", true))
    case Response(status, body) =>
      if status != StatusUnprocessable && status != StatusOK then
        Some(AppError(UnexpectedError, None, "", true))
      else if status == StatusUnprocessable then
        match body.text
        case Err(readErr) => Some(AppError(UnexpectedError, Some(readErr), "", true))
        case Ok(resText) =>
          ContainsIff(resText, IncorrectCodeMarker);
          if Contains(resText, IncorrectCodeMarker) then
            Some(AppError(ValidationFailed, None, IncorrectCodeMessage, false))
          else Some(AppError(UnexpectedError, None, resText, true))
      else None
  }

  /** A 422 whose body text carries the wrong-code marker anywhere is a validation failure, whatever the decoded view. */
  lemma ConfirmWrongCode(text: string, i: int, decoded: Result<JsonObject, Cause>)
    requires OccursAt(text, IncorrectCodeMarker, i)
    ensures Confirm(Response(StatusUnprocessable, Body(Ok(text), decoded))) ==
      Some(AppError(ValidationFailed, None, IncorrectCodeMessage, false))
  {
  }

  /** The server's answer to a wrong confirmation code, as a JSON body, carries the marker. */
  lemma WrongCodeBodyCarriesMarker(text: string)
    requires text == "{\"error\":\"invalid_params\",\"error_description\":\"" + IncorrectCodeMarker + "\"}"
    ensures exists i :: OccursAt(text, IncorrectCodeMarker, i)
  {
    var prefix := "{\"error\":\"invalid_params\",\"error_description\":\"";
    assert text[|prefix|..|prefix| + |IncorrectCodeMarker|] == IncorrectCodeMarker;
    assert OccursAt(text, IncorrectCodeMarker, |prefix|);
  }

  /** A 200 to `Confirm` is success even when the body reports the account as not confirmed. */
  lemma ConfirmIgnoresConfirmedField(text: string)
    requires text == "{\"confirmed\":false}"
    ensures Confirm(Response(StatusOK, Body(Ok(text), Ok(map["confirmed" := JBool(false)])))) == None
  {
  }
}
