/**
 * The reply envelopes of `ApiResponse`: a JSON object with a `status`, a
 * `message` that falls back to a default when the caller passes null, and one
 * optional field. Writing the envelope to the HTTP response is reduced to the
 * status code and the object.
 */
module ApiResponse {
  import opened Wrappers
  import opened Json

  const DEFAULT_SUCCESS_MESSAGE := "Operation successful"
  const DEFAULT_ERROR_MESSAGE := "Operation failed"

  /** What a handler writes: the HTTP status code and the JSON body. */
  datatype Response = Response(statusCode: int, body: Object)

  /** `success(ctx, data, message, statusCode)`. */
  function Success(data: Option<Json>, message: Option<string>, statusCode: int): (r: Response)
    ensures r.statusCode == statusCode
    ensures Get(r.body, "status") == Some(JStr("success"))
    ensures Get(r.body, "message") == Some(JStr(message.GetOr(DEFAULT_SUCCESS_MESSAGE)))
    ensures HasKey(r.body, "data") <==> data.Some?
    ensures data.Some? ==> Get(r.body, "data") == data
    ensures Keys(r.body) == ["status", "message"] + (if data.Some? then ["data"] else [])
  {
    var text := JStr(if message != None then message.value else DEFAULT_SUCCESS_MESSAGE);
    PutTwo("status", JStr("success"), "message", text);
    var response := Put(Put([], "status", JStr("success")), "message", text);
    Response(statusCode, if data != None then Put(response, "data", data.value) else response)
  }

  /** `error(ctx, message, errorDetails, statusCode)`. */
  function Error(message: Option<string>, errorDetails: Option<Json>, statusCode: int): (r: Response)
    ensures r.statusCode == statusCode
    ensures Get(r.body, "status") == Some(JStr("error"))
    ensures Get(r.body, "message") == Some(JStr(message.GetOr(DEFAULT_ERROR_MESSAGE)))
    ensures HasKey(r.body, "error") <==> errorDetails.Some?
    ensures errorDetails.Some? ==> Get(r.body, "error") == errorDetails
    ensures Keys(r.body) == ["status", "message"] + (if errorDetails.Some? then ["error"] else [])
  {
    var text := JStr(if message != None then message.value else DEFAULT_ERROR_MESSAGE);
    PutTwo("status", JStr("error"), "message", text);
    var response := Put(Put([], "status", JStr("error")), "message", text);
    Response(statusCode, if errorDetails != None then Put(response, "error", errorDetails.value) else response)
  }

  /** `error(ctx, message, statusCode)`: the overload that passes no details. */
  function ErrorMessage(message: Option<string>, statusCode: int): (r: Response)
    ensures r.statusCode == statusCode
    ensures Get(r.body, "status") == Some(JStr("error"))
    ensures Get(r.body, "message") == Some(JStr(message.GetOr(DEFAULT_ERROR_MESSAGE)))
    ensures !HasKey(r.body, "error")
  {
    Error(message, None, statusCode)
  }

  /** The two envelopes never agree: `status` tells them apart. */
  lemma SuccessIsNotError(data: Option<Json>, details: Option<Json>, m1: Option<string>, m2: Option<string>, c1: int, c2: int)
    ensures Success(data, m1, c1).body != Error(m2, details, c2).body
  {
    var s := Success(data, m1, c1).body;
    var e := Error(m2, details, c2).body;
    assert Get(s, "status") != Get(e, "status");
  }
}
