/**
 * What the HTTP handlers of the services see and do, with Vert.x Web and the
 * SQL client reduced to values and oracles: the parsed request body, the reply
 * a handler writes (or the exception it lets escape), and the outcome of a
 * prepared statement.
 */
module Web {
  import opened Wrappers
  import opened JavaText
  import opened Json
  import opened ApiResponse
  import opened DbQueryHelper

  /** `ctx.body().asJsonObject()`: no body (null), text that is not a JSON object (`DecodeException`), or an object. */
  datatype RequestBody = NoBody | Malformed | Parsed(obj: Object)

  /** A handler either writes one response or lets an exception escape to the router. */
  datatype Outcome = Replied(response: Response) | Escaped(error: JvmError)

  /** How an executed statement's future completes; a failure carries `err.getMessage()`. */
  datatype Execution = Done | Failed(message: Option<string>)

  /** How a `fetchOne` future completes: a record, null, or a failure with its message. */
  datatype Fetched = Found(row: Object) | NotFound | FetchFailed(message: Option<string>)

  /**
   * The world outside the handler: the database, the library's JSON text for
   * nested values, and the message the JVM gives an exception of each kind.
   */
  datatype Platform = Platform(
    execute: Query -> Execution,
    fetch: Query -> Fetched,
    nestedText: Json -> string,
    jvmMessage: JvmError -> Option<string>)

  /** A handler step that either goes on with a value or has already decided the outcome. */
  type Step<T> = Result<T, Outcome>

  /** `ApiResponse.error(ctx, message, statusCode)` as a finished handler. */
  function Reject(message: string, statusCode: int): Outcome {
    Replied(ErrorMessage(Some(message), statusCode))
  }

  /**
   * The path-id check the services share: a null or blank id answers 400 with
   * `emptyMessage`, text that `Integer.parseInt` refuses answers 400 with
   * `invalidMessage`, and anything else is the parsed `int`.
   */
  function ParsePathId(idParam: Option<string>, emptyMessage: string, invalidMessage: string): (r: Step<int>)
    ensures r.Success? <==> idParam.Some? && ParseInt(idParam.value).Some?
    ensures r.Success? ==> Some(r.value) == ParseInt(idParam.value) && IsInt32(r.value)
    ensures r.Failure? ==> r.error == Reject(if IsNullOrBlank(idParam) then emptyMessage else invalidMessage, 400)
  {
    if IsNullOrBlank(idParam) then
      if idParam.Some? then ParsedIsNotBlank(idParam.value); Failure(Reject(emptyMessage, 400))
      else Failure(Reject(emptyMessage, 400))
    else
      match ParseInt(idParam.value)
      case None => Failure(Reject(invalidMessage, 400))
      case Some(id) => Success(id)
  }

  /** Every `int`, written the way Java prints it, is accepted as that id. */
  lemma PathIdRoundTrip(n: int, emptyMessage: string, invalidMessage: string)
    requires IsInt32(n)
    ensures ParsePathId(Some(IntToDecimal(n)), emptyMessage, invalidMessage) == Success(n)
  {
    ParseIntOfDecimal(n);
  }

  /** The id is not trimmed before parsing: padding around a number makes it invalid, not empty. */
  lemma PaddedIdIsInvalid(emptyMessage: string, invalidMessage: string)
    ensures ParsePathId(Some(" 7"), emptyMessage, invalidMessage) == Failure(Reject(invalidMessage, 400))
  {
    assert !IsTrimmed(" 7"[1]);
  }
}
