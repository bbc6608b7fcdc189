/**
 * The `Credential` service: the path-id and body checks of its handlers, the
 * statements they run on table `credentials`, and the reply each outcome gets.
 */
module Credential {
  import opened Wrappers
  import opened JavaText
  import opened Json
  import ApiResponse
  import opened DbQueryHelper
  import opened Web

  const TABLE := "credentials"
  const ID_COLUMN := "id"
  const SUPPORTED_TYPE := "SSH"

  const ID_EMPTY := "ID cannot be empty"
  const ID_INVALID := "Invalid ID format"
  const BODY_EMPTY := "Request body is empty"
  const MISSING_FIELDS := "Missing fields: name, attributes, or type"
  const UNSUPPORTED_TYPE := "Unsupported credential type: "

  /**
   * `validateAndGetId`: a null or blank path id is "empty", any other text that
   * `Integer.parseInt` refuses is "invalid", and otherwise the parsed `int`.
   */
  function ValidateAndGetId(idParam: Option<string>): (r: Step<int>)
    ensures r.Success? <==> idParam.Some? && ParseInt(idParam.value).Some?
    ensures r.Success? ==> Some(r.value) == ParseInt(idParam.value) && IsInt32(r.value)
    ensures r.Failure? ==> r.error == Reject(if IsNullOrBlank(idParam) then ID_EMPTY else ID_INVALID, 400)
  {
    ParsePathId(idParam, ID_EMPTY, ID_INVALID)
  }

  predicate HasRequiredFields(o: Object) {
    HasKey(o, "name") && HasKey(o, "attributes") && HasKey(o, "type")
  }

  /** `"SSH".equals(body.getString("type"))`. */
  predicate IsSupportedType(o: Object, nestedText: Json -> string) {
    GetString(o, "type", nestedText) == Some(SUPPORTED_TYPE)
  }

  /**
   * `parseAndValidateBody(ctx, isCreate)`: the body must be there; on create it
   * must hold `name`, `attributes` and `type`; a `type` that is present must be
   * "SSH". An accepted body is passed on unchanged. A body that is not a JSON
   * object makes `asJsonObject` throw, and the exception escapes the handler.
   */
  function ParseAndValidateBody(body: RequestBody, isCreate: bool, nestedText: Json -> string): (r: Step<Object>)
    ensures r.Success? <==>
      && body.Parsed?
      && (isCreate ==> HasRequiredFields(body.obj))
      && (HasKey(body.obj, "type") ==> IsSupportedType(body.obj, nestedText))
    ensures r.Success? ==> body == Parsed(r.value)
    ensures body.NoBody? ==> r == Failure(Reject(BODY_EMPTY, 400))
    ensures body.Malformed? ==> r == Failure(Escaped(Decode))
    ensures body.Parsed? && isCreate && !HasRequiredFields(body.obj) ==> r == Failure(Reject(MISSING_FIELDS, 400))
    ensures body.Parsed? && (isCreate ==> HasRequiredFields(body.obj))
            && HasKey(body.obj, "type") && !IsSupportedType(body.obj, nestedText)
        ==> r == Failure(Reject(UNSUPPORTED_TYPE + Concat(GetString(body.obj, "type", nestedText)), 400))
  {
    match body
    case NoBody => Failure(Reject(BODY_EMPTY, 400))
    case Malformed => Failure(Escaped(Decode))
    case Parsed(o) =>
      if isCreate && (!HasKey(o, "name") || !HasKey(o, "attributes") || !HasKey(o, "type")) then
        Failure(Reject(MISSING_FIELDS, 400))
      else if HasKey(o, "type") && GetString(o, "type", nestedText) != Some(SUPPORTED_TYPE) then
        Failure(Reject(UNSUPPORTED_TYPE + Concat(GetString(o, "type", nestedText)), 400))
      else
        Success(o)
  }

  /** A body good enough to create a credential is good enough to update one. */
  lemma CreateBodyIsUpdateBody(body: RequestBody, nestedText: Json -> string)
    requires ParseAndValidateBody(body, true, nestedText).Success?
    ensures ParseAndValidateBody(body, false, nestedText) == ParseAndValidateBody(body, true, nestedText)
  {
  }

  /** `type` set to JSON null is present but unsupported, and the message prints it as "null". */
  lemma NullTypeIsUnsupported(o: Object, isCreate: bool, nestedText: Json -> string)
    requires Get(o, "type") == Some(JNull)
    requires isCreate ==> HasRequiredFields(o)
    ensures ParseAndValidateBody(Parsed(o), isCreate, nestedText) == Failure(Reject(UNSUPPORTED_TYPE + "null", 400))
  {
  }

  /** `createCredential`: validate the body, insert it as sent, and report the insert's fate. */
  function CreateCredential(body: RequestBody, p: Platform): (r: Outcome)
    ensures ParseAndValidateBody(body, true, p.nestedText).Failure? ==> r == ParseAndValidateBody(body, true, p.nestedText).error
    ensures ParseAndValidateBody(body, true, p.nestedText).Success? ==>
      var q := InsertQuery(TABLE, body.obj, p.nestedText);
      r == match p.execute(q)
           case Done => Replied(ApiResponse.Success(None, Some("Credential created successfully"), 201))
           case Failed(m) => Reject("Insert failed: " + Concat(m), 400)
  {
    match ParseAndValidateBody(body, true, p.nestedText)
    case Failure(o) => o
    case Success(b) =>
      match p.execute(InsertQuery(TABLE, b, p.nestedText))
      case Done => Replied(ApiResponse.Success(None, Some("Credential created successfully"), 201))
      case Failed(m) => Reject("Insert failed: " + Concat(m), 400)
  }

  /** `getCredential`: a record is returned as `data`; null and failures answer 404. */
  function GetCredential(idParam: Option<string>, p: Platform): (r: Outcome)
    ensures ValidateAndGetId(idParam).Failure? ==> r == ValidateAndGetId(idParam).error
    ensures ValidateAndGetId(idParam).Success? ==>
      var q := FetchOne(TABLE, ID_COLUMN, JNum(ValidateAndGetId(idParam).value));
      r == match p.fetch(q)
           case Found(row) => Replied(ApiResponse.Success(Some(JObj(row)), Some("Credential retrieved"), 200))
           case NotFound => Reject("Credential not found", 404)
           case FetchFailed(m) => Replied(ApiResponse.ErrorMessage(m, 404))
  {
    match ValidateAndGetId(idParam)
    case Failure(o) => o
    case Success(id) =>
      match p.fetch(FetchOne(TABLE, ID_COLUMN, JNum(id)))
      case Found(row) => Replied(ApiResponse.Success(Some(JObj(row)), Some("Credential retrieved"), 200))
      case NotFound => Reject("Credential not found", 404)
      case FetchFailed(m) => Replied(ApiResponse.ErrorMessage(m, 404))
  }

  /** `updateCredential`: the id is checked before the body, then the body's fields are written. */
  function UpdateCredential(idParam: Option<string>, body: RequestBody, p: Platform): (r: Outcome)
    ensures ValidateAndGetId(idParam).Failure? ==> r == ValidateAndGetId(idParam).error
    ensures ValidateAndGetId(idParam).Success? && ParseAndValidateBody(body, false, p.nestedText).Failure? ==>
      r == ParseAndValidateBody(body, false, p.nestedText).error
    ensures ValidateAndGetId(idParam).Success? && ParseAndValidateBody(body, false, p.nestedText).Success? ==>
      var q := UpdateQuery(TABLE, ID_COLUMN, JNum(ValidateAndGetId(idParam).value), body.obj);
      r == match p.execute(q)
           case Done => Replied(ApiResponse.Success(None, Some("Credential updated"), 200))
           case Failed(m) => Reject("Update failed: " + Concat(m), 400)
  {
    match ValidateAndGetId(idParam)
    case Failure(o) => o
    case Success(id) =>
      match ParseAndValidateBody(body, false, p.nestedText)
      case Failure(o) => o
      case Success(b) =>
        match p.execute(UpdateQuery(TABLE, ID_COLUMN, JNum(id), b))
        case Done => Replied(ApiResponse.Success(None, Some("Credential updated"), 200))
        case Failed(m) => Reject("Update failed: " + Concat(m), 400)
  }

  /** `deleteCredential`. */
  function DeleteCredential(idParam: Option<string>, p: Platform): (r: Outcome)
    ensures ValidateAndGetId(idParam).Failure? ==> r == ValidateAndGetId(idParam).error
    ensures ValidateAndGetId(idParam).Success? ==>
      var q := Delete(TABLE, ID_COLUMN, JNum(ValidateAndGetId(idParam).value));
      r == match p.execute(q)
           case Done => Replied(ApiResponse.Success(None, Some("Credential deleted"), 200))
           case Failed(m) => Reject("Delete failed: " + Concat(m), 404)
  {
    match ValidateAndGetId(idParam)
    case Failure(o) => o
    case Success(id) =>
      match p.execute(Delete(TABLE, ID_COLUMN, JNum(id)))
      case Done => Replied(ApiResponse.Success(None, Some("Credential deleted"), 200))
      case Failed(m) => Reject("Delete failed: " + Concat(m), 404)
  }

  /** A bad id decides an update before the body is looked at: even a missing body gets the id's error. */
  lemma UpdateChecksIdFirst(idParam: Option<string>, body1: RequestBody, body2: RequestBody, p: Platform)
    requires IsNullOrBlank(idParam) || ParseInt(idParam.value).None?
    ensures UpdateCredential(idParam, body1, p) == UpdateCredential(idParam, body2, p)
    ensures UpdateCredential(idParam, body1, p).Replied?
  {
  }

  /** A get answers 200 exactly when the id is valid and the lookup finds a record, which it returns as `data`. */
  lemma GetSucceedsIffFound(idParam: Option<string>, p: Platform)
    ensures var r := GetCredential(idParam, p);
      (r.Replied? && r.response.statusCode == 200) <==>
        (ValidateAndGetId(idParam).Success?
         && p.fetch(FetchOne(TABLE, ID_COLUMN, JNum(ValidateAndGetId(idParam).value))).Found?)
  {
  }
}
