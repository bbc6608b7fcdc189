/**
 * The `Discovery` service: the body and path-id checks of its handlers, the
 * whitelist copy an update makes, the check that every referenced credential
 * exists, and the statements run on table `discoveries`.
 */
module Discovery {
  import opened Wrappers
  import opened JavaText
  import opened Json
  import ApiResponse
  import opened DbQueryHelper
  import opened Web

  const TABLE := "discoveries"
  const CREDENTIAL_TABLE := "credentials"
  const ID_COLUMN := "id"

  const BODY_EMPTY := "Request body is empty"
  const IDS_NOT_ARRAY := "credentialIDs must be a valid JSON array"
  const ID_EMPTY := "Discovery ID cannot be empty"
  const ID_INVALID := "Invalid discovery ID format"

  /**
   * `parseAndValidateBody`: the body must be there, and a `credentialIDs` key,
   * when present, must not resolve to null. A value of another type makes
   * `getJsonArray` throw. An accepted body is passed on unchanged.
   */
  function ParseAndValidateBody(body: RequestBody): (r: Step<Object>)
    ensures r.Success? <==>
      body.Parsed? && (HasKey(body.obj, "credentialIDs") ==> GetJsonArray(body.obj, "credentialIDs").Value?)
    ensures r.Success? ==> body == Parsed(r.value)
    ensures body.NoBody? ==> r == Failure(Reject(BODY_EMPTY, 400))
    ensures body.Malformed? ==> r == Failure(Escaped(Decode))
    ensures body.Parsed? && HasKey(body.obj, "credentialIDs") ==>
      match GetJsonArray(body.obj, "credentialIDs")
      case Null => r == Failure(Reject(IDS_NOT_ARRAY, 400))
      case Mismatch => r == Failure(Escaped(ClassCast))
      case Value(_) => r == Success(body.obj)
  {
    match body
    case NoBody => Failure(Reject(BODY_EMPTY, 400))
    case Malformed => Failure(Escaped(Decode))
    case Parsed(o) =>
      if HasKey(o, "credentialIDs") then
        match GetJsonArray(o, "credentialIDs")
        case Null => Failure(Reject(IDS_NOT_ARRAY, 400))
        case Mismatch => Failure(Escaped(ClassCast))
        case Value(_) => Success(o)
      else Success(o)
  }

  /** An explicit JSON null under `credentialIDs` is refused, while a missing key is fine. */
  lemma NullCredentialIdsRefused(o: Object)
    requires Get(o, "credentialIDs") == Some(JNull)
    ensures ParseAndValidateBody(Parsed(o)) == Failure(Reject(IDS_NOT_ARRAY, 400))
  {
  }

  /** The path-id check of `updateDiscovery` and `deleteDiscovery`. */
  function ValidateId(idParam: Option<string>): (r: Step<int>)
    ensures r.Success? <==> idParam.Some? && ParseInt(idParam.value).Some?
    ensures r.Success? ==> Some(r.value) == ParseInt(idParam.value)
    ensures r.Failure? ==> r.error == Reject(if IsNullOrBlank(idParam) then ID_EMPTY else ID_INVALID, 400)
  {
    ParsePathId(idParam, ID_EMPTY, ID_INVALID)
  }

  // ---------------------------------------------------------------------------
  // The whitelist copy of updateDiscovery
  // ---------------------------------------------------------------------------

  /** The keys an update copies, in the order it copies them. */
  const WHITELIST: seq<string> := ["name", "ip", "credentialIDs", "result"]

  predicate IsArrayField(k: string) {
    k == "credentialIDs" || k == "result"
  }

  /** A Java `String` put into a `JsonObject`: null stays JSON null. */
  function StringValue(s: Option<string>): Json {
    match s
    case None => JNull
    case Some(t) => JStr(t)
  }

  /**
   * What the update puts under a whitelisted key: `getString` of the value for
   * `name` and `ip`, `getJsonArray` of it for the two array fields.
   */
  function Copied(body: Object, k: string, nestedText: Json -> string): Json {
    if IsArrayField(k) then
      match GetJsonArray(body, k)
      case Value(items) => JArr(items)
      case _ => JNull
    else StringValue(GetString(body, k, nestedText))
  }

  /** An array field whose value makes `getJsonArray` throw `ClassCastException`. */
  predicate HasBadArrayField(body: Object) {
    || (HasKey(body, "credentialIDs") && GetJsonArray(body, "credentialIDs").Mismatch?)
    || (HasKey(body, "result") && GetJsonArray(body, "result").Mismatch?)
  }

  /** The keys of `ks` that `body` holds, in the order of `ks`. */
  function Present(body: Object, ks: seq<string>): (r: seq<string>)
    ensures forall k :: k in r <==> k in ks && HasKey(body, k)
    decreases |ks|
  {
    if ks == [] then []
    else
      var init := ks[..|ks| - 1];
      assert ks == init + [ks[|ks| - 1]];
      Present(body, init) + (if HasKey(body, ks[|ks| - 1]) then [ks[|ks| - 1]] else [])
  }

  /** The keys of `ks` that `body` holds, each with its copied value, added one after another. */
  function CopyKeys(body: Object, ks: seq<string>, nestedText: Json -> string): Object
    decreases |ks|
  {
    if ks == [] then []
    else
      var k := ks[|ks| - 1];
      var init := CopyKeys(body, ks[..|ks| - 1], nestedText);
      if HasKey(body, k) then init + [Member(k, Copied(body, k, nestedText))] else init
  }

  /** `o` holds exactly the keys of `ks` that `body` holds, each with its copied value. */
  ghost predicate HoldsCopies(o: Object, body: Object, ks: seq<string>, nestedText: Json -> string) {
    forall k :: Get(o, k) == if k in ks && HasKey(body, k) then Some(Copied(body, k, nestedText)) else None
  }

  /**
   * A copy over the key list `ks` holds exactly the keys of `ks` that the body
   * holds, in the order of `ks`, each with its copied value.
   */
  lemma {:induction false} CopyKeysShape(body: Object, ks: seq<string>, nestedText: Json -> string)
    ensures Keys(CopyKeys(body, ks, nestedText)) == Present(body, ks)
    ensures HoldsCopies(CopyKeys(body, ks, nestedText), body, ks, nestedText)
    decreases |ks|
  {
    if ks != [] {
      var k := ks[|ks| - 1];
      var init := ks[..|ks| - 1];
      assert ks == init + [k];
      CopyKeysShape(body, init, nestedText);
      var c := CopyKeys(body, init, nestedText);
      if HasKey(body, k) {
        var m := Member(k, Copied(body, k, nestedText));
        KeysAppend(c, m);
        forall k' ensures Get(c + [m], k')
          == (if k' in ks && HasKey(body, k') then Some(Copied(body, k', nestedText)) else None)
        {
          GetAppend(c, m, k');
        }
      }
    }
  }

  /**
   * The object `updateDiscovery` builds from the body: the whitelisted keys the
   * body holds, in whitelist order; or the exception a non-array value under
   * an array field throws.
   */
  function UpdateData(body: Object, nestedText: Json -> string): Step<Object> {
    if HasBadArrayField(body) then Failure(Escaped(ClassCast)) else Success(CopyKeys(body, WHITELIST, nestedText))
  }

  /**
   * The update copies exactly the whitelisted keys the body holds, in whitelist
   * order, each with its copied value; every other key of the body is dropped
   * and no absent key is added.
   */
  lemma UpdateDataWhitelist(body: Object, nestedText: Json -> string)
    requires UpdateData(body, nestedText).Success?
    ensures Keys(UpdateData(body, nestedText).value) == Present(body, WHITELIST)
    ensures HoldsCopies(UpdateData(body, nestedText).value, body, WHITELIST, nestedText)
  {
    CopyKeysShape(body, WHITELIST, nestedText);
  }

  /** One more key in the copy: a present key is appended, as `put` of a new key does. */
  lemma CopyStep(body: Object, nestedText: Json -> string, done: seq<string>, k: string, v: Json)
    requires k !in done
    requires HasKey(body, k) ==> v == Copied(body, k, nestedText)
    ensures var data := CopyKeys(body, done, nestedText);
      CopyKeys(body, done + [k], nestedText) == if HasKey(body, k) then Put(data, k, v) else data
  {
    assert (done + [k])[..|done|] == done;
    CopyKeysShape(body, done, nestedText);
    if HasKey(body, k) {
      PutAppends(CopyKeys(body, done, nestedText), k, v);
    }
  }

  /** `if (body.containsKey(k)) data.put(k, body.getString(k))`, after the keys `done` have been copied. */
  method CopyStringField(data: Object, body: Object, k: string, nestedText: Json -> string, ghost done: seq<string>)
    returns (d: Object)
    requires !IsArrayField(k) && k !in done
    requires data == CopyKeys(body, done, nestedText)
    ensures d == CopyKeys(body, done + [k], nestedText)
  {
    CopyStep(body, nestedText, done, k, StringValue(GetString(body, k, nestedText)));
    d := data;
    if HasKey(body, k) {
      d := Put(d, k, StringValue(GetString(body, k, nestedText)));
    }
  }

  /** `if (body.containsKey(k)) data.put(k, body.getJsonArray(k))`, after the keys `done` have been copied. */
  method CopyArrayField(data: Object, body: Object, k: string, nestedText: Json -> string, ghost done: seq<string>)
    returns (r: Step<Object>)
    requires IsArrayField(k) && k !in done
    requires data == CopyKeys(body, done, nestedText)
    ensures r.Failure? <==> HasKey(body, k) && GetJsonArray(body, k).Mismatch?
    ensures r.Failure? ==> r.error == Escaped(ClassCast)
    ensures r.Success? ==> r.value == CopyKeys(body, done + [k], nestedText)
  {
    CopyStep(body, nestedText, done, k, Copied(body, k, nestedText));
    var d := data;
    if HasKey(body, k) {
      var items := GetJsonArray(body, k);
      if items.Mismatch? {
        return Failure(Escaped(ClassCast));
      }
      d := Put(d, k, if items.Value? then JArr(items.value) else JNull);
    }
    r := Success(d);
  }

  /** `updateDiscovery` filling a fresh object with successive `put`s. */
  method BuildUpdateData(body: Object, nestedText: Json -> string) returns (r: Step<Object>)
    ensures r == UpdateData(body, nestedText)
  {
    var data: Object := [];
    data := CopyStringField(data, body, "name", nestedText, []);
    assert [] + ["name"] == ["name"];
    data := CopyStringField(data, body, "ip", nestedText, ["name"]);
    assert ["name"] + ["ip"] == ["name", "ip"];
    var step := CopyArrayField(data, body, "credentialIDs", nestedText, ["name", "ip"]);
    if step.Failure? {
      return step;
    }
    data := step.value;
    assert ["name", "ip"] + ["credentialIDs"] == ["name", "ip", "credentialIDs"];
    step := CopyArrayField(data, body, "result", nestedText, ["name", "ip", "credentialIDs"]);
    if step.Failure? {
      return step;
    }
    assert ["name", "ip", "credentialIDs"] + ["result"] == WHITELIST;
    r := Success(step.value);
  }

  // ---------------------------------------------------------------------------
  // validateCredentialIDs
  // ---------------------------------------------------------------------------

  /** How the future `validateCredentialIDs` returns completes. */
  datatype Verdict = Valid | Invalid(message: Option<string>)

  function MissingMessage(id: int): string {
    "Credential ID " + IntToDecimal(id) + " does not exist."
  }

  function LookupQuery(id: int): Query {
    FetchOne(CREDENTIAL_TABLE, ID_COLUMN, JNum(id))
  }

  /** The index of the first element that is not a number, or the count when all are. */
  function FirstNonInteger(items: seq<Json>): (i: nat)
    ensures i <= |items|
    ensures forall k :: 0 <= k < i ==> ElementInteger(items[k]).Value?
    ensures i < |items| ==> !ElementInteger(items[i]).Value?
    decreases |items|
  {
    if items == [] || !ElementInteger(items[0]).Value? then 0
    else
      var i := 1 + FirstNonInteger(items[1..]);
      assert forall k :: 1 <= k < i ==> items[k] == items[1..][k - 1];
      i
  }

  /**
   * `credentialIDs.getInteger(i)` unboxed into an `int` for every element, in
   * order: the first element that is null throws `NullPointerException`, the
   * first that is not a number throws `ClassCastException`.
   */
  function ElementIds(items: seq<Json>): (r: Result<seq<int>, JvmError>)
    ensures r.Success? <==> forall i :: 0 <= i < |items| ==> ElementInteger(items[i]).Value?
    ensures r.Success? ==> |r.value| == |items|
    ensures r.Success? ==> forall i :: 0 <= i < |items| ==> ElementInteger(items[i]) == Value(r.value[i])
  {
    var b := FirstNonInteger(items);
    if b < |items| then Failure(if ElementInteger(items[b]).Null? then NullPointer else ClassCast)
    else Success(seq(|items|, i requires 0 <= i < |items| => ElementInteger(items[i]).value))
  }

  /** The index of the first lookup whose future failed, or the count when none did. */
  function FirstFailed(results: seq<Fetched>): (i: nat)
    ensures i <= |results|
    ensures forall k :: 0 <= k < i ==> !results[k].FetchFailed?
    ensures i < |results| ==> results[i].FetchFailed?
    decreases |results|
  {
    if results == [] || results[0].FetchFailed? then 0
    else
      var i := 1 + FirstFailed(results[1..]);
      assert forall k :: 1 <= k < i ==> results[k] == results[1..][k - 1];
      i
  }

  /** The index of the first lookup that resolved to null, or the count when none did. */
  function FirstNotFound(results: seq<Fetched>): (i: nat)
    ensures i <= |results|
    ensures forall k :: 0 <= k < i ==> !results[k].NotFound?
    ensures i < |results| ==> results[i].NotFound?
    decreases |results|
  {
    if results == [] || results[0].NotFound? then 0
    else
      var i := 1 + FirstNotFound(results[1..]);
      assert forall k :: 1 <= k < i ==> results[k] == results[1..][k - 1];
      i
  }

  /**
   * `CompositeFuture.all(checks).compose(...)`: a failed lookup fails the whole
   * check with its message; otherwise the first null record, in list order,
   * names its id; otherwise the check passes.
   */
  function Judge(ids: seq<int>, results: seq<Fetched>): Verdict
    requires |ids| == |results|
  {
    var f := FirstFailed(results);
    if f < |results| then Invalid(results[f].message)
    else
      var n := FirstNotFound(results);
      if n < |results| then Invalid(Some(MissingMessage(ids[n]))) else Valid
  }

  /** The lookups made for `ids`, in order. */
  function Lookups(ids: seq<int>, fetch: Query -> Fetched): (results: seq<Fetched>)
    ensures |results| == |ids|
  {
    seq(|ids|, i requires 0 <= i < |ids| => fetch(LookupQuery(ids[i])))
  }

  /** `validateCredentialIDs(credentialIDs)`: a synchronous exception, or how the returned future completes. */
  function CredentialIdsVerdict(items: seq<Json>, fetch: Query -> Fetched): Result<Verdict, JvmError> {
    if items == [] then Success(Valid)
    else
      var ids :- ElementIds(items);
      Success(Judge(ids, Lookups(ids, fetch)))
  }

  /** `validateCredentialIDs`: one lookup per element in a first loop, then a scan of the results with an early exit. */
  method ValidateCredentialIDs(items: seq<Json>, fetch: Query -> Fetched) returns (r: Result<Verdict, JvmError>)
    ensures r == CredentialIdsVerdict(items, fetch)
  {
    if |items| == 0 {
      return Success(Valid);
    }
    var ids: seq<int> := [];
    var checks: seq<Fetched> := [];
    for i := 0 to |items|
      invariant |ids| == |checks| == i
      invariant forall k :: 0 <= k < i ==> ElementInteger(items[k]) == Value(ids[k])
      invariant checks == Lookups(ids, fetch)
    {
      match ElementInteger(items[i])
      case Null =>
        return Failure(NullPointer);
      case Mismatch =>
        return Failure(ClassCast);
      case Value(id) =>
        ids := ids + [id];
        checks := checks + [fetch(LookupQuery(id))];
    }
    var converted := ElementIds(items);
    assert converted.Success?;
    assert converted.value == ids;
    var f := FirstFailed(checks);
    if f < |checks| {
      return Success(Invalid(checks[f].message));
    }
    for i := 0 to |checks|
      invariant forall k :: 0 <= k < i ==> !checks[k].NotFound?
    {
      if checks[i].NotFound? {
        return Success(Invalid(Some(MissingMessage(ids[i]))));
      }
    }
    r := Success(Valid);
  }

  /** An empty list passes without a single lookup. */
  lemma EmptyListIsValid(fetch: Query -> Fetched)
    ensures CredentialIdsVerdict([], fetch) == Success(Valid)
  {
  }

  /** For a list of numbers, the check passes exactly when every lookup finds a record. */
  lemma ValidIffAllFound(items: seq<Json>, fetch: Query -> Fetched, ids: seq<int>)
    requires ElementIds(items) == Success(ids)
    ensures CredentialIdsVerdict(items, fetch) == Success(Valid) <==>
      forall i :: 0 <= i < |ids| ==> fetch(LookupQuery(ids[i])).Found?
  {
    var results := Lookups(ids, fetch);
    assert forall i :: 0 <= i < |ids| ==> results[i] == fetch(LookupQuery(ids[i]));
    if items != [] {
      assert CredentialIdsVerdict(items, fetch) == Success(Judge(ids, results));
    }
  }

  /**
   * When no lookup failed, the message names the first id, in list order,
   * whose lookup came back null.
   */
  lemma FirstMissingIsNamed(items: seq<Json>, fetch: Query -> Fetched, ids: seq<int>, n: nat)
    requires ElementIds(items) == Success(ids)
    requires n < |ids| && fetch(LookupQuery(ids[n])).NotFound?
    requires forall k :: 0 <= k < |ids| ==> !fetch(LookupQuery(ids[k])).FetchFailed?
    requires forall k :: 0 <= k < n ==> fetch(LookupQuery(ids[k])).Found?
    ensures CredentialIdsVerdict(items, fetch) == Success(Invalid(Some(MissingMessage(ids[n]))))
  {
    var results := Lookups(ids, fetch);
    assert forall i :: 0 <= i < |ids| ==> results[i] == fetch(LookupQuery(ids[i]));
    JudgeNamesFirstMissing(ids, results, n);
    assert CredentialIdsVerdict(items, fetch) == Success(Judge(ids, results));
  }

  /** With no failed lookup, the verdict names the id of the first null record. */
  lemma JudgeNamesFirstMissing(ids: seq<int>, results: seq<Fetched>, n: nat)
    requires |ids| == |results| && n < |results| && results[n].NotFound?
    requires forall k :: 0 <= k < |results| ==> !results[k].FetchFailed?
    requires forall k :: 0 <= k < n ==> !results[k].NotFound?
    ensures Judge(ids, results) == Invalid(Some(MissingMessage(ids[n])))
  {
    assert FirstFailed(results) == |results|;
    assert FirstNotFound(results) == n;
  }

  // ---------------------------------------------------------------------------
  // The handlers
  // ---------------------------------------------------------------------------

  /**
   * `body.getJsonArray("credential_ids", new JsonArray())`: the empty list for
   * an absent or null key, an array as it is, and a `ClassCastException`
   * escaping the handler for any other value.
   */
  function CredentialIdsOf(body: Object): (r: Step<seq<Json>>)
    ensures GetJsonArray(body, "credential_ids").Null? ==> r == Success([])
    ensures GetJsonArray(body, "credential_ids").Value? ==> r == Success(GetJsonArray(body, "credential_ids").value)
    ensures GetJsonArray(body, "credential_ids").Mismatch? ==> r == Failure(Escaped(ClassCast))
  {
    match GetJsonArray(body, "credential_ids")
    case Null => Success([])
    case Value(items) => Success(items)
    case Mismatch => Failure(Escaped(ClassCast))
  }

  /** The insert of the whole body, once the credential check has passed. */
  function InsertDiscovery(body: Object, p: Platform): Outcome {
    match p.execute(InsertQuery(TABLE, body, p.nestedText))
    case Done => Replied(ApiResponse.Success(None, Some("Discovery created successfully"), 201))
    case Failed(m) => Replied(ApiResponse.ErrorMessage(m, 400))
  }

  /**
   * `createDiscovery`: validate the body, check the ids listed under
   * `credential_ids`, then insert the body as sent.
   */
  function CreateDiscovery(body: RequestBody, p: Platform): (r: Outcome)
    ensures ParseAndValidateBody(body).Failure? ==> r == ParseAndValidateBody(body).error
    ensures ParseAndValidateBody(body).Success? && CredentialIdsOf(body.obj).Failure? ==>
      r == CredentialIdsOf(body.obj).error
    ensures ParseAndValidateBody(body).Success? && CredentialIdsOf(body.obj).Success? ==>
      r == match CredentialIdsVerdict(CredentialIdsOf(body.obj).value, p.fetch)
           case Failure(e) => Escaped(e)
           case Success(Invalid(m)) => Replied(ApiResponse.ErrorMessage(m, 400))
           case Success(Valid) => InsertDiscovery(body.obj, p)
    ensures ParseAndValidateBody(body).Success? && CredentialIdsOf(body.obj) == Success([]) ==>
      r == InsertDiscovery(body.obj, p)
  {
    match ParseAndValidateBody(body)
    case Failure(o) => o
    case Success(b) =>
      match CredentialIdsOf(b)
      case Failure(o) => o
      case Success(items) =>
        match CredentialIdsVerdict(items, p.fetch)
        case Failure(e) => Escaped(e)
        case Success(Invalid(m)) => Replied(ApiResponse.ErrorMessage(m, 400))
        case Success(Valid) => InsertDiscovery(b, p)
  }

  /**
   * The ids checked on create come from `credential_ids`, not from the
   * `credentialIDs` key the body check looks at: a body that only has
   * `credentialIDs` is inserted without a single credential lookup, whatever
   * those lookups would say.
   */
  lemma CreateIgnoresCredentialIDsKey(o: Object, p: Platform, q: Platform)
    requires ParseAndValidateBody(Parsed(o)).Success?
    requires !HasKey(o, "credential_ids")
    requires p.execute == q.execute && p.nestedText == q.nestedText
    ensures CreateDiscovery(Parsed(o), p) == CreateDiscovery(Parsed(o), q) == InsertDiscovery(o, p)
  {
  }

  /**
   * A create whose `credential_ids` list holds only numbers inserts the body
   * when every listed id is found.
   */
  lemma CreateWithAllCredentials(o: Object, p: Platform, items: seq<Json>, ids: seq<int>)
    requires ParseAndValidateBody(Parsed(o)).Success?
    requires GetJsonArray(o, "credential_ids") == Value(items)
    requires ElementIds(items) == Success(ids)
    requires forall i :: 0 <= i < |ids| ==> p.fetch(LookupQuery(ids[i])).Found?
    ensures CreateDiscovery(Parsed(o), p) == InsertDiscovery(o, p)
  {
    ValidIffAllFound(items, p.fetch, ids);
  }

  /**
   * A create whose listed credential is missing answers 400 naming the first
   * missing id, in list order, and inserts nothing.
   */
  lemma CreateWithMissingCredential(o: Object, p: Platform, items: seq<Json>, ids: seq<int>, n: nat)
    requires ParseAndValidateBody(Parsed(o)).Success?
    requires GetJsonArray(o, "credential_ids") == Value(items)
    requires ElementIds(items) == Success(ids)
    requires n < |ids| && p.fetch(LookupQuery(ids[n])).NotFound?
    requires forall k :: 0 <= k < |ids| ==> !p.fetch(LookupQuery(ids[k])).FetchFailed?
    requires forall k :: 0 <= k < n ==> p.fetch(LookupQuery(ids[k])).Found?
    ensures CreateDiscovery(Parsed(o), p) == Reject(MissingMessage(ids[n]), 400)
  {
    FirstMissingIsNamed(items, p.fetch, ids, n);
  }

  /** `updateDiscovery`: the body is checked before the id, then the whitelisted fields are written. */
  function UpdateDiscovery(idParam: Option<string>, body: RequestBody, p: Platform): (r: Outcome)
    ensures ParseAndValidateBody(body).Failure? ==> r == ParseAndValidateBody(body).error
    ensures ParseAndValidateBody(body).Success? && ValidateId(idParam).Failure? ==> r == ValidateId(idParam).error
    ensures ParseAndValidateBody(body).Success? && ValidateId(idParam).Success? ==>
      r == match UpdateData(body.obj, p.nestedText)
           case Failure(o) => o
           case Success(data) =>
             match p.execute(UpdateQuery(TABLE, ID_COLUMN, JNum(ValidateId(idParam).value), data))
             case Done => Replied(ApiResponse.Success(None, Some("Discovery updated successfully"), 200))
             case Failed(m) => Replied(ApiResponse.ErrorMessage(m, 400))
  {
    match ParseAndValidateBody(body)
    case Failure(o) => o
    case Success(b) =>
      match ValidateId(idParam)
      case Failure(o) => o
      case Success(id) =>
        match UpdateData(b, p.nestedText)
        case Failure(o) => o
        case Success(data) =>
          match p.execute(UpdateQuery(TABLE, ID_COLUMN, JNum(id), data))
          case Done => Replied(ApiResponse.Success(None, Some("Discovery updated successfully"), 200))
          case Failed(m) => Replied(ApiResponse.ErrorMessage(m, 400))
  }

  /**
   * The statement an accepted update runs sets only whitelisted keys: every
   * SET item names a key of the whitelist that the body holds.
   */
  lemma UpdateSetsOnlyWhitelisted(b: Object, nestedText: Json -> string, i: nat)
    requires UpdateData(b, nestedText).Success?
    requires i < |UpdateData(b, nestedText).value|
    ensures var data := UpdateData(b, nestedText).value;
      && data[i].key in WHITELIST && HasKey(b, data[i].key)
      && SetItems(Keys(data))[i] == data[i].key + " = " + Placeholder(i + 1)
  {
    var data := UpdateData(b, nestedText).value;
    UpdateDataWhitelist(b, nestedText);
    KeysAt(data, i);
    assert Keys(data)[i] in Present(b, WHITELIST);
  }

  /** `deleteDiscovery`. */
  function DeleteDiscovery(idParam: Option<string>, p: Platform): (r: Outcome)
    ensures ValidateId(idParam).Failure? ==> r == ValidateId(idParam).error
    ensures ValidateId(idParam).Success? ==>
      r == match p.execute(Delete(TABLE, ID_COLUMN, JNum(ValidateId(idParam).value)))
           case Done => Replied(ApiResponse.Success(None, Some("Discovery deleted successfully"), 200))
           case Failed(m) => Replied(ApiResponse.ErrorMessage(m, 404))
  {
    match ValidateId(idParam)
    case Failure(o) => o
    case Success(id) =>
      match p.execute(Delete(TABLE, ID_COLUMN, JNum(id)))
      case Done => Replied(ApiResponse.Success(None, Some("Discovery deleted successfully"), 200))
      case Failed(m) => Replied(ApiResponse.ErrorMessage(m, 404))
  }
}
