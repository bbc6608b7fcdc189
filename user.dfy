/**
 * The `User` service: the checks on a login or registration body, the record a
 * registration stores, and the decision a login makes. Password hashing and
 * token generation are opaque functions passed in by the caller.
 */
module User {
  import opened Wrappers
  import opened JavaText
  import opened Json
  import ApiResponse
  import opened DbQueryHelper
  import opened Web

  const TABLE := "users"

  const BODY_EMPTY := "Request body is empty"
  const BODY_MALFORMED := "Malformed JSON request"
  const USERNAME_EMPTY := "Username cannot be empty"
  const PASSWORD_EMPTY := "Password cannot be empty"
  const USER_NOT_FOUND := "User not found"
  const INVALID_PASSWORD := "Invalid password"

  /** `parseRequestBody`: unlike the other services, a body that is not a JSON object is answered, not thrown. */
  function ParseRequestBody(body: RequestBody): (r: Step<Object>)
    ensures r.Success? <==> body.Parsed?
    ensures r.Success? ==> r.value == body.obj
    ensures body.NoBody? ==> r == Failure(Reject(BODY_EMPTY, 400))
    ensures body.Malformed? ==> r == Failure(Reject(BODY_MALFORMED, 400))
  {
    match body
    case NoBody => Failure(Reject(BODY_EMPTY, 400))
    case Malformed => Failure(Reject(BODY_MALFORMED, 400))
    case Parsed(o) => Success(o)
  }

  /** The user name and password a valid body carries. */
  datatype Login = Login(username: string, password: string)

  /**
   * `validateUserData`: the user name must be non-null and not blank, and then
   * so must the password. The source answers and returns `true` on a failure;
   * here the failure is the answer, and a success carries the two strings.
   */
  function ValidateUserData(data: Object, nestedText: Json -> string): (r: Step<Login>)
    ensures r.Success? <==>
      !IsNullOrBlank(GetString(data, "username", nestedText)) && !IsNullOrBlank(GetString(data, "password", nestedText))
    ensures r.Success? ==>
      && Some(r.value.username) == GetString(data, "username", nestedText)
      && Some(r.value.password) == GetString(data, "password", nestedText)
    ensures IsNullOrBlank(GetString(data, "username", nestedText)) ==> r == Failure(Reject(USERNAME_EMPTY, 400))
    ensures !IsNullOrBlank(GetString(data, "username", nestedText)) && IsNullOrBlank(GetString(data, "password", nestedText))
        ==> r == Failure(Reject(PASSWORD_EMPTY, 400))
  {
    var username := GetString(data, "username", nestedText);
    var password := GetString(data, "password", nestedText);
    if IsNullOrBlank(username) then Failure(Reject(USERNAME_EMPTY, 400))
    else if IsNullOrBlank(password) then Failure(Reject(PASSWORD_EMPTY, 400))
    else Success(Login(username.value, password.value))
  }

  /** A blank user name is reported even when the password is missing too. */
  lemma UsernameCheckedFirst(data: Object, nestedText: Json -> string)
    requires Get(data, "username") == Some(JStr("  "))
    requires !HasKey(data, "password")
    ensures ValidateUserData(data, nestedText) == Failure(Reject(USERNAME_EMPTY, 400))
  {
    assert IsTrimmed("  "[0]) && IsTrimmed("  "[1]);
  }

  // ---------------------------------------------------------------------------
  // registerUser
  // ---------------------------------------------------------------------------

  /** The record a registration inserts: the user name and the hash of the password. */
  function UserRecord(login: Login, hash: string -> string): (r: Object)
    ensures Keys(r) == ["username", "password"]
    ensures Get(r, "username") == Some(JStr(login.username))
    ensures Get(r, "password") == Some(JStr(hash(login.password)))
  {
    PutTwo("username", JStr(login.username), "password", JStr(hash(login.password)));
    Put(Put([], "username", JStr(login.username)), "password", JStr(hash(login.password)))
  }

  /** `registerUser`: the body checks, then the insert of `UserRecord`, answering 201 or the failure's message with 400. */
  function RegisterUser(body: RequestBody, p: Platform, hash: string -> string): (r: Outcome)
    ensures ParseRequestBody(body).Failure? ==> r == ParseRequestBody(body).error
    ensures ParseRequestBody(body).Success? && ValidateUserData(body.obj, p.nestedText).Failure? ==>
      r == ValidateUserData(body.obj, p.nestedText).error
    ensures ParseRequestBody(body).Success? && ValidateUserData(body.obj, p.nestedText).Success? ==>
      var login := ValidateUserData(body.obj, p.nestedText).value;
      r == match p.execute(InsertQuery(TABLE, UserRecord(login, hash), p.nestedText))
           case Done => Replied(ApiResponse.Success(None, Some("User registered successfully"), 201))
           case Failed(m) => Replied(ApiResponse.ErrorMessage(m, 400))
  {
    match ParseRequestBody(body)
    case Failure(o) => o
    case Success(b) =>
      match ValidateUserData(b, p.nestedText)
      case Failure(o) => o
      case Success(login) =>
        match p.execute(InsertQuery(TABLE, UserRecord(login, hash), p.nestedText))
        case Done => Replied(ApiResponse.Success(None, Some("User registered successfully"), 201))
        case Failed(m) => Replied(ApiResponse.ErrorMessage(m, 400))
  }

  /** The column list and the placeholders of the registration insert. */
  lemma RegistrationColumns(login: Login, hash: string -> string)
    ensures JoinWith(Keys(UserRecord(login, hash)), SEPARATOR) == "username, password"
    ensures JoinWith(Placeholders(|Keys(UserRecord(login, hash))|), SEPARATOR) == "$1, $2"
  {
    assert JoinWith(["username", "password"], SEPARATOR) == "username, password";
    assert Placeholder(1) == "$1" && Placeholder(2) == "$2";
    assert Placeholders(2) == ["$1", "$2"];
    assert JoinWith(["$1", "$2"], SEPARATOR) == "$1, $2";
  }

  /**
   * A registration runs exactly one statement, which stores the user name and
   * the hash of the password under the columns `username` and `password`: the
   * `password` column binds hash(password).
   */
  lemma RegistrationStatement(login: Login, hash: string -> string, nestedText: Json -> string)
    ensures var q := InsertQuery(TABLE, UserRecord(login, hash), nestedText);
      && q.sql == "INSERT INTO " + TABLE + " (" + "username, password" + ") VALUES (" + "$1, $2" + ")"
      && q.params == [JStr(login.username), JStr(hash(login.password))]
  {
    var record := UserRecord(login, hash);
    RegistrationColumns(login, hash);
    assert FieldValue(record, "username") == JStr(login.username);
    assert FieldValue(record, "password") == JStr(hash(login.password));
    assert InsertParams(record, nestedText) == [JStr(login.username), JStr(hash(login.password))];
  }

  // ---------------------------------------------------------------------------
  // authenticateUser
  // ---------------------------------------------------------------------------

  /** `user.remove("password")` then `user.put("token", token)` on the fetched record. */
  method Authenticated(user: Object, token: string) returns (r: Object)
    ensures r == LoginRecord(user, token)
  {
    r := user;
    r := Remove(r, "password");
    r := Put(r, "token", JStr(token));
  }

  /** The record a successful login returns: the fetched one without its password, with the token. */
  function LoginRecord(user: Object, token: string): (r: Object)
    ensures !HasKey(r, "password")
    ensures Get(r, "token") == Some(JStr(token))
    ensures forall k :: k != "password" && k != "token" ==> Get(r, k) == Get(user, k)
  {
    Put(Remove(user, "password"), "token", JStr(token))
  }

  /** The lookup a login makes. */
  function UserLookup(login: Login): Query {
    FetchOne(TABLE, "username", JStr(login.username))
  }

  /**
   * The decision `authenticateUser` makes on the fetched record: no record is
   * "User not found"; a record without a password makes `equals` throw
   * `NullPointerException`, whose message is the reply; a stored hash equal to
   * the hash of the given password logs in; anything else is "Invalid password".
   */
  function LoginDecision(login: Login, found: Fetched, p: Platform, hash: string -> string, token: string -> string): (r: Outcome)
    ensures found.NotFound? ==> r == Reject(USER_NOT_FOUND, 401)
    ensures found.FetchFailed? ==> r == Replied(ApiResponse.ErrorMessage(found.message, 401))
    ensures found.Found? && GetString(found.row, "password", p.nestedText).None? ==>
      r == Replied(ApiResponse.ErrorMessage(p.jvmMessage(NullPointer), 401))
    ensures found.Found? && GetString(found.row, "password", p.nestedText).Some?
            && GetString(found.row, "password", p.nestedText).value != hash(login.password)
        ==> r == Reject(INVALID_PASSWORD, 401)
    ensures found.Found? && GetString(found.row, "password", p.nestedText) == Some(hash(login.password)) ==>
      r == Replied(ApiResponse.Success(Some(JObj(LoginRecord(found.row, token(login.username)))), Some("Login successful"), 200))
  {
    match found
    case NotFound => Reject(USER_NOT_FOUND, 401)
    case FetchFailed(m) => Replied(ApiResponse.ErrorMessage(m, 401))
    case Found(user) =>
      match GetString(user, "password", p.nestedText)
      case None => Replied(ApiResponse.ErrorMessage(p.jvmMessage(NullPointer), 401))
      case Some(stored) =>
        if stored == hash(login.password) then
          Replied(ApiResponse.Success(Some(JObj(LoginRecord(user, token(login.username)))), Some("Login successful"), 200))
        else Reject(INVALID_PASSWORD, 401)
  }

  /** `authenticateUser`. */
  function AuthenticateUser(body: RequestBody, p: Platform, hash: string -> string, token: string -> string): (r: Outcome)
    ensures ParseRequestBody(body).Failure? ==> r == ParseRequestBody(body).error
    ensures ParseRequestBody(body).Success? && ValidateUserData(body.obj, p.nestedText).Failure? ==>
      r == ValidateUserData(body.obj, p.nestedText).error
    ensures ParseRequestBody(body).Success? && ValidateUserData(body.obj, p.nestedText).Success? ==>
      var login := ValidateUserData(body.obj, p.nestedText).value;
      r == LoginDecision(login, p.fetch(UserLookup(login)), p, hash, token)
  {
    match ParseRequestBody(body)
    case Failure(o) => o
    case Success(b) =>
      match ValidateUserData(b, p.nestedText)
      case Failure(o) => o
      case Success(login) => LoginDecision(login, p.fetch(UserLookup(login)), p, hash, token)
  }

  /**
   * A login answers 200 exactly when a record is found whose stored password is
   * the hash of the given one. The record it returns then has no `password`,
   * carries the token for the user name, and keeps every other field.
   */
  lemma LoginSucceedsIffHashMatches(login: Login, found: Fetched, p: Platform, hash: string -> string, token: string -> string)
    ensures var r := LoginDecision(login, found, p, hash, token);
      (r.Replied? && r.response.statusCode == 200)
        <==> found.Found? && GetString(found.row, "password", p.nestedText) == Some(hash(login.password))
    ensures var r := LoginDecision(login, found, p, hash, token);
      r.Replied? && r.response.statusCode == 200 ==>
        var returned := Get(r.response.body, "data");
        && returned.Some? && returned.value.JObj?
        && !HasKey(returned.value.members, "password")
        && Get(returned.value.members, "token") == Some(JStr(token(login.username)))
        && forall k :: k != "password" && k != "token" ==> Get(returned.value.members, k) == Get(found.row, k)
  {
    if found.Found? {
      var stored := GetString(found.row, "password", p.nestedText);
      if stored.Some? && stored.value == hash(login.password) {
        var record := LoginRecord(found.row, token(login.username));
        var response := ApiResponse.Success(Some(JObj(record)), Some("Login successful"), 200);
        assert LoginDecision(login, found, p, hash, token) == Replied(response);
        assert Get(response.body, "data") == Some(JObj(record));
      }
    }
  }

  /** Every failed login answers 401, whatever the reason. */
  lemma FailedLoginIsUnauthorized(login: Login, found: Fetched, p: Platform, hash: string -> string, token: string -> string)
    ensures var r := LoginDecision(login, found, p, hash, token);
      r.Replied? && (r.response.statusCode == 200 || r.response.statusCode == 401)
  {
  }

  /** The password is compared only through its hash: two passwords with the same hash decide a login alike. */
  lemma LoginDependsOnHashOnly(u: string, pw1: string, pw2: string, found: Fetched, p: Platform, hash: string -> string, token: string -> string)
    requires hash(pw1) == hash(pw2)
    ensures LoginDecision(Login(u, pw1), found, p, hash, token) == LoginDecision(Login(u, pw2), found, p, hash, token)
  {
  }
}
