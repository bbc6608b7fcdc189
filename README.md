# NMS discovery core in Dafny

A model of the decision and text-building logic of NMS, a small network
monitoring server built on Vert.x. It covers:

- the discovery engine, which reads a discovery request, expands its target
  (`A.B.C.s-e` or a dotted quad) into addresses, sweeps them with `fping`,
  checks a TCP port on the first live address and hands that address to a
  worker process, replying with the worker's output or with an error
  envelope;
- `DbQueryHelper`, which turns an ordered JSON object into prepared
  PostgreSQL statements with `$1..$n` placeholders and a parameter tuple;
- the request checks and handler outcomes of the `Credential`, `Discovery`
  and `User` services;
- the `ApiResponse` reply envelopes.

Everything the code learns from outside is a parameter:

- The engine gets an `Env`:
  - the `fping` run for a command line, which did not start, timed out, or
    exited with a code and its merged output;
  - whether a TCP connect succeeds;
  - the worker run for a payload;
  - the library's JSON text of nested values;
  - the message the JVM gives each exception kind.
- The services get a `Platform`: how a statement executes, what a `fetchOne`
  returns (a record, null, or a failure with its message), the same JSON
  text oracle and the same JVM messages.
- Password hashing and token generation are uninterpreted functions.

Modules:

| file | module | what it holds |
|---|---|---|
| wrappers.dfy | `Wrappers` | `Option`, `Result` |
| java_text.dfy | `JavaText` | `Integer.parseInt` and `toString`, `String.trim`, `BufferedReader.readLine` splitting, `split` and `join`, `int` narrowing, and the JVM exception kinds |
| json.dfy | `Json` | JSON values and ordered objects (`put`, `remove`, `containsKey`), and the typed Vert.x getters |
| api_response.dfy | `ApiResponse` | the success and error envelopes |
| db_query_helper.dfy | `DbQueryHelper` | insert, update, delete and fetchOne statements |
| web.dfy | `Web` | request bodies, handler outcomes, the platform oracles and the shared path-id check |
| credential.dfy | `Credential` | the credential handlers |
| discovery.dfy | `Discovery` | the discovery handlers, the whitelist copy and the credential-id check |
| user.dfy | `User` | registration and login |
| discovery_engine.dfy | `DiscoveryEngine` | the discovery pipeline and its reply |

Where the behaviour of a loop matters, the loop is a method proved equal to a
specification function. This covers:

- `ExpandIpRange`, `ReadActiveIps` and `SpawnDiscoveryProcess` in the engine;
- `Insert` and `Update` in `DbQueryHelper`;
- `BuildUpdateData` and `ValidateCredentialIDs` in `Discovery`;
- `Authenticated` in `User`.

The properties are proved about those functions.

Where prose descriptions of the system and the code differ, the model follows
the code. Two differences matter:

- The three base octets of a range are copied as written and never checked.
  An address from such a range therefore does not always re-expand to itself.
  It does when the base octets are valid (`DiscoveryEngine.ReExpansion`). It
  fails when the first is past 255 (`DiscoveryEngine.RangeBaseNotChecked`).
- `createDiscovery` checks the ids under `credential_ids`. The body check
  looks at `credentialIDs`, a different key
  (`Discovery.CreateIgnoresCredentialIDsKey`).

## Model

| member | source | states |
|---|---|---|
| ApiResponse.Success | src/main/java/org/example/utils/ApiResponse.java:9-24 | status is "success"; message is the given one, or "Operation successful" when null; `data` is present iff data is non-null, and then holds it; the keys are status, message[, data]; the status code is passed through |
| ApiResponse.Error | src/main/java/org/example/utils/ApiResponse.java:26-41 | status is "error"; message is the given one, or "Operation failed" when null; `error` is present iff errorDetails is non-null, and then holds it; the key order; the status code |
| ApiResponse.ErrorMessage | src/main/java/org/example/utils/ApiResponse.java:43-46 | the three-argument overload: an error envelope with the defaulted message that never carries `error` |
| ApiResponse.SuccessIsNotError | src/main/java/org/example/utils/ApiResponse.java:11-13 | no success envelope equals an error envelope; `status` tells them apart |
| DbQueryHelper.Insert | src/main/java/org/example/db/DbQueryHelper.java:31-59 | the loop that builds the tuple, together with the column list and placeholders, yields exactly `InsertQuery`: "INSERT INTO t (k1, ..., kn) VALUES ($1, ..., $n)" and one parameter per field |
| DbQueryHelper.InsertAlignment | src/main/java/org/example/db/DbQueryHelper.java:33-59 | one column, one placeholder and one parameter per field; `$(i+1)` binds the i-th field's value, stringified when nested; there is no `$(n+1)` |
| DbQueryHelper.InsertStringifiesOnlyNested | src/main/java/org/example/db/DbQueryHelper.java:49-58 | a parameter differs from the stored value exactly when that value is an array or an object |
| DbQueryHelper.Placeholders | src/main/java/org/example/db/DbQueryHelper.java:39-41 | there are n placeholders for n fields |
| DbQueryHelper.PlaceholderNumber | src/main/java/org/example/db/DbQueryHelper.java:40 | placeholder `$i` starts with `$` and its digits read back as i |
| DbQueryHelper.PlaceholderInjective | src/main/java/org/example/db/DbQueryHelper.java:40 | distinct positions get distinct placeholders |
| DbQueryHelper.SetItems | src/main/java/org/example/db/DbQueryHelper.java:71-73 | one SET item per field |
| DbQueryHelper.Update | src/main/java/org/example/db/DbQueryHelper.java:67-84 | the tuple loop together with the SET clause yields exactly `UpdateQuery`: "UPDATE t SET k1 = $1, ... WHERE c = $(n+1)", with the n values followed by the id |
| DbQueryHelper.UpdateAlignment | src/main/java/org/example/db/DbQueryHelper.java:71-84 | SET item i is "k_i = $i" and binds the i-th value unchanged; `$(n+1)` differs from every SET placeholder and binds the id; the tuple has n+1 entries |
| DbQueryHelper.InsertAndUpdateAgree | src/main/java/org/example/db/DbQueryHelper.java:49-58 | insert and update bind the same value for a field exactly when it is not nested |
| DbQueryHelper.Delete | src/main/java/org/example/db/DbQueryHelper.java:92-101 | "DELETE FROM t WHERE c = $1" with the id as the only parameter |
| DbQueryHelper.FetchOne | src/main/java/org/example/db/DbQueryHelper.java:104-112 | "SELECT * FROM t WHERE c = $1" with the id as the only parameter |
| DbQueryHelper.SameRowSelection | src/main/java/org/example/db/DbQueryHelper.java:75-112 | delete, fetchOne and an empty-field update share the condition "WHERE c = $1" and the one-element tuple |
| Web.ParsePathId | src/main/java/org/example/services/Credential.java:99-117 | succeeds iff the id is non-null and `Integer.parseInt` accepts it, with that `int`; otherwise 400 with the "empty" message for a null or blank id and the "invalid" message for other text |
| Web.PathIdRoundTrip | src/main/java/org/example/services/Credential.java:108-110 | every `int`, printed, is accepted as that id |
| Web.PaddedIdIsInvalid | src/main/java/org/example/services/Credential.java:103-116 | " 7" is not trimmed before parsing, so it is invalid, not empty |
| Credential.ValidateAndGetId | src/main/java/org/example/services/Credential.java:99-117 | "ID cannot be empty" for a null or blank id, "Invalid ID format" for a non-integer one, otherwise the parsed `int` |
| Credential.ParseAndValidateBody | src/main/java/org/example/services/Credential.java:119-143 | accepted iff there is an object body, all of name/attributes/type are present on create, and a present `type` is "SSH"; the accepted body is returned unchanged; the check order gives "Request body is empty", then "Missing fields: name, attributes, or type", then "Unsupported credential type: <type>"; a non-object body escapes as a decode exception |
| Credential.CreateBodyIsUpdateBody | src/main/java/org/example/services/Credential.java:129-141 | a body valid for create is valid for update |
| Credential.NullTypeIsUnsupported | src/main/java/org/example/services/Credential.java:135-138 | a JSON-null `type` is present but unsupported, and is reported as "null" |
| Credential.CreateCredential | src/main/java/org/example/services/Credential.java:27-40 | a validation failure is the reply; otherwise the body is inserted unchanged, answering 201 or "Insert failed: <msg>" with 400 |
| Credential.GetCredential | src/main/java/org/example/services/Credential.java:42-60 | an id failure is the reply; a record is returned as `data` with 200; null gives "Credential not found" with 404; a failed lookup gives its message with 404 |
| Credential.GetSucceedsIffFound | src/main/java/org/example/services/Credential.java:46-59 | a get answers 200 iff the id is valid and the lookup finds a record |
| Credential.UpdateCredential | src/main/java/org/example/services/Credential.java:62-77 | the id is checked before the body; an accepted update runs `UpdateQuery` on `credentials` by `id`, answering 200 or "Update failed: <msg>" with 400 |
| Credential.UpdateChecksIdFirst | src/main/java/org/example/services/Credential.java:64-70 | with a bad id the outcome does not depend on the body at all |
| Credential.DeleteCredential | src/main/java/org/example/services/Credential.java:79-89 | an id failure is the reply; otherwise the delete runs, answering 200 or "Delete failed: <msg>" with 404 |
| Discovery.ParseAndValidateBody | src/main/java/org/example/services/Discovery.java:241-264 | accepted iff there is an object body and a present `credentialIDs` resolves to an array; the accepted body is unchanged; "Request body is empty"; null under `credentialIDs` gives "credentialIDs must be a valid JSON array"; a non-array value escapes as ClassCastException |
| Discovery.NullCredentialIdsRefused | src/main/java/org/example/services/Discovery.java:253-259 | an explicit null under `credentialIDs` is refused |
| Discovery.ValidateId | src/main/java/org/example/services/Discovery.java:109-127 | "Discovery ID cannot be empty" for a null or blank id, "Invalid discovery ID format" for a non-integer one, otherwise the parsed id |
| Discovery.Present | src/main/java/org/example/services/Discovery.java:130-147 | a key is among the copied keys iff it is whitelisted and the body holds it |
| Discovery.CopyKeysShape | src/main/java/org/example/services/Discovery.java:129-147 | a copy over a key list holds exactly the listed keys the body holds, in list order, each with its copied value |
| Discovery.UpdateDataWhitelist | src/main/java/org/example/services/Discovery.java:129-147 | the update data holds exactly name, ip, credentialIDs and result where the body has them, in that order; other keys are dropped and absent keys are not added |
| Discovery.CopyStringField | src/main/java/org/example/services/Discovery.java:130-137 | one `containsKey`/`put(getString)` step extends the copy by that key |
| Discovery.CopyArrayField | src/main/java/org/example/services/Discovery.java:139-147 | one `containsKey`/`put(getJsonArray)` step extends the copy, or throws ClassCastException exactly when the value is not an array |
| Discovery.BuildUpdateData | src/main/java/org/example/services/Discovery.java:129-147 | the successive puts on a fresh object build exactly `UpdateData` |
| Discovery.ElementIds | src/main/java/org/example/services/Discovery.java:223-226 | `getInteger(i)` unboxed for every element, which succeeds iff every element is an integer, keeping the order |
| Discovery.Lookups | src/main/java/org/example/services/Discovery.java:222-226 | one lookup per id |
| Discovery.ValidateCredentialIDs | src/main/java/org/example/services/Discovery.java:217-239 | the lookup loop and the early-exit scan give exactly `CredentialIdsVerdict` |
| Discovery.EmptyListIsValid | src/main/java/org/example/services/Discovery.java:218-220 | an empty list passes |
| Discovery.ValidIffAllFound | src/main/java/org/example/services/Discovery.java:222-237 | for a list of numbers, the check passes iff every lookup finds a record |
| Discovery.FirstMissingIsNamed | src/main/java/org/example/services/Discovery.java:231-236 | the failure names "Credential ID <id> does not exist." for the first id, in list order, whose lookup is null |
| Discovery.CredentialIdsOf | src/main/java/org/example/services/Discovery.java:40 | `credential_ids` defaults to the empty list when absent or null; an array is taken as it is; any other value escapes as ClassCastException |
| Discovery.CreateDiscovery | src/main/java/org/example/services/Discovery.java:29-64 | a body failure is the reply; then the list under `credential_ids` decides: an exception of the id check escapes, a failed check answers its message with 400, a passed one inserts the body as sent (201, or the insert's message with 400); with no listed ids the body is inserted |
| Discovery.CreateIgnoresCredentialIDsKey | src/main/java/org/example/services/Discovery.java:40 | a body with only `credentialIDs` is inserted whatever the lookups would say |
| Discovery.CreateWithAllCredentials | src/main/java/org/example/services/Discovery.java:40-58 | for any list of numbers under `credential_ids`, the body is inserted when every listed id is found |
| Discovery.CreateWithMissingCredential | src/main/java/org/example/services/Discovery.java:40-63 | for any list of numbers, when no lookup fails, the first listed id whose lookup is null answers 400 "Credential ID <id> does not exist." |
| Discovery.UpdateDiscovery | src/main/java/org/example/services/Discovery.java:98-159 | the body is checked before the id; then `UpdateData` is written by `UpdateQuery` on `discoveries` by `id`, answering 200 "Discovery updated successfully" or the failure's message with 400 |
| Discovery.UpdateSetsOnlyWhitelisted | src/main/java/org/example/services/Discovery.java:129-151 | every SET item of an accepted update names a whitelisted key the body holds |
| Discovery.DeleteDiscovery | src/main/java/org/example/services/Discovery.java:161-191 | an id failure is the reply; otherwise the delete runs, answering 200 or the failure's message with 404 |
| User.ParseRequestBody | src/main/java/org/example/services/User.java:124-146 | succeeds iff an object body arrived; "Request body is empty" and "Malformed JSON request" with 400 |
| User.ValidateUserData | src/main/java/org/example/services/User.java:165-186 | valid iff the username and password are both non-null and non-blank, and then they are carried; "Username cannot be empty" is checked before "Password cannot be empty" |
| User.UsernameCheckedFirst | src/main/java/org/example/services/User.java:172-177 | a blank username is reported even when the password is missing |
| User.UserRecord | src/main/java/org/example/services/User.java:52-54 | the stored record is exactly {username, password: hash(password)} |
| User.RegisterUser | src/main/java/org/example/services/User.java:35-65 | body and validation failures are the reply; otherwise `UserRecord` is inserted, answering 201 "User registered successfully", or the failure's message with 400 |
| User.RegistrationColumns | src/main/java/org/example/services/User.java:52-58 | the insert's columns are "username, password" and its placeholders "$1, $2" |
| User.RegistrationStatement | src/main/java/org/example/services/User.java:52-58 | registration runs "INSERT INTO users (username, password) VALUES ($1, $2)" with the username and the hash: the `password` column binds hash(password) |
| User.Authenticated | src/main/java/org/example/services/User.java:100-104 | the `remove`/`put` steps on the fetched record give `LoginRecord` |
| User.LoginRecord | src/main/java/org/example/services/User.java:100-104 | no `password`; `token` holds the token; every other key is unchanged |
| User.LoginDecision | src/main/java/org/example/services/User.java:85-121 | no record gives "User not found" with 401; a failed lookup gives its message with 401; a record without a password gives the NullPointerException message with 401; a stored hash other than hash(input) gives "Invalid password" with 401; a matching hash gives 200 "Login successful" with `LoginRecord` as data |
| User.AuthenticateUser | src/main/java/org/example/services/User.java:67-122 | body and validation failures are the reply; otherwise the decision on the lookup by username |
| User.LoginSucceedsIffHashMatches | src/main/java/org/example/services/User.java:94-115 | 200 iff a record is found whose stored password is hash(input); the data returned then has no password, holds the token, and keeps every other field of the record |
| User.FailedLoginIsUnauthorized | src/main/java/org/example/services/User.java:88-121 | a login always replies, with 200 or 401 |
| User.LoginDependsOnHashOnly | src/main/java/org/example/services/User.java:94-98 | two passwords with the same hash decide a login alike |
| DiscoveryEngine.ReadContext | src/main/java/org/example/Engine/DiscoveryEngine.java:66-78 | the first context yields a target iff it is an object with ip, port and credentials all present and of the right type; a null among them gives "Missing required fields"; every other failure is an exception |
| DiscoveryEngine.ReadRequest | src/main/java/org/example/Engine/DiscoveryEngine.java:52-78 | requestType other than "Discovery" goes first, giving "Invalid request type"; then a null or empty `contexts` gives "No discovery contexts provided"; then only `contexts[0]` is read |
| DiscoveryEngine.ParseRange | src/main/java/org/example/Engine/DiscoveryEngine.java:21 | a match of the range pattern is five digit runs with the text a.b.c.first-last |
| DiscoveryEngine.ParseRangeSound | src/main/java/org/example/Engine/DiscoveryEngine.java:21 | the pieces of a match rebuild the input |
| DiscoveryEngine.ParseRangeComplete | src/main/java/org/example/Engine/DiscoveryEngine.java:21 | every well-formed range text matches, with its own groups |
| DiscoveryEngine.ValidIpIff | src/main/java/org/example/Engine/DiscoveryEngine.java:157-180 | a single address is valid iff it is four dot-separated runs of 1-3 ASCII digits, each at most 255; leading zeros are allowed |
| DiscoveryEngine.OctetOfByte | src/main/java/org/example/Engine/DiscoveryEngine.java:159-173 | a number in 0..255 prints as a valid octet text |
| DiscoveryEngine.DottedQuadIsValid | src/main/java/org/example/Engine/DiscoveryEngine.java:157-180 | four numbers in 0..255, printed and joined by dots, make a valid address |
| DiscoveryEngine.RangeIsNotAddress | src/main/java/org/example/Engine/DiscoveryEngine.java:133-152 | no text is both a range and a single address |
| DiscoveryEngine.RangeIps | src/main/java/org/example/Engine/DiscoveryEngine.java:143-146 | e-s+1 addresses for s <= e, none otherwise |
| DiscoveryEngine.ExpandIpRange | src/main/java/org/example/Engine/DiscoveryEngine.java:127-155 | the append loop returns exactly `Expansion`, including the NumberFormatException of an oversized bound |
| DiscoveryEngine.RangeExpansion | src/main/java/org/example/Engine/DiscoveryEngine.java:133-147 | a range with s <= e <= 255 expands to `base+s` .. `base+e` |
| DiscoveryEngine.RangeIpsAscend | src/main/java/org/example/Engine/DiscoveryEngine.java:143-146 | the i-th address is `base + (s+i)`, and its last piece reads back as s+i, so they ascend |
| DiscoveryEngine.RangeIpsDistinct | src/main/java/org/example/Engine/DiscoveryEngine.java:143-146 | the addresses of a range are pairwise distinct |
| DiscoveryEngine.EmptyRange | src/main/java/org/example/Engine/DiscoveryEngine.java:133-149 | a matching range with s > e or e > 255 expands to nothing, with no single-address fallback |
| DiscoveryEngine.SingleAddress | src/main/java/org/example/Engine/DiscoveryEngine.java:149-152 | the input expands to itself alone iff it is a valid address |
| DiscoveryEngine.RangeBaseNotChecked | src/main/java/org/example/Engine/DiscoveryEngine.java:135 | the base is copied unchecked: a first octet past 255 makes every expanded address invalid |
| DiscoveryEngine.ReExpansion | src/main/java/org/example/Engine/DiscoveryEngine.java:135-152 | with a valid base, every expanded address re-expands to exactly itself |
| DiscoveryEngine.LiveIps | src/main/java/org/example/Engine/DiscoveryEngine.java:215-223 | no reported address is empty |
| DiscoveryEngine.Kept | src/main/java/org/example/Engine/DiscoveryEngine.java:217-222 | a line contributes at most one non-empty address |
| DiscoveryEngine.LiveIpsAppend | src/main/java/org/example/Engine/DiscoveryEngine.java:215-223 | the filter keeps emission order: it distributes over concatenation of the lines |
| DiscoveryEngine.NoLiveIpsIffBlank | src/main/java/org/example/Engine/DiscoveryEngine.java:215-223 | no address is reported iff every line is blank |
| DiscoveryEngine.FirstLiveIp | src/main/java/org/example/Engine/DiscoveryEngine.java:215-223 | the first reported address is the first non-blank line, trimmed |
| DiscoveryEngine.PerformFping | src/main/java/org/example/Engine/DiscoveryEngine.java:182-234 | returns exactly `Liveness`: nothing for no targets, the exception of a failed start, "fping timed out" when waitFor fails, otherwise the filtered lines |
| DiscoveryEngine.ReadActiveIps | src/main/java/org/example/Engine/DiscoveryEngine.java:211-224 | the readLine loop collects exactly the trimmed non-blank lines, in order |
| DiscoveryEngine.AddTrimmed | src/main/java/org/example/Engine/DiscoveryEngine.java:217-222 | the loop body appends the trimmed line iff it is non-empty |
| DiscoveryEngine.WorkerContext | src/main/java/org/example/Engine/DiscoveryEngine.java:251-254 | the context holds ip, port, credentials in that order, the credentials unchanged |
| DiscoveryEngine.Payload | src/main/java/org/example/Engine/DiscoveryEngine.java:248-254 | {requestType: "Discovery", contexts: [context]} |
| DiscoveryEngine.PayloadRoundTrip | src/main/java/org/example/Engine/DiscoveryEngine.java:248-254 | the engine's own request checks read the payload back as the address, port and credentials it was built from |
| DiscoveryEngine.OutputKept | src/main/java/org/example/Engine/DiscoveryEngine.java:270-273 | the accumulated result is the worker's output with a final newline added when missing, for output without carriage returns |
| DiscoveryEngine.SuccessReply | src/main/java/org/example/Engine/DiscoveryEngine.java:288-290 | {status: "success", result} |
| DiscoveryEngine.WorkerOutcome | src/main/java/org/example/Engine/DiscoveryEngine.java:276-290 | success iff the worker started, exited in time and exited with 0, holding the lines each followed by "\n"; otherwise "Go process timed out", "Go process failed with exit code: n", or the start exception |
| DiscoveryEngine.SpawnDiscoveryProcess | src/main/java/org/example/Engine/DiscoveryEngine.java:246-291 | the line-accumulating loop returns exactly `WorkerOutcome` |
| DiscoveryEngine.HandleDiscoveryRequest | src/main/java/org/example/Engine/DiscoveryEngine.java:44-125 | the early-return chain of stages returns exactly `Discover` |
| DiscoveryEngine.RequestChecksFirst | src/main/java/org/example/Engine/DiscoveryEngine.java:52-78 | a failed request check is the outcome whatever the sweep, the connect or the worker would do |
| DiscoveryEngine.OnlyFirstContextUsed | src/main/java/org/example/Engine/DiscoveryEngine.java:66 | requests agreeing on the type and `contexts[0]` get the same outcome |
| DiscoveryEngine.EmptyTargetSkipsSweep | src/main/java/org/example/Engine/DiscoveryEngine.java:80-86 | a target expanding to nothing gives "Invalid IP or range" and no sweep or worker runs |
| DiscoveryEngine.BlankSweepHasNoActiveIps | src/main/java/org/example/Engine/DiscoveryEngine.java:88-94 | a sweep printing only blank lines gives "No active IPs found" |
| DiscoveryEngine.FirstLiveAddressProbed | src/main/java/org/example/Engine/DiscoveryEngine.java:96-106 | only the first non-blank sweep line, trimmed, goes on: a closed port on it is the failure, an open one hands it to the worker with the requested port and credentials |
| DiscoveryEngine.ClosedPortNeverRunsWorker | src/main/java/org/example/Engine/DiscoveryEngine.java:98-102 | a closed port gives "Port <port> is not open on IP: <ip>" whatever the worker would do |
| DiscoveryEngine.ErrorResponse | src/main/java/org/example/Engine/DiscoveryEngine.java:293-298 | {status: "error", message}, with a null message stored as JSON null |
| DiscoveryEngine.ReplyShape | src/main/java/org/example/Engine/DiscoveryEngine.java:36-38 | when every child process's output ends, every request gets exactly one reply: on success {status: "success", result}, and on failure {status: "error", message} carrying the failure's message |
| JavaText.ParseInt | src/main/java/org/example/services/Credential.java:110 | `Integer.parseInt`: an accepted value is an `int` |
| JavaText.ParseIntOfDecimal | src/main/java/org/example/Engine/DiscoveryEngine.java:137-139 | parsing a printed `int` gives it back |
| JavaText.ParseIntOfShortDigits | src/main/java/org/example/Engine/DiscoveryEngine.java:171 | one to three digits always parse, to their value |
| JavaText.ParsedIsNotBlank | src/main/java/org/example/services/Credential.java:103-110 | text that parses is never blank |
| JavaText.Trim | src/main/java/org/example/Engine/DiscoveryEngine.java:217 | `String.trim`: the result is the input without leading and trailing characters up to U+0020, and is empty iff every character is one of those |
| JavaText.ReadLines | src/main/java/org/example/Engine/DiscoveryEngine.java:215 | the lines a readLine loop sees hold no line terminator |
| JavaText.ToInt32 | src/main/java/org/example/Engine/DiscoveryEngine.java:70 | `intValue()`: the low 32 bits, identity on `int` values |
| Json.Put | src/main/java/org/example/services/Discovery.java:129-147 | `put` sets the key, leaves the others alone, and appends a new key at the end |
| Json.Remove | src/main/java/org/example/services/User.java:100 | `remove` drops the key and leaves the others alone |
| Json.GetString | src/main/java/org/example/Engine/DiscoveryEngine.java:52 | `getString` is null iff the key is absent or holds null, and is the string itself for a string |

## Left out

- The child processes (starting, waiting, timeouts, `destroy`) are OS I/O. Each run is an oracle answer in `Env`: did not start, ran but timed out, or exited with a code and its merged output. The timeout constants are kept only as named values.
- The TCP connect in `scanPortBlocking` is network I/O and is a boolean oracle. Its exceptions (an interrupted `get`) are not modelled.
- `vertx.executeBlocking`, the promise plumbing and the event-bus consumer exist for concurrency. The handler body is the sequential function `Discover`, and the consumer's reply is `Reply`.
- `IOException` while reading a process's output is not modelled: the output is read to its end.
- DiscoveryEngine.ReplyShape: the model assumes every child process's output ends. The source reads `fping`'s and the worker's output to end of file before `waitFor` applies its 30 s or 60 s deadline. A child that keeps its output open (for example a program started by `go run` that inherits the pipe and hangs) blocks the handler forever, and no reply is sent. The deadlines are therefore not enforced while output is open, and that case is not modelled.
- The exit code of `fping` is ignored by the source, and the model ignores it too. The worker's exit code is any `int` the oracle gives.
- JSON text encoding (`encode()`, including the worker's command-line argument) is a library call. Payloads stay structured values, and the text of nested values is an oracle.
- Password hashing (SHA-256, Base64) and JWT tokens are foreign crypto. They are uninterpreted functions.
- The texts of JVM exception messages (NullPointerException, ClassCastException) are an oracle. Only the NumberFormatException text of `Integer.parseInt` is written out.
- The oracle gives one message per exception kind. The JVM's ClassCastException text names the target class, so `getInteger` and `getJsonArray` failing on the same context would give different messages. The model does not tell them apart.
- `hashPassword`'s NoSuchAlgorithmException cannot happen on a standard JVM and is not modelled.
- Executing statements and reading rowsets are database calls. An execution is `Done` or `Failed(message)`. A `fetchOne` is `Found(row)`, `NotFound` or `FetchFailed(message)`. A NoSuchElementException from `iterator().next()` on an empty result is a `FetchFailed` with that exception's message, when the oracle gives one.
- `fetchAll`, `allCredential`, `allDiscovery` and `getDiscovery` are not part of this model. They only fetch and reply, with no checks beyond the path id.
- Routes, `Main`, configuration and the database pool are wiring with no logic.
- The HTTP side of `ApiResponse` (the status line written, the Content-Type header, the encoded body) is reduced to the status code and the JSON object.
- JSON numbers are integers. Fractional numbers and `getInteger`'s narrowing of them are not modelled.
- `Integer.parseInt` is modelled for ASCII digits with an optional sign. Other Unicode decimal digits, which Java also accepts, are not.
- `\d` in the range pattern is modelled as ASCII digits, as Java's default is.
- Discovery.ValidateCredentialIDs: `CompositeFuture.all` fails with whichever lookup fails first in time. The model takes the first failed lookup in list order, because the order of completion is not observable.
- User.Authenticated: the source mutates the fetched `JsonObject` in place. The model returns the updated object as a new value, so aliasing of that record is not captured.
