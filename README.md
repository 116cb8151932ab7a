# OneLogin PHP client: token lifecycle, cursor paging and envelope decoding

A Dafny model of the logic in `OneLoginClient`, the façade class of the OneLogin
PHP SDK. The model covers the parts of the class that branch or keep state:

- **Envelope decoders** (`Envelope.dfy`). Every API response is a JSON envelope
  with an optional `status {type, message}`, `data` and
  `pagination {before_cursor, after_cursor}`. The protected `handle*Response`,
  `extractErrorMessageFromResponse` and `get*Cursor` helpers become functions
  over an already-parsed `Envelope` datatype. The decoders test properties
  with `property_exists`, which holds for a property whose value is null, so
  `status.type`, `status.message` and `data` are each missing, null or
  present (`Envelope.Prop`).
- **Token lifecycle** (`Lifecycle.dfy`, `Client.dfy`). The client holds
  `accessToken`, `refreshToken`, `expiration`, `error` and `errorDescription`.
  `Lifecycle` states each operation (`cleanError`, `getAccessToken`,
  `refreshToken`, `revokeToken`, `prepareToken`) as a function from the old
  five-field `Session` to the new one and proves the lifecycle's properties on
  those functions. The class `Client.OneLoginClient` has the five fields and
  runs the same steps in place. Each of its methods is proved to leave exactly
  the state the matching function describes.
- **Cursor paginator** (`Pagination.dfy`, `Client.dfy`). `getUsers`, `getRoles`,
  `getEvents` and `getGroups` repeat one loop. It is modelled once as the method
  `Pagination.Paginate`. The method is proved against the reference function
  `Pagination.List`. The lemma `ListIsCursorWalk` then states what `List`
  returns without referring to the loop.

Every HTTP call is replaced by its outcome, a `Reply`:

- `Ok(envelope, status)` is a response the transport returned.
- `ClientError(status, envelope)` is a Guzzle `ClientException` (4xx).
- `OtherFailure(message)` is any other exception, including a 5xx
  `ServerException`.

A list call's server is the finite sequence of replies to its requests, in
order. The clock read by `isExpired` is an integer parameter `now`. PHP's loose
comparisons are written out: `$token == null` holds for null and `""`
(`Envelope.IsNull`), and `empty()` holds for null, `""`, `"0"` and `0`
(`Envelope.IsEmpty`, `Pagination.EmptyValue`). As a result, a cursor `"0"` ends
a listing.

Behaviours of the code that a reader might not expect, all kept in the model:

- An unrecognised session-token status message reaches `new Exception(...)`
  at line 119, which is neither qualified nor imported in namespace
  `OneLogin\api`. See Findings.
- A list call still runs after `prepareToken` failed. Its own success leaves the
  token error in place (`Client.ListKeepsTokenError`).
- A negative list limit is accepted. It yields one request and no records.
- The three credential fields are set one by one from the token record. A
  token record without `refresh_token` stores a null refresh token next to an
  access token.
- A failure whose status `message` holds null records a null error description.

## Model

| member | source | states |
|---|---|---|
| `Envelope.First` | src/OneLoginClient.php:104 | `$data[0]` is the first record when there is one, null (with a PHP notice) on an empty array |
| `Envelope.Head` | src/OneLoginClient.php:104 | `$content->data[0]` is the first record when `data` holds a non-empty array, and null when `data` is missing, null or empty |
| `Envelope.TokenOf` | src/OneLoginClient.php:104 | the token built from `data[0]` carries its access_token and refresh_token; it has an expiration exactly when created_at and expires_in are present, and that expiration is their sum; a null record gives an all-null token |
| `Envelope.ErrorMessage` | src/OneLoginClient.php:85-97 | an existing `status.message` gives its value (null included), else an existing `status.type` gives its value, else ""; the text is null only when the property read holds null |
| `Envelope.TokenResponse` | src/OneLoginClient.php:99-107 | a token is decoded exactly when `data` exists, and it is the token of `data[0]`; a null or empty `data` still gives a token, all-null |
| `Envelope.SessionTokenResponse` | src/OneLoginClient.php:109-123 | without status, message or data it returns null; "Success" gives SessionTokenInfo and "MFA is required for this user" SessionTokenMFAInfo, both from `data[0]`; any other message, null included, aborts with the class-not-found `Error` of line 119, which the client does not catch |
| `Envelope.UnrecognisedStatusEscapes` | src/OneLoginClient.php:113-122 | as written, the envelope with message "Account locked" and the one with a null message both abort with the uncaught class-not-found `Error`, while the corrected decoder returns an ordinary failure carrying the exception text |
| `Envelope.SessionTokenDecoded` | src/OneLoginClient.php:119 | with `throw new \Exception(...)`: failure exactly where the as-written decoder aborts, carrying "Status Message type not reognized: " and the message (null as ""); everywhere else it returns what the as-written decoder returns |
| `Envelope.SamlResponse` | src/OneLoginClient.php:125-143 | a result exists exactly when status, type, message and data exist (each may hold null); it keeps type and message; "Success" attaches `data` as the document, any other message, null included, an MFA from `data[0]` |
| `Envelope.DataResponse` | src/OneLoginClient.php:145-153 | `data` when it holds an array, else null (missing or null) |
| `Envelope.PageItems` | src/OneLoginClient.php:485-488 | a list page contributes its `data` records, or none when `data` is missing or null (`isset` fails) |
| `Envelope.OperationResponse` | src/OneLoginClient.php:155-163 | true exactly when status is present with type "success"; false in every other case, a null type included |
| `Envelope.AfterCursor` | src/OneLoginClient.php:208-218 | `pagination.after_cursor` when pagination is present, else null |
| `Envelope.BeforeCursor` | src/OneLoginClient.php:196-206 | `pagination.before_cursor` when pagination is present, else null |
| `Envelope.Caught` | src/OneLoginClient.php:275-282 | a ClientException records its status code and the envelope's error text (possibly null); any other exception records 500 and its message |
| `Lifecycle.CleanError` | src/OneLoginClient.php:69-73 | both error fields become null, credentials unchanged |
| `Lifecycle.RecordFailure` | src/OneLoginClient.php:275-282 | a caught failure fills the error pair from the failure and keeps the credentials |
| `Lifecycle.IsExpired` | src/OneLoginClient.php:220-224 | never expired without an expiration; not expired in the second of the expiration; expired one second after it |
| `Lifecycle.ReplyToken` | src/OneLoginClient.php:268-274 | getAccessToken returns a token exactly when a response came back in which `data` exists (even null) |
| `Lifecycle.StoreToken` | src/OneLoginClient.php:268-282 | the three credentials are kept, or all three replaced by the decoded token's, and replaced only when a response came back in which `data` exists; a response leaves the error pair alone, a caught failure fills it |
| `Lifecycle.Acquire` | src/OneLoginClient.php:245-283 | after getAccessToken the error pair is null exactly when a response came back; the credentials are the decoded token's, or unchanged when there is none |
| `Lifecycle.Refresh` | src/OneLoginClient.php:290-333 | without both tokens: 500 with "Access token ot Refresh token not provided" and the credentials kept, whatever the reply; with them, the returned token's credentials are stored with no error, and no token keeps the credentials |
| `Lifecycle.Revoke` | src/OneLoginClient.php:340-385 | a successful revoke nulls all five fields; any other outcome keeps the credentials and records an error code |
| `Lifecycle.Prepare` | src/OneLoginClient.php:226-233 | a held, unexpired token is kept with no request; an expired one without a refresh token fails with 500; otherwise a request is sent, and the error is null exactly when it was answered |
| `Lifecycle.RefreshToken` | src/OneLoginClient.php:290-324 | refreshToken returns a token only when both tokens were held, and then the one the reply carries |
| `Lifecycle.Revoked` | src/OneLoginClient.php:340-385 | revokeToken answers true exactly when an access token was held and the response status is 200 |
| `Lifecycle.ExpiryIsStrict` | src/OneLoginClient.php:220-224 | no expiration is never expired; a token expiring exactly now is not expired but is one second later; once expired, it stays expired |
| `Lifecycle.StoreIsAllOrNothing` | src/OneLoginClient.php:268-273 | acquire and refresh either keep all three credential fields or replace all three with the decoded token's, and replace them only for a response in which `data` exists |
| `Lifecycle.AcquireErrors` | src/OneLoginClient.php:245-283 | after getAccessToken the error is null exactly when a response came back; a 4xx records its status and the envelope's text; any other failure records 500 and its message |
| `Lifecycle.RefreshWithoutTokensSendsNothing` | src/OneLoginClient.php:290-296 | without both tokens the outcome does not depend on any reply (no request is sent): error 500 with "Access token ot Refresh token not provided", credentials kept, null returned |
| `Lifecycle.RefreshWithTokensIsAcquire` | src/OneLoginClient.php:298-332 | with both tokens held, refresh changes the state exactly as acquire does |
| `Lifecycle.RevokeOutcomes` | src/OneLoginClient.php:340-385 | status 200 nulls all three credentials with no error; no access token, another status or a failure keeps the credentials and records 500 with "Access token not provided", that status with the envelope's text, or the failure's pair |
| `Lifecycle.PrepareBranches` | src/OneLoginClient.php:226-233 | prepareToken acquires when the access token is null, refreshes when it is held and expired, and otherwise leaves every field unchanged |
| `Lifecycle.AcquiredTokenIsReused` | src/OneLoginClient.php:226-233 | after an acquire that stored a non-null token not yet expired, prepareToken changes nothing whatever the next reply |
| `Lifecycle.ExpiredTokenIsRefreshed` | src/OneLoginClient.php:226-233 | an expired token with both tokens held is replaced in full by a refresh whose response has `data`, with no error |
| `Lifecycle.RevokeThenPrepareAcquires` | src/OneLoginClient.php:367-371 | after a successful revoke, the next prepareToken performs a full acquire |
| `Pagination.ParseInt` | src/OneLoginClient.php:468 | intval of a string: only whitespace reads as 0, only a leading "-" gives a negative number, and a text starting with a digit reads as its leading digits |
| `Pagination.IntValReadsIntText` | src/OneLoginClient.php:468 | intval reads every integer back from its decimal text |
| `Pagination.ListRequest` | src/OneLoginClient.php:462-474 | the limit is the caller's non-empty limit, else 50; the query sent is the caller's less at most `limit`; `limit` is sent exactly when it is empty or below 50 |
| `Pagination.Walk` | src/OneLoginClient.php:480-504 | from request i on, with the records of the earlier pages, the number of requests lies between i+1 and the number of replies, so the loop ends within them |
| `Pagination.List` | src/OneLoginClient.php:480-504 | a list call makes at least one request and never more than the server has replies |
| `Pagination.ListIsCursorWalk` | src/OneLoginClient.php:480-504 | requests continue exactly while each page came back with a non-empty cursor and the records so far are below the limit; the call stops at the first failure, or at the first page that reaches the limit or has an empty cursor; a listing is the first `limit` records of the pages received, in order; a failure carries the failed reply's error pair |
| `Pagination.ListRespectsLimit` | src/OneLoginClient.php:489-493 | a listing has at most max(limit, 0) records, and exactly that many when the pages received hold enough |
| `Pagination.TakePage` | src/OneLoginClient.php:488-494 | the foreach over one page: it overflows exactly when the records so far and the page exceed the limit, and then keeps the first `limit` records; otherwise it appends the whole page |
| `Pagination.Paginate` | src/OneLoginClient.php:478-504 | the loop's outcome is `List`; it sends `List`'s number of requests; the first carries the caller's query; each later one carries that query with `after_cursor` set to the previous page's cursor |
| `Pagination.ArraySlice` | src/OneLoginClient.php:506 | `array_slice($s, 0, $n)` keeps the first n elements, or stops -n elements before the end for a negative n |
| `Pagination.TrimToLimit` | src/OneLoginClient.php:505-507 | for a limit of 0 or more, the first `limit` records; for a negative limit, array_slice drops that many records from the end |
| `Pagination.TrimIsNoOp` | src/OneLoginClient.php:505-507 | getUsers' trailing trim never changes what the loop collected |
| `Pagination.TwoPagesTruncated` | src/OneLoginClient.php:480-504 | pages of 30 and 30 with limit 40: two requests, the first page and the first 10 records of the second |
| `Pagination.FirstPageOverLimit` | src/OneLoginClient.php:488-493 | a single first page of 60 with limit 50: one request and its first 50 records, although the page has a cursor and the server has no further reply |
| `Pagination.FiveOfTwoPagesOfThree` | src/OneLoginClient.php:480-504 | pages of 3 and 3 with limit 5: two requests, five records, the last record of the second page dropped |
| `Pagination.ZeroCursorStops` | src/OneLoginClient.php:497-498 | an after_cursor of "0" is empty to PHP and ends the listing after that page |
| `Client.AfterList` | src/OneLoginClient.php:509-516 | a list call's failure fills the error pair and keeps the credentials; a listing changes nothing |
| `Client.ListResult` | src/OneLoginClient.php:505-517 | a list call returns its records, or null after a failure (records already collected are dropped) |
| `Client.ListKeepsTokenError` | src/OneLoginClient.php:446-447 | a token acquisition that failed inside a list call leaves its error in place when the listing itself succeeds |
| `Client.OneLoginClient.constructor` | src/OneLoginClient.php:59-64 | a new client holds no token and no error |
| `Client.OneLoginClient.CleanError` | src/OneLoginClient.php:69-73 | the new state is `Lifecycle.CleanError` of the old one |
| `Client.OneLoginClient.RecordFailure` | src/OneLoginClient.php:275-282 | the new state is the old one with the failure's error pair |
| `Client.OneLoginClient.Authorization` | src/OneLoginClient.php:186-194 | the bearer header gives back the access token (null as ""); the client-credentials header is `client_id:<id>, client_secret:<secret>` and is not a bearer header |
| `Client.OneLoginClient.IsExpired` | src/OneLoginClient.php:220-224 | agrees with `Lifecycle.IsExpired`: never without expiration, not when expiring exactly now |
| `Client.OneLoginClient.StoreToken` | src/OneLoginClient.php:268-282 | the fields become `Lifecycle.StoreToken` of the old state, and the decoded token is returned |
| `Client.OneLoginClient.GetAccessToken` | src/OneLoginClient.php:245-283 | the fields become `Lifecycle.Acquire` of the old state; the returned token is the reply's |
| `Client.OneLoginClient.RefreshToken` | src/OneLoginClient.php:290-333 | the fields become `Lifecycle.Refresh` of the old state; the returned token is `Lifecycle.RefreshToken`'s |
| `Client.OneLoginClient.RevokeToken` | src/OneLoginClient.php:340-385 | the fields become `Lifecycle.Revoke` of the old state; the answer is `Lifecycle.Revoked` |
| `Client.OneLoginClient.PrepareToken` | src/OneLoginClient.php:226-233 | the fields become `Lifecycle.Prepare` of the old state |
| `Client.OneLoginClient.ListRecords` | src/OneLoginClient.php:446-504 | cleans the error, prepares the token, runs the loop: the state, the records and the queries sent are those of `List` |
| `Client.OneLoginClient.GetUsers` | src/OneLoginClient.php:444-517 | with the limit and query of `ListRequest`: the state is the prepared one plus any list failure, the users are the listing's, and the queries forward each cursor |
| `Client.OneLoginClient.GetRoles` | src/OneLoginClient.php:1410-1482 | as getUsers, without the trailing trim |
| `Client.OneLoginClient.GetEvents` | src/OneLoginClient.php:1590-1663 | as getUsers, without the trailing trim |
| `Client.OneLoginClient.GetGroups` | src/OneLoginClient.php:1774-1830 | the limit is the argument itself; the first request has no query, the later ones only `after_cursor` |
| `Client.AcquireThenListUsers` | src/OneLoginClient.php:444-508 | acquire, then getUsers with limit 5 over pages of 3 and 3: the users are the first page and the first two records of the second; the client still holds the acquired token with no error, so prepareToken sent nothing; the second request carries `limit=5` and `after_cursor=abc` |

## Left out

- The Guzzle transport, request headers, the User-Agent and `Settings::getURL` are left out. Each call is its `Reply`. The transport's replies do not depend on the query, so the queries sent are returned and stated instead.
- Envelope.SessionTokenResponse: assumes the package defines no class `OneLogin\api\Exception`; the package's other files are not part of this model. Were there such a class, the unrecognised-message case would return null instead of aborting.
- A `status` or `pagination` property that holds null (rather than an object), and status fields that hold numbers, are not modelled. A null `after_cursor` or `before_cursor` reads the same as a missing one, as in the source.
- `json_decode` is left out: the model starts from a parsed envelope. Malformed JSON is not modelled. A `data` that is not an array is not modelled either: the SAML document string and the rate-limit object are read as arrays of records.
- `\DateTime` is replaced by integer timestamps. `now` is a parameter.
- The `OneLoginToken`, `User`, `Role`, `Group`, `Event`, `MFA`, `SessionTokenInfo` and `SAMLEndpointResponse` classes are not part of this model. Records are returned as they are. The token's getters are read as the record's `access_token` and `refresh_token`, and its expiration as `created_at` plus `expires_in`.
- `retrieveAppsFromXML` and `getEmbedApps` are left out. They are DOM/XPath plumbing.
- `createSessionViaToken` is left out. It extracts a cookie from response headers.
- The single-record and write endpoints are left out: `getUser`, `createUser`, `getRateLimit`, `createSessionLoginToken`, `getSAMLAssertion`, the invite-link calls and the rest. Each is `prepareToken`, one call and one decoder, all of which are modelled.
- `getError` and `getErrorDescription` are left out. They only read the fields.
- Thread safety of the credential fields is left out. The source is sequential.
- Pagination.Paginate: models only servers whose replies suffice for the loop to end (`Finite`): the last reply fails or carries an empty cursor, or by then the pages hold `limit` records. The source's loop has no safety cap: it runs forever against a server that keeps returning cursors with pages that never bring the count up to the limit.
- Pagination.IntVal: does not model PHP's exponent forms (`"1e3"`), its clamping at the integer limits, or boolean, null and array values. Query values are integers or strings.
- The check at line 464 that the query parameters are an array is left out. The model's parameters are always a map, and that check only constructs an exception that is never thrown.

## Findings

| source | as written | input that shows it | evidently intended | confidence | as-written member | corrected member |
|---|---|---|---|---|---|---|
| src/OneLoginClient.php:119 | The unrecognised-message branch evaluates `new Exception(...)` without `throw`, and the name is unqualified inside namespace `OneLogin\api` with no `use Exception;` (lines 3-21). PHP resolves it to `OneLogin\api\Exception`, a class that does not exist, and raises an `Error`. The client's `catch (\Exception $e)` blocks do not catch an `Error`, so it reaches the SDK user and no error pair is recorded. | `{status:{type:"error", message:"Account locked"}, data:[{}]}` | `throw new \Exception(...)`, as at lines 295 and 345. The caller's `catch (\Exception)` then records 500 with "Status Message type not reognized: Account locked". | medium (depends on no `OneLogin\api\Exception` class existing elsewhere in the package); not executed | `Envelope.UnrecognisedStatusEscapes` | `Envelope.SessionTokenDecoded` |

The session-token endpoints are outside this model, so nothing else calls either
decoder.
