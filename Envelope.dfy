/** The response envelope every OneLogin API call returns, already parsed, and
    the client's decoders over it (src/OneLoginClient.php, lines 85-218).

    An envelope lacking the fields a decoder needs gives PHP `null` (None here)
    or `false`; the one exception is the session-token decoder, which aborts on
    an unrecognised status message.  A JSON property may be missing or hold
    null, and the two are told apart, as PHP's `property_exists` does. */
module Envelope {
  import opened Wrappers

  /** A scalar JSON value inside a data record or a query string. */
  datatype Value = Str(s: string) | Int(n: int)

  /** One element of an envelope's `data` array: a JSON object whose property
      values are scalars.  The entity classes (User, Role, ...) wrap it unchanged. */
  type Record = map<string, Value>

  /** A property of a decoded JSON object: missing, present with the value
      null, or present with a value.  PHP's `property_exists` holds for the
      last two; reading the property gives null for the first two. */
  datatype Prop<+T> = Missing | Null | Present(value: T)
  {
    /** PHP's `property_exists`. */
    predicate Exists() {
      !Missing?
    }

    /** The property's value: null when it is missing or null. */
    function Get(): (v: Option<T>)
      ensures v.Some? <==> Present?
      ensures v.Some? ==> v.value == value
    {
      if Present? then Some(value) else None
    }
  }

  /** `status {type, message}`; each property may be missing or null. */
  datatype Status = Status(statusType: Prop<string>, message: Prop<string>)

  /** `pagination {before_cursor, after_cursor}`; a JSON null reads as a missing property. */
  datatype Pagination = Pagination(beforeCursor: Option<string>, afterCursor: Option<string>)

  /** The decoded body: `status` and `pagination` objects, each optional, and a
      `data` array that may be missing or null. */
  datatype Envelope = Envelope(status: Option<Status>, data: Prop<seq<Record>>, pagination: Option<Pagination>)

  /** What one HTTP call through the transport ends in:
      a response (any status the transport does not raise for),
      a ClientException carrying a 4xx response,
      or any other exception (network failure, 5xx ServerException, ...) with its message. */
  datatype Reply =
    | Ok(env: Envelope, code: int)
    | ClientError(code: int, env: Envelope)
    | OtherFailure(msg: string)

  /** PHP's `$s == null` for a string that may be null: true for null and for "". */
  predicate IsNull(s: Option<string>) {
    s == None || s == Some("")
  }

  /** PHP's `empty($s)` for a string that may be null: true for null, "" and "0". */
  predicate IsEmpty(s: Option<string>) {
    s == None || s == Some("") || s == Some("0")
  }

  /** PHP's `$data[0]`: the first record, or null (with a notice) on an empty array. */
  function First(items: seq<Record>): (r: Option<Record>)
    ensures r.Some? <==> |items| > 0
    ensures r.Some? ==> r.value == items[0]
  {
    if |items| > 0 then Some(items[0]) else None
  }

  /** The OAuth 2.0 token triple that OneLoginToken's getters expose. */
  datatype Token = Token(accessToken: Option<string>, refreshToken: Option<string>, expiration: Option<int>)

  /** An MFA challenge hydrated from a record (or from null). */
  datatype Mfa = Mfa(raw: Option<Record>)

  /** handleSessionTokenResponse's two outcomes: a session token or an MFA challenge. */
  datatype SessionToken =
    | SessionTokenInfo(raw: Option<Record>)
    | SessionTokenMfaInfo(raw: Option<Record>)

  /** SAMLEndpointResponse: type and message of the status (either may be null),
      and either the SAML document (the whole `data`, or null) or an MFA challenge. */
  datatype SamlEndpointResponse =
    | SamlAssertion(statusType: Option<string>, message: Option<string>, document: Option<seq<Record>>)
    | SamlMfa(statusType: Option<string>, message: Option<string>, mfa: Mfa)

  /** How a call that PHP may abort ends: with a value, or with a PHP `Error`
      (not an `Exception`) that no `catch (\Exception $e)` of the client stops. */
  datatype Escaping<+T> = Returned(value: T) | Uncaught(error: string)

  const SuccessMessage := "Success"
  const MfaRequiredMessage := "MFA is required for this user"
  const SuccessType := "success"

  /** `$content->data[0]`: the first record, or null when `data` is missing,
      null or an empty array. */
  function Head(data: Prop<seq<Record>>): (r: Option<Record>)
    ensures r.Some? <==> data.Present? && |data.value| > 0
    ensures r.Some? ==> r.value == data.value[0]
  {
    match data
    case Present(items) => First(items)
    case _ => None
  }

  /** The string property `key` of a record, or null. */
  function StrField(rec: Record, key: string): (r: Option<string>)
    ensures r.Some? <==> key in rec && rec[key].Str?
  {
    if key in rec && rec[key].Str? then Some(rec[key].s) else None
  }

  /** The integer property `key` of a record, or null. */
  function IntField(rec: Record, key: string): (r: Option<int>)
    ensures r.Some? <==> key in rec && rec[key].Int?
  {
    if key in rec && rec[key].Int? then Some(rec[key].n) else None
  }

  /** OneLoginToken built from `data[0]`: its expiration is `created_at` plus
      `expires_in` seconds; every getter is null when the record is null. */
  function TokenOf(rec: Option<Record>): (t: Token)
    ensures rec.None? ==> t == Token(None, None, None)
    ensures rec.Some? ==>
      t.accessToken == StrField(rec.value, "access_token") && t.refreshToken == StrField(rec.value, "refresh_token")
    ensures t.expiration.Some? <==>
      rec.Some? && IntField(rec.value, "created_at").Some? && IntField(rec.value, "expires_in").Some?
    ensures t.expiration.Some? ==>
      t.expiration.value == IntField(rec.value, "created_at").value + IntField(rec.value, "expires_in").value
  {
    match rec
    case None => Token(None, None, None)
    case Some(r) =>
      var created := IntField(r, "created_at");
      var lifetime := IntField(r, "expires_in");
      Token(StrField(r, "access_token"), StrField(r, "refresh_token"),
            if created.Some? && lifetime.Some? then Some(created.value + lifetime.value) else None)
  }

  /** extractErrorMessageFromResponse: the text that becomes errorDescription.
      A status property that exists but holds null is read as null. */
  function ErrorMessage(env: Envelope): (m: Option<string>)
    // `message` has priority over `type`, whatever either holds
    ensures env.status.Some? && env.status.value.message.Exists() ==> m == env.status.value.message.Get()
    ensures env.status.Some? && !env.status.value.message.Exists() && env.status.value.statusType.Exists() ==>
      m == env.status.value.statusType.Get()
    // without a status, or with neither property, the text is ""
    ensures env.status.None? || (!env.status.value.message.Exists() && !env.status.value.statusType.Exists()) ==>
      m == Some("")
    // it is null only when the property read holds null
    ensures m.None? ==>
      env.status.Some? &&
      (env.status.value.message.Null? || (env.status.value.message.Missing? && env.status.value.statusType.Null?))
  {
    match env.status
    case None => Some("")
    case Some(st) =>
      if st.message.Exists() then st.message.Get()
      else if st.statusType.Exists() then st.statusType.Get()
      else Some("")
  }

  /** handleTokenResponse: a token from `data[0]` whenever `data` exists, even
      when it is null or empty (the token is then all-null). */
  function TokenResponse(env: Envelope): (t: Option<Token>)
    ensures t.Some? <==> env.data.Exists()
    ensures t.Some? ==> t.value == TokenOf(Head(env.data))
    ensures t.Some? && !env.data.Present? ==> t.value == Token(None, None, None)
  {
    if env.data.Exists() then Some(TokenOf(Head(env.data))) else None
  }

  /** The error PHP raises for `new Exception(...)` at line 119: the class name is
      unqualified inside namespace OneLogin\api, so it names a class that does not exist. */
  const MissingClassError := "Class \"OneLogin\\api\\Exception\" not found"

  /** The session-token guard: status with a message property, and `data`. */
  predicate HasSessionFields(env: Envelope) {
    env.status.Some? && env.status.value.message.Exists() && env.data.Exists()
  }

  /** A status message handleSessionTokenResponse recognises (PHP's `==`: null
      equals neither). */
  predicate KnownSessionMessage(message: Option<string>) {
    message == Some(SuccessMessage) || message == Some(MfaRequiredMessage)
  }

  /** handleSessionTokenResponse, as the source has it: an unrecognised message
      reaches `new Exception(...)` at line 119, which raises the class-not-found
      `Error`; that escapes the client's `catch (\Exception $e)` blocks. */
  function SessionTokenResponse(env: Envelope): (r: Escaping<Option<SessionToken>>)
    ensures r.Uncaught? <==> HasSessionFields(env) && !KnownSessionMessage(env.status.value.message.Get())
    ensures r.Uncaught? ==> r.error == MissingClassError
    ensures r == Returned(None) <==> !HasSessionFields(env)
    ensures r.Returned? && r.value.Some? ==>
      (r.value.value.SessionTokenInfo? <==> env.status.value.message == Present(SuccessMessage)) &&
      r.value.value.raw == Head(env.data)
  {
    if HasSessionFields(env) then
      var message := env.status.value.message.Get();
      if message == Some(SuccessMessage) then Returned(Some(SessionTokenInfo(Head(env.data))))
      else if message == Some(MfaRequiredMessage) then Returned(Some(SessionTokenMfaInfo(Head(env.data))))
      else Uncaught(MissingClassError)
    else Returned(None)
  }

  /** Why the corrected session-token decoder refuses an envelope. */
  const UnrecognisedPrefix := "Status Message type not reognized: "

  /** handleSessionTokenResponse with `throw new \Exception(...)` at line 119: an
      unrecognised message is a decode failure carrying that exception's text
      (a null message concatenates as ""), which the caller's catch records as 500. */
  function SessionTokenDecoded(env: Envelope): (r: Result<Option<SessionToken>, string>)
    ensures r.Failure? <==> HasSessionFields(env) && !KnownSessionMessage(env.status.value.message.Get())
    ensures r.Failure? ==> r.error == UnrecognisedPrefix + env.status.value.message.Get().GetOr("")
    // on every other envelope it returns what the decoder as written returns
    ensures r.Success? <==> SessionTokenResponse(env).Returned?
    ensures r.Success? ==> SessionTokenResponse(env) == Returned(r.value)
  {
    if HasSessionFields(env) then
      var message := env.status.value.message.Get();
      if message == Some(SuccessMessage) then Success(Some(SessionTokenInfo(Head(env.data))))
      else if message == Some(MfaRequiredMessage) then Success(Some(SessionTokenMfaInfo(Head(env.data))))
      else Failure(UnrecognisedPrefix + message.GetOr(""))
    else Success(None)
  }

  /** As written, an unrecognised status message (here "Account locked", or a
      null message) aborts with the class-not-found `Error`, which the client
      does not catch, so no error pair is recorded; the corrected decoder
      reports an ordinary failure with the exception's text instead. */
  lemma UnrecognisedStatusEscapes()
    ensures var locked := Envelope(Some(Status(Present("error"), Present("Account locked"))), Present([map[]]), None);
      SessionTokenResponse(locked) == Uncaught(MissingClassError) &&
      SessionTokenDecoded(locked) == Failure(UnrecognisedPrefix + "Account locked")
    ensures var nullMessage := Envelope(Some(Status(Present("error"), Null)), Present([]), None);
      SessionTokenResponse(nullMessage) == Uncaught(MissingClassError) &&
      SessionTokenDecoded(nullMessage) == Failure(UnrecognisedPrefix)
  {
    assert UnrecognisedPrefix + "" == UnrecognisedPrefix;
  }

  /** handleSAMLEndpointResponse: needs status.type, status.message and data to
      exist (each may hold null); "Success" attaches the document, any other
      message, null included, an MFA challenge. */
  function SamlResponse(env: Envelope): (r: Option<SamlEndpointResponse>)
    ensures r.Some? <==>
      env.status.Some? && env.data.Exists() &&
      env.status.value.message.Exists() && env.status.value.statusType.Exists()
    ensures r.Some? ==>
      r.value.statusType == env.status.value.statusType.Get() &&
      r.value.message == env.status.value.message.Get()
    ensures r.Some? ==> (r.value.SamlAssertion? <==> r.value.message == Some(SuccessMessage))
    ensures r.Some? && r.value.SamlAssertion? ==> r.value.document == env.data.Get()
    ensures r.Some? && r.value.SamlMfa? ==> r.value.mfa == Mfa(Head(env.data))
  {
    if env.status.Some? && env.data.Exists() && env.status.value.message.Exists() && env.status.value.statusType.Exists() then
      var statusType := env.status.value.statusType.Get();
      var message := env.status.value.message.Get();
      if message == Some(SuccessMessage) then Some(SamlAssertion(statusType, message, env.data.Get()))
      else Some(SamlMfa(statusType, message, Mfa(Head(env.data))))
    else None
  }

  /** handleDataResponse: the `data` property, or null when it is missing or null. */
  function DataResponse(env: Envelope): (d: Option<seq<Record>>)
    ensures d.Some? <==> env.data.Present?
    ensures d.Some? ==> d.value == env.data.value
  {
    env.data.Get()
  }

  /** The records a list page contributes (`isset($data)` fails: none). */
  function PageItems(env: Envelope): (items: seq<Record>)
    ensures env.data.Present? ==> items == env.data.value
    ensures !env.data.Present? ==> items == []
  {
    match DataResponse(env)
    case Some(d) => d
    case None => []
  }

  /** handleOperationResponse: true exactly for `status.type == "success"`. */
  function OperationResponse(env: Envelope): (ok: bool)
    ensures ok <==> env.status.Some? && env.status.value.statusType == Present(SuccessType)
  {
    env.status.Some? && env.status.value.statusType.Get() == Some(SuccessType)
  }

  /** getAfterCursor: `pagination.after_cursor`, or null. */
  function AfterCursor(env: Envelope): (c: Option<string>)
    ensures c.Some? ==> env.pagination.Some? && env.pagination.value.afterCursor == c
    ensures env.pagination.Some? ==> c == env.pagination.value.afterCursor
  {
    match env.pagination
    case None => None
    case Some(p) => p.afterCursor
  }

  /** getBeforeCursor: `pagination.before_cursor`, or null. */
  function BeforeCursor(env: Envelope): (c: Option<string>)
    ensures c.Some? ==> env.pagination.Some? && env.pagination.value.beforeCursor == c
    ensures env.pagination.Some? ==> c == env.pagination.value.beforeCursor
  {
    match env.pagination
    case None => None
    case Some(p) => p.beforeCursor
  }

  /** The (code, description) pair a caught failure records:
      a ClientException gives its status code and the envelope's error text,
      any other exception gives 500 and its message. */
  function Caught(r: Reply): (e: (int, Option<string>))
    requires !r.Ok?
    ensures r.ClientError? ==> e == (r.code, ErrorMessage(r.env))
    ensures r.OtherFailure? ==> e == (500, Some(r.msg))
  {
    match r
    case ClientError(code, env) => (code, ErrorMessage(env))
    case OtherFailure(msg) => (500, Some(msg))
  }
}
