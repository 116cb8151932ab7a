/** The OAuth 2.0 token lifecycle of OneLoginClient (src/OneLoginClient.php,
    lines 35-48 and 220-385) as transitions on the client's five mutable fields.
    The class in module Client runs these steps in place; its methods are proved
    to leave exactly the state these functions describe. */
module Lifecycle {
  import opened Wrappers
  import opened Envelope

  /** accessToken, refreshToken, expiration, error and errorDescription. */
  datatype Session = Session(
    accessToken: Option<string>,
    refreshToken: Option<string>,
    expiration: Option<int>,
    error: Option<int>,
    errorDescription: Option<string>)
  {
    /** The three credential fields, which acquire, refresh and revoke write together. */
    function Credentials(): (Option<string>, Option<string>, Option<int>) {
      (accessToken, refreshToken, expiration)
    }
  }

  /** The code recorded for any exception other than a ClientException. */
  const InternalErrorCode := 500
  /** The only status revokeToken accepts. */
  const RevokedCode := 200
  const MissingTokensMessage := "Access token ot Refresh token not provided"
  const MissingAccessTokenMessage := "Access token not provided"

  /** The credentials that a decoded token carries. */
  function TokenCredentials(t: Token): (Option<string>, Option<string>, Option<int>) {
    (t.accessToken, t.refreshToken, t.expiration)
  }

  /** cleanError: both error fields become null, nothing else changes. */
  function CleanError(s: Session): (c: Session)
    ensures c.error == None && c.errorDescription == None
    ensures c.Credentials() == s.Credentials()
  {
    s.(error := None, errorDescription := None)
  }

  /** The error pair a caught failure leaves. */
  function RecordFailure(s: Session, r: Reply): (f: Session)
    requires !r.Ok?
    ensures f.Credentials() == s.Credentials()
    ensures f.error == Some(Caught(r).0) && f.errorDescription == Caught(r).1
  {
    var (code, description) := Caught(r);
    s.(error := Some(code), errorDescription := description)
  }

  /** isExpired: a held expiration that lies strictly before `now`. */
  function IsExpired(s: Session, now: int): (expired: bool)
    ensures s.expiration == None ==> !expired
    // a token is still valid in the second it expires, and expired one second later
    ensures s.expiration == Some(now) ==> !expired
    ensures s.expiration == Some(now - 1) ==> expired
  {
    s.expiration != None && now > s.expiration.value
  }

  /** The token getAccessToken and refreshToken return for a reply that reached
      the decoder (null for a caught failure). */
  function ReplyToken(r: Reply): (t: Option<Token>)
    ensures t.Some? <==> r.Ok? && r.env.data.Exists()
  {
    if r.Ok? then TokenResponse(r.env) else None
  }

  /** The body shared by getAccessToken and refreshToken once the request is
      sent: store the decoded token, or record the failure. */
  function StoreToken(s: Session, r: Reply): (n: Session)
    // the three credentials are kept, or all three replaced by the decoded token's
    ensures ReplyToken(r).None? ==> n.Credentials() == s.Credentials()
    ensures ReplyToken(r).Some? ==> n.Credentials() == TokenCredentials(ReplyToken(r).value)
    // a response leaves the error pair alone; a caught failure fills it
    ensures r.Ok? ==> n.error == s.error && n.errorDescription == s.errorDescription
    ensures !r.Ok? ==> n.error == Some(Caught(r).0) && n.errorDescription == Caught(r).1
  {
    if !r.Ok? then RecordFailure(s, r)
    else match TokenResponse(r.env)
      case Some(t) => s.(accessToken := t.accessToken, refreshToken := t.refreshToken, expiration := t.expiration)
      case None => s
  }

  /** getAccessToken: the client-credentials grant. */
  function Acquire(s: Session, r: Reply): (n: Session)
    // the error is null exactly when a response came back
    ensures r.Ok? <==> n.error == None
    ensures r.Ok? ==> n.errorDescription == None
    ensures ReplyToken(r).Some? ==> n.Credentials() == TokenCredentials(ReplyToken(r).value)
    ensures ReplyToken(r).None? ==> n.Credentials() == s.Credentials()
  {
    StoreToken(CleanError(s), r)
  }

  /** refreshToken: without both tokens it throws before any request is made. */
  function Refresh(s: Session, r: Reply): (n: Session)
    // without both tokens: 500, credentials kept, whatever the reply
    ensures IsNull(s.accessToken) || IsNull(s.refreshToken) ==>
      n.Credentials() == s.Credentials() &&
      n.error == Some(InternalErrorCode) && n.errorDescription == Some(MissingTokensMessage)
    // with them: the returned token's credentials are stored, with no error
    ensures RefreshToken(s, r).Some? ==>
      n.Credentials() == TokenCredentials(RefreshToken(s, r).value) && n.error == None
    ensures RefreshToken(s, r).None? ==> n.Credentials() == s.Credentials()
  {
    if IsNull(s.accessToken) || IsNull(s.refreshToken) then
      CleanError(s).(error := Some(InternalErrorCode), errorDescription := Some(MissingTokensMessage))
    else
      StoreToken(CleanError(s), r)
  }

  /** The token refreshToken returns. */
  function RefreshToken(s: Session, r: Reply): (t: Option<Token>)
    ensures t.Some? ==> !IsNull(s.accessToken) && !IsNull(s.refreshToken)
    ensures !IsNull(s.accessToken) && !IsNull(s.refreshToken) ==> t == ReplyToken(r)
  {
    if IsNull(s.accessToken) || IsNull(s.refreshToken) then None else ReplyToken(r)
  }

  /** revokeToken's new state. */
  function Revoke(s: Session, r: Reply): (n: Session)
    // success clears the whole state; anything else keeps the credentials and records an error
    ensures Revoked(s, r) ==> n == Session(None, None, None, None, None)
    ensures !Revoked(s, r) ==> n.Credentials() == s.Credentials() && n.error.Some?
  {
    var c := CleanError(s);
    if IsNull(s.accessToken) then
      c.(error := Some(InternalErrorCode), errorDescription := Some(MissingAccessTokenMessage))
    else
      match r
      case Ok(env, code) =>
        if code == RevokedCode then c.(accessToken := None, refreshToken := None, expiration := None)
        else c.(error := Some(code), errorDescription := ErrorMessage(env))
      case _ => RecordFailure(c, r)
  }

  /** revokeToken's result. */
  function Revoked(s: Session, r: Reply): (ok: bool)
    ensures ok <==> !IsNull(s.accessToken) && r.Ok? && r.code == RevokedCode
  {
    !IsNull(s.accessToken) && r.Ok? && r.code == RevokedCode
  }

  /** prepareToken: acquire without a token, refresh an expired one, else nothing. */
  function Prepare(s: Session, now: int, r: Reply): (n: Session)
    // a held, unexpired token is kept and no request is sent
    ensures !IsNull(s.accessToken) && !IsExpired(s, now) ==> n == s
    // an expired one without a refresh token cannot be renewed
    ensures !IsNull(s.accessToken) && IsExpired(s, now) && IsNull(s.refreshToken) ==>
      n.Credentials() == s.Credentials() && n.error == Some(InternalErrorCode)
    // otherwise a request is sent, and the error is null exactly when it was answered
    ensures IsNull(s.accessToken) || (IsExpired(s, now) && !IsNull(s.refreshToken)) ==>
      (n.error == None <==> r.Ok?)
  {
    if IsNull(s.accessToken) then Acquire(s, r)
    else if IsExpired(s, now) then Refresh(s, r)
    else s
  }

  // ---------------------------------------------------------------------------
  // Properties of the lifecycle

  /** The expiry boundary: a token that expires exactly now is still valid, one
      second later it is expired, and a session without expiration never is. */
  lemma ExpiryIsStrict(s: Session, now: int)
    ensures s.expiration == None ==> !IsExpired(s, now)
    ensures s.expiration == Some(now) ==> !IsExpired(s, now) && IsExpired(s, now + 1)
    ensures IsExpired(s, now) ==> forall later :: later >= now ==> IsExpired(s, later)
  {
  }

  /** Acquire and refresh are all-or-nothing: the three credential fields are
      either all unchanged or all taken from the decoded token, and they change
      only for a response in which `data` exists. */
  lemma StoreIsAllOrNothing(s: Session, r: Reply)
    ensures var n := Acquire(s, r);
      (ReplyToken(r).None? ==> n.Credentials() == s.Credentials()) &&
      (ReplyToken(r).Some? ==> n.Credentials() == TokenCredentials(ReplyToken(r).value))
    ensures var n := Refresh(s, r);
      (RefreshToken(s, r).None? ==> n.Credentials() == s.Credentials()) &&
      (RefreshToken(s, r).Some? ==> n.Credentials() == TokenCredentials(RefreshToken(s, r).value))
  {
  }

  /** Error capture: after acquire the error pair is null exactly when a
      response came back, and otherwise is what the failure carries. */
  lemma AcquireErrors(s: Session, r: Reply)
    ensures var n := Acquire(s, r);
      (r.Ok? <==> n.error == None) &&
      (r.Ok? ==> n.errorDescription == None) &&
      (r.ClientError? ==> n.error == Some(r.code) && n.errorDescription == ErrorMessage(r.env)) &&
      (r.OtherFailure? ==> n.error == Some(InternalErrorCode) && n.errorDescription == Some(r.msg))
  {
  }

  /** A refresh without both tokens sends nothing: whatever the transport would
      have answered, the outcome is the same 500 error with credentials kept. */
  lemma RefreshWithoutTokensSendsNothing(s: Session, r1: Reply, r2: Reply)
    requires IsNull(s.accessToken) || IsNull(s.refreshToken)
    ensures Refresh(s, r1) == Refresh(s, r2)
    ensures RefreshToken(s, r1) == None
    ensures Refresh(s, r1).Credentials() == s.Credentials()
    ensures Refresh(s, r1).error == Some(InternalErrorCode)
    ensures Refresh(s, r1).errorDescription == Some(MissingTokensMessage)
  {
  }

  /** With both tokens held, refresh changes the state exactly as acquire does. */
  lemma RefreshWithTokensIsAcquire(s: Session, r: Reply)
    requires !IsNull(s.accessToken) && !IsNull(s.refreshToken)
    ensures Refresh(s, r) == Acquire(s, r)
  {
  }

  /** revokeToken: status 200 clears all three credentials and succeeds; no
      access token, any other status or a failure keeps them and records an error. */
  lemma RevokeOutcomes(s: Session, r: Reply)
    ensures var n := Revoke(s, r);
      (Revoked(s, r) ==> n.Credentials() == (None, None, None) && n.error == None && n.errorDescription == None) &&
      (!Revoked(s, r) ==> n.Credentials() == s.Credentials() && n.error.Some?)
    ensures IsNull(s.accessToken) ==>
      Revoke(s, r).error == Some(InternalErrorCode) && Revoke(s, r).errorDescription == Some(MissingAccessTokenMessage)
    ensures !IsNull(s.accessToken) && r.Ok? && r.code != RevokedCode ==>
      Revoke(s, r).error == Some(r.code) && Revoke(s, r).errorDescription == ErrorMessage(r.env)
    ensures !IsNull(s.accessToken) && !r.Ok? ==>
      Revoke(s, r).error == Some(Caught(r).0) && Revoke(s, r).errorDescription == Caught(r).1
  {
  }

  /** prepareToken's three branches. */
  lemma PrepareBranches(s: Session, now: int, r: Reply)
    ensures IsNull(s.accessToken) ==> Prepare(s, now, r) == Acquire(s, r)
    ensures !IsNull(s.accessToken) && IsExpired(s, now) ==> Prepare(s, now, r) == Refresh(s, r)
    ensures !IsNull(s.accessToken) && !IsExpired(s, now) ==> Prepare(s, now, r) == s
  {
  }

  /** A freshly acquired token that carries its tokens and has not expired is
      reused: preparing again changes nothing and needs no reply. */
  lemma AcquiredTokenIsReused(s: Session, r: Reply, now: int, later: Reply)
    requires ReplyToken(r).Some?
    requires !IsNull(ReplyToken(r).value.accessToken)
    requires ReplyToken(r).value.expiration.Some? && now <= ReplyToken(r).value.expiration.value
    ensures Prepare(Acquire(s, r), now, later) == Acquire(s, r)
  {
  }

  /** An expired token whose refresh succeeds is replaced in full. */
  lemma ExpiredTokenIsRefreshed(s: Session, now: int, r: Reply)
    requires !IsNull(s.accessToken) && !IsNull(s.refreshToken)
    requires IsExpired(s, now)
    requires ReplyToken(r).Some?
    ensures Prepare(s, now, r).Credentials() == TokenCredentials(ReplyToken(r).value)
    ensures Prepare(s, now, r).error == None
  {
  }

  /** After a successful revoke the next prepareToken acquires a new token. */
  lemma RevokeThenPrepareAcquires(s: Session, r: Reply, now: int, next: Reply)
    requires Revoked(s, r)
    ensures Prepare(Revoke(s, r), now, next) == Acquire(Revoke(s, r), next)
  {
  }
}
