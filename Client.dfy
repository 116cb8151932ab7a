/** OneLoginClient (src/OneLoginClient.php, lines 26-73, 186-385, 444-517,
    1410-1481, 1590-1662 and 1774-1830): the five fields its methods update in
    place, and the token and list operations over them.

    Each network call is replaced by its outcome, a `Reply` given as a
    parameter; `now` stands for the clock read by isExpired. Every method is
    proved to leave exactly the state that the functions of module Lifecycle
    describe, so the lifecycle lemmas there hold of the class. */
module Client {
  import opened Wrappers
  import opened Envelope
  import opened Lifecycle
  import opened Pagination

  const BearerPrefix := "bearer:"
  const ClientIdPrefix := "client_id:"
  const ClientSecretInfix := ", client_secret:"

  /** PHP's string conversion of a possibly null token: null becomes "". */
  function TokenText(t: Option<string>): string {
    t.GetOr("")
  }

  /** The token a bearer Authorization header carries, if it is one. */
  function BearerToken(header: string): (t: Option<string>)
    ensures t.Some? ==> header == BearerPrefix + t.value
  {
    if |header| >= |BearerPrefix| && header[..|BearerPrefix|] == BearerPrefix
    then Some(header[|BearerPrefix|..]) else None
  }

  /** The state a list call leaves after its loop: a failure fills the error pair. */
  function AfterList(s: Session, l: Listing): (n: Session)
    ensures n.Credentials() == s.Credentials()
    ensures l.Listed? ==> n == s
    ensures l.Failed? ==> n.error == Some(l.code) && n.errorDescription == l.description
  {
    if l.Failed? then s.(error := Some(l.code), errorDescription := l.description) else s
  }

  /** What a list call returns: the records, or null after a failure. */
  function ListResult(l: Listing): (r: Option<seq<Record>>)
    ensures r.Some? <==> l.Listed?
    ensures r.Some? ==> r.value == l.items
  {
    if l.Listed? then Some(l.items) else None
  }

  class OneLoginClient {
    var accessToken: Option<string>
    var refreshToken: Option<string>
    var expiration: Option<int>
    var error: Option<int>
    var errorDescription: Option<string>
    /** The account's API credentials, from the client's settings. */
    const clientId: string
    const clientSecret: string

    /** The five mutable fields as one value. */
    function State(): Session
      reads this
    {
      Session(accessToken, refreshToken, expiration, error, errorDescription)
    }

    constructor (clientId: string, clientSecret: string)
      ensures State() == Session(None, None, None, None, None)
      ensures this.clientId == clientId && this.clientSecret == clientSecret
    {
      this.clientId := clientId;
      this.clientSecret := clientSecret;
      accessToken, refreshToken, expiration := None, None, None;
      error, errorDescription := None, None;
    }

    /** cleanError. */
    method CleanError()
      modifies this
      ensures State() == Lifecycle.CleanError(old(State()))
    {
      error := None;
      errorDescription := None;
    }

    /** The two catch blocks every operation ends with. */
    method RecordFailure(r: Reply)
      requires !r.Ok?
      modifies this
      ensures State() == Lifecycle.RecordFailure(old(State()), r)
    {
      match r
      case ClientError(code, env) =>
        error := Some(code);
        errorDescription := ErrorMessage(env);
      case OtherFailure(msg) =>
        error := Some(InternalErrorCode);
        errorDescription := Some(msg);
    }

    /** getAuthorization: the bearer header, or the client-credentials header. */
    function Authorization(bearer: bool): (header: string)
      reads this
      ensures bearer ==> BearerToken(header) == Some(TokenText(accessToken))
      ensures !bearer ==> BearerToken(header) == None
      ensures !bearer ==> header == ClientIdPrefix + clientId + ClientSecretInfix + clientSecret
    {
      if bearer then
        var h := BearerPrefix + TokenText(accessToken);
        assert h[..|BearerPrefix|] == BearerPrefix;
        h
      else
        var h := ClientIdPrefix + clientId + ClientSecretInfix + clientSecret;
        assert h[0] == 'c';
        h
    }

    /** isExpired, with `now` the current time. */
    function IsExpired(now: int): (expired: bool)
      reads this
      ensures expired <==> Lifecycle.IsExpired(State(), now)
      ensures expiration == None ==> !expired
      ensures expiration == Some(now) ==> !expired
    {
      expiration != None && now > expiration.value
    }

    /** Store a decoded token's three fields together, or nothing without `data`. */
    method StoreToken(r: Reply) returns (token: Option<Token>)
      modifies this
      ensures State() == Lifecycle.StoreToken(old(State()), r)
      ensures token == ReplyToken(r)
    {
      if !r.Ok? {
        RecordFailure(r);
        return None;
      }
      token := TokenResponse(r.env);
      if token.Some? {
        accessToken := token.value.accessToken;
        refreshToken := token.value.refreshToken;
        expiration := token.value.expiration;
      }
    }

    /** getAccessToken: the client-credentials grant. */
    method GetAccessToken(reply: Reply) returns (token: Option<Token>)
      modifies this
      ensures State() == Acquire(old(State()), reply)
      ensures token == ReplyToken(reply)
    {
      CleanError();
      token := StoreToken(reply);
    }

    /** refreshToken: fails with 500 before any request unless both tokens are held. */
    method RefreshToken(reply: Reply) returns (token: Option<Token>)
      modifies this
      ensures State() == Refresh(old(State()), reply)
      ensures token == Lifecycle.RefreshToken(old(State()), reply)
    {
      CleanError();
      if IsNull(accessToken) || IsNull(refreshToken) {
        error := Some(InternalErrorCode);
        errorDescription := Some(MissingTokensMessage);
        return None;
      }
      token := StoreToken(reply);
    }

    /** revokeToken: status 200 clears the credentials and answers true. */
    method RevokeToken(reply: Reply) returns (revoked: bool)
      modifies this
      ensures State() == Revoke(old(State()), reply)
      ensures revoked == Revoked(old(State()), reply)
    {
      CleanError();
      if IsNull(accessToken) {
        error := Some(InternalErrorCode);
        errorDescription := Some(MissingAccessTokenMessage);
        return false;
      }
      revoked := false;
      match reply
      case Ok(env, code) =>
        if code == RevokedCode {
          accessToken, refreshToken, expiration := None, None, None;
          return true;
        }
        error := Some(code);
        errorDescription := ErrorMessage(env);
      case ClientError(_, _) =>
        RecordFailure(reply);
      case OtherFailure(_) =>
        RecordFailure(reply);
    }

    /** prepareToken: acquire without a token, refresh an expired one. */
    method PrepareToken(now: int, reply: Reply)
      modifies this
      ensures State() == Prepare(old(State()), now, reply)
    {
      if IsNull(accessToken) {
        var _ := GetAccessToken(reply);
      } else if IsExpired(now) {
        var _ := RefreshToken(reply);
      }
    }

    /** The part every list operation shares: clean the error, prepare the
        token, run the loop, and record a failure. */
    method ListRecords(query: Query, limit: int, now: int, tokenReply: Reply, replies: seq<Reply>)
      returns (records: Option<seq<Record>>, sent: seq<Query>)
      requires Finite(replies, limit)
      modifies this
      ensures State() == AfterList(Prepare(Lifecycle.CleanError(old(State())), now, tokenReply), List(replies, limit))
      ensures records == ListResult(List(replies, limit))
      ensures |sent| == List(replies, limit).requests && sent[0] == query
      ensures forall k :: 0 < k < |sent| ==> Forwarded(query, replies, sent, k)
    {
      CleanError();
      PrepareToken(now, tokenReply);
      var listing;
      listing, sent := Paginate(query, limit, replies);
      if listing.Failed? {
        error := Some(listing.code);
        errorDescription := listing.description;
        records := None;
      } else {
        records := Some(listing.items);
      }
    }

    /** getUsers: the limit comes from the query parameters, and the loop is
        followed by a trim to the limit that never changes the result. */
    method GetUsers(params: Query, now: int, tokenReply: Reply, replies: seq<Reply>)
      returns (users: Option<seq<Record>>, sent: seq<Query>)
      requires Finite(replies, ListRequest(params).0)
      modifies this
      ensures var (limit, query) := ListRequest(params);
        State() == AfterList(Prepare(Lifecycle.CleanError(old(State())), now, tokenReply), List(replies, limit)) &&
        users == ListResult(List(replies, limit)) &&
        |sent| == List(replies, limit).requests && sent[0] == query &&
        forall k :: 0 < k < |sent| ==> Forwarded(query, replies, sent, k)
    {
      var (limit, query) := ListRequest(params);
      users, sent := ListRecords(query, limit, now, tokenReply, replies);
      if users.Some? {
        TrimIsNoOp(replies, limit);
        users := Some(TrimToLimit(users.value, limit));
      }
    }

    /** getRoles. */
    method GetRoles(params: Query, now: int, tokenReply: Reply, replies: seq<Reply>)
      returns (roles: Option<seq<Record>>, sent: seq<Query>)
      requires Finite(replies, ListRequest(params).0)
      modifies this
      ensures var (limit, query) := ListRequest(params);
        State() == AfterList(Prepare(Lifecycle.CleanError(old(State())), now, tokenReply), List(replies, limit)) &&
        roles == ListResult(List(replies, limit)) &&
        |sent| == List(replies, limit).requests && sent[0] == query &&
        forall k :: 0 < k < |sent| ==> Forwarded(query, replies, sent, k)
    {
      var (limit, query) := ListRequest(params);
      roles, sent := ListRecords(query, limit, now, tokenReply, replies);
    }

    /** getEvents. */
    method GetEvents(params: Query, now: int, tokenReply: Reply, replies: seq<Reply>)
      returns (events: Option<seq<Record>>, sent: seq<Query>)
      requires Finite(replies, ListRequest(params).0)
      modifies this
      ensures var (limit, query) := ListRequest(params);
        State() == AfterList(Prepare(Lifecycle.CleanError(old(State())), now, tokenReply), List(replies, limit)) &&
        events == ListResult(List(replies, limit)) &&
        |sent| == List(replies, limit).requests && sent[0] == query &&
        forall k :: 0 < k < |sent| ==> Forwarded(query, replies, sent, k)
    {
      var (limit, query) := ListRequest(params);
      events, sent := ListRecords(query, limit, now, tokenReply, replies);
    }

    /** getGroups: the limit is a plain argument and no query is sent but the cursor. */
    method GetGroups(limit: int, now: int, tokenReply: Reply, replies: seq<Reply>)
      returns (groups: Option<seq<Record>>, sent: seq<Query>)
      requires Finite(replies, limit)
      modifies this
      ensures State() == AfterList(Prepare(Lifecycle.CleanError(old(State())), now, tokenReply), List(replies, limit))
      ensures groups == ListResult(List(replies, limit))
      ensures |sent| == List(replies, limit).requests && sent[0] == map[]
      ensures forall k :: 0 < k < |sent| ==> Forwarded(map[], replies, sent, k)
    {
      groups, sent := ListRecords(map[], limit, now, tokenReply, replies);
    }
  }

  /** A list call keeps the error that preparing the token recorded when its
      own requests succeed: the error pair of a failed token request survives
      a successful listing. */
  lemma ListKeepsTokenError(s: Session, now: int, tokenReply: Reply, replies: seq<Reply>, limit: int)
    requires Finite(replies, limit) && List(replies, limit).Listed?
    requires IsNull(s.accessToken) && !tokenReply.Ok?
    ensures AfterList(Prepare(Lifecycle.CleanError(s), now, tokenReply), List(replies, limit)).error == Some(Caught(tokenReply).0)
  {
  }

  /** The worked case: acquire a token, then list users with a limit of 5 over
      two pages of three. Five records come back: the first page and the first
      two of the second. The token is reused: the token reply given to getUsers
      is a failure that, had it been sent, would have recorded an error. The
      second request carries the first page's cursor next to the limit. */
  method AcquireThenListUsers() returns (users: Option<seq<Record>>, sent: seq<Query>, state: Session)
    ensures users == Some(PageItems(Page(3, None).env) + PageItems(Page(3, None).env)[..2])
    ensures state == Session(Some("at"), Some("rt"), Some(37000), None, None)
    ensures |sent| == 2 && sent[1] == map[LimitKey := Int(5), CursorKey := Str("abc")]
  {
    var client := new OneLoginClient("id", "secret");
    var record := map["access_token" := Str("at"), "refresh_token" := Str("rt"),
                      "created_at" := Int(1000), "expires_in" := Int(36000)];
    var tokenEnvelope := Envelope(Some(Status(Present(SuccessType), Present(SuccessMessage))), Present([record]), None);
    var token := client.GetAccessToken(Ok(tokenEnvelope, 200));
    assert client.State() == Session(Some("at"), Some("rt"), Some(37000), None, None);
    users, sent := client.GetUsers(map[LimitKey := Int(5)], 2000, OtherFailure("not sent"),
                                   [Page(3, Some("abc")), Page(3, None)]);
    FiveOfTwoPagesOfThree();
    assert Forwarded(map[LimitKey := Int(5)], [Page(3, Some("abc")), Page(3, None)], sent, 1);
    state := client.State();
  }
}
