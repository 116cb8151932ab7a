/** The cursor-following list loop that getUsers, getRoles, getEvents and
    getGroups each repeat (src/OneLoginClient.php, lines 462-508, 1431-1472,
    1611-1654 and 1794-1821), written once.

    The server is the finite sequence of replies it gives to the loop's
    requests, in order; `Finite` says the loop ends within them. */
module Pagination {
  import opened Wrappers
  import opened Envelope

  /** The query string sent with a list request. An absent query and an empty
      one are the same request. */
  type Query = map<string, Value>

  const DefaultLimit := 50
  const LimitKey := "limit"
  const CursorKey := "after_cursor"

  // ---------------------------------------------------------------------------
  // PHP's empty() and intval() on a query value

  /** PHP's `empty($v)` for an integer or string: 0, "" and "0". */
  predicate EmptyValue(v: Value) {
    v == Int(0) || v == Str("") || v == Str("0")
  }

  predicate IsDigit(c: char) {
    '0' <= c <= '9'
  }

  predicate AllDigits(d: string) {
    forall k :: 0 <= k < |d| ==> IsDigit(d[k])
  }

  /** The whitespace PHP skips before a number. */
  predicate IsSpace(c: char) {
    c == ' ' || c == '\t' || c == '\n' || c == '\r' || c == '\U{B}' || c == '\U{C}'
  }

  /** The longest prefix of `s` made of decimal digits. */
  function LeadingDigits(s: string): (d: string)
    ensures |d| <= |s| && d == s[..|d|]
    ensures AllDigits(d)
    ensures |d| < |s| ==> !IsDigit(s[|d|])
  {
    if s != [] && IsDigit(s[0]) then [s[0]] + LeadingDigits(s[1..]) else []
  }

  /** The number a string of decimal digits denotes. */
  function DigitsValue(d: string): nat
    requires AllDigits(d)
  {
    if d == [] then 0 else DigitsValue(d[..|d| - 1]) * 10 + (d[|d| - 1] as int - '0' as int)
  }

  /** `s` without its leading whitespace. */
  function SkipSpace(s: string): (t: string)
    ensures |t| <= |s| && t == s[|s| - |t|..]
    ensures t != [] ==> !IsSpace(t[0])
  {
    if s != [] && IsSpace(s[0]) then SkipSpace(s[1..]) else s
  }

  /** PHP's intval() of a string: leading whitespace, an optional sign, then the
      leading decimal digits; a string with no digits there gives 0. */
  function ParseInt(s: string): (n: int)
    // nothing but whitespace reads as 0
    ensures SkipSpace(s) == [] ==> n == 0
    // the sign is the text's: only a leading '-' gives a negative number
    ensures n < 0 ==> SkipSpace(s)[0] == '-'
    // a text that starts with a digit reads as its leading digits
    ensures s != [] && IsDigit(s[0]) ==> n == DigitsValue(LeadingDigits(s))
  {
    var t := SkipSpace(s);
    if t != [] && t[0] == '-' then -(DigitsValue(LeadingDigits(t[1..])) as int)
    else if t != [] && t[0] == '+' then DigitsValue(LeadingDigits(t[1..]))
    else DigitsValue(LeadingDigits(t))
  }

  /** PHP's intval() of a query value. */
  function IntVal(v: Value): int
  {
    match v
    case Int(n) => n
    case Str(s) => ParseInt(s)
  }

  /** The decimal text of a natural number. */
  function NatText(n: nat): (d: string)
    ensures |d| > 0 && AllDigits(d)
  {
    if n < 10 then [('0' as int + n) as char]
    else NatText(n / 10) + [('0' as int + n % 10) as char]
  }

  /** The decimal text of an integer, as PHP prints it. */
  function IntText(n: int): string
  {
    if n < 0 then "-" + NatText(-n) else NatText(n)
  }

  lemma {:induction false} NatTextValue(n: nat)
    ensures DigitsValue(NatText(n)) == n
  {
    if n >= 10 {
      var d := NatText(n);
      assert d[..|d| - 1] == NatText(n / 10);
      NatTextValue(n / 10);
    }
  }

  lemma {:induction false} LeadingDigitsOfDigits(d: string)
    requires AllDigits(d)
    ensures LeadingDigits(d) == d
  {
    if d != [] {
      LeadingDigitsOfDigits(d[1..]);
    }
  }

  /** intval() reads back every integer from its decimal text. */
  lemma IntValReadsIntText(n: int)
    ensures IntVal(Str(IntText(n))) == n
  {
    var m: nat := if n < 0 then -n else n;
    var d := NatText(m);
    NatTextValue(m);
    LeadingDigitsOfDigits(d);
    var t := IntText(n);
    assert !IsSpace(t[0]);
    assert SkipSpace(t) == t;
    if n < 0 {
      assert t[0] == '-' && t[1..] == d;
    } else {
      assert t == d && IsDigit(t[0]);
    }
  }

  // ---------------------------------------------------------------------------
  // The limit, before the loop

  /** The caller's parameters become the limit and the query actually sent:
      a non-empty `limit` sets the client-side limit, and is removed from the
      query when it is 50 or more (the server's own page size). */
  function ListRequest(params: Query): (r: (int, Query))
    // the limit: the caller's when non-empty, 50 otherwise
    ensures LimitKey in params && !EmptyValue(params[LimitKey]) ==> r.0 == IntVal(params[LimitKey])
    ensures !(LimitKey in params && !EmptyValue(params[LimitKey])) ==> r.0 == DefaultLimit
    // the query is the caller's, less at most the limit
    ensures forall k :: k in r.1 ==> k in params && r.1[k] == params[k]
    ensures forall k :: k in params && k != LimitKey ==> k in r.1
    // a limit is sent exactly when it is below 50 (or empty)
    ensures LimitKey in params ==> (LimitKey in r.1 <==> EmptyValue(params[LimitKey]) || r.0 < DefaultLimit)
  {
    if LimitKey in params && !EmptyValue(params[LimitKey]) then
      var limit := IntVal(params[LimitKey]);
      if limit >= DefaultLimit then (limit, params - {LimitKey}) else (limit, params)
    else
      (DefaultLimit, params)
  }

  // ---------------------------------------------------------------------------
  // The loop's reference definition

  /** A reply after which the loop cannot go on: a failure, or a page whose
      after_cursor is empty. */
  predicate Terminal(r: Reply) {
    !r.Ok? || IsEmpty(AfterCursor(r.env))
  }

  /** The loop ends within the server's replies: the last one is terminal, or
      by then the pages hold `limit` records. */
  predicate Finite(replies: seq<Reply>, limit: int) {
    |replies| > 0 && (Terminal(replies[|replies| - 1]) || |Flat(replies)| >= limit)
  }

  /** The records a reply contributes. */
  function ItemsOf(r: Reply): seq<Record> {
    if r.Ok? then PageItems(r.env) else []
  }

  /** All records of the given replies, in order. */
  function Flat(replies: seq<Reply>): seq<Record> {
    if replies == [] then [] else Flat(replies[..|replies| - 1]) + ItemsOf(replies[|replies| - 1])
  }

  /** The first `limit` records of `s` (none for a limit of 0 or less). */
  function Prefix(s: seq<Record>, limit: int): (p: seq<Record>)
    ensures |p| == if limit <= 0 then 0 else if limit < |s| then limit else |s|
    ensures p == s[..|p|]
  {
    if limit <= 0 then [] else if limit < |s| then s[..limit] else s
  }

  /** The outcome of a list call: the records and how many requests were sent,
      or the failure that ended it. */
  datatype Listing =
    | Listed(items: seq<Record>, requests: nat)
    | Failed(code: int, description: Option<string>, requests: nat)

  /** The loop from request `i` on, with `acc` the records of the earlier pages:
      stop at a failure, at a page that reaches the limit, or at an empty cursor. */
  function Walk(replies: seq<Reply>, limit: int, i: nat, acc: seq<Record>): (l: Listing)
    requires Finite(replies, limit) && i < |replies|
    requires acc == Flat(replies[..i])
    ensures i < l.requests <= |replies|
    decreases |replies| - i
  {
    var r := replies[i];
    if !r.Ok? then Failed(Caught(r).0, Caught(r).1, i + 1)
    else
      var all := acc + PageItems(r.env);
      if |all| >= limit || IsEmpty(AfterCursor(r.env)) then Listed(Prefix(all, limit), i + 1)
      else
        FlatStep(replies, i);
        Walk(replies, limit, i + 1, all)
  }

  /** The listing of a whole call. */
  function List(replies: seq<Reply>, limit: int): (l: Listing)
    requires Finite(replies, limit)
    ensures 1 <= l.requests <= |replies|
  {
    Walk(replies, limit, 0, [])
  }

  /** Every request but the last received a page with a cursor to follow while
      the records so far were below the limit. */
  predicate Followed(replies: seq<Reply>, limit: int, n: nat)
    requires n <= |replies|
  {
    forall k :: 0 <= k < n ==>
      replies[k].Ok? && !IsEmpty(AfterCursor(replies[k].env)) && |Flat(replies[..k + 1])| < limit
  }

  lemma FlatStep(replies: seq<Reply>, i: nat)
    requires i < |replies|
    ensures Flat(replies[..i + 1]) == Flat(replies[..i]) + ItemsOf(replies[i])
  {
    assert replies[..i + 1][..i] == replies[..i];
  }

  /** `l` is the outcome the cursor walk over `replies` must have: see ListIsCursorWalk. */
  predicate Describes(replies: seq<Reply>, limit: int, l: Listing)
    requires 1 <= l.requests <= |replies|
  {
    var n := l.requests;
    Followed(replies, limit, n - 1) &&
    (l.Listed? ==> replies[n - 1].Ok?) &&
    (l.Listed? ==> |Flat(replies[..n])| >= limit || IsEmpty(AfterCursor(replies[n - 1].env))) &&
    (l.Listed? ==> l.items == Prefix(Flat(replies[..n]), limit)) &&
    (l.Failed? ==> !replies[n - 1].Ok? && (l.code, l.description) == Caught(replies[n - 1]))
  }

  lemma FollowedStep(replies: seq<Reply>, limit: int, i: nat)
    requires i < |replies| && Followed(replies, limit, i)
    requires replies[i].Ok? && !IsEmpty(AfterCursor(replies[i].env)) && |Flat(replies[..i + 1])| < limit
    ensures Followed(replies, limit, i + 1)
  {
  }

  lemma {:induction false} WalkFrom(replies: seq<Reply>, limit: int, i: nat, acc: seq<Record>)
    requires Finite(replies, limit) && i < |replies|
    requires acc == Flat(replies[..i])
    requires Followed(replies, limit, i)
    ensures Describes(replies, limit, Walk(replies, limit, i, acc))
    decreases |replies| - i
  {
    var r := replies[i];
    if !r.Ok? {
      assert Walk(replies, limit, i, acc) == Failed(Caught(r).0, Caught(r).1, i + 1);
    } else {
      var all := acc + PageItems(r.env);
      FlatStep(replies, i);
      assert Flat(replies[..i + 1]) == all;
      if |all| >= limit || IsEmpty(AfterCursor(r.env)) {
        assert Walk(replies, limit, i, acc) == Listed(Prefix(all, limit), i + 1);
      } else {
        assert Walk(replies, limit, i, acc) == Walk(replies, limit, i + 1, all);
        FollowedStep(replies, limit, i);
        WalkFrom(replies, limit, i + 1, all);
      }
    }
  }

  /** What a list call returns, stated without the loop: it sends requests
      while every page so far came back with a cursor and under the limit; it
      stops at the first failure, or at the first page that reaches the limit
      or has an empty after_cursor; it returns the first `limit` records of the
      pages it received, in order. */
  lemma ListIsCursorWalk(replies: seq<Reply>, limit: int)
    requires Finite(replies, limit)
    ensures var l := List(replies, limit); var n := l.requests;
      Followed(replies, limit, n - 1) &&
      (l.Listed? ==> replies[n - 1].Ok?) &&
      (l.Listed? ==> |Flat(replies[..n])| >= limit || IsEmpty(AfterCursor(replies[n - 1].env))) &&
      (l.Listed? ==> l.items == Prefix(Flat(replies[..n]), limit)) &&
      (l.Failed? ==> !replies[n - 1].Ok? && (l.code, l.description) == Caught(replies[n - 1]))
  {
    WalkFrom(replies, limit, 0, []);
  }

  /** A listing never holds more than `limit` records, and holds exactly `limit`
      when the pages received have that many. */
  lemma ListRespectsLimit(replies: seq<Reply>, limit: int)
    requires Finite(replies, limit)
    ensures var l := List(replies, limit);
      l.Listed? ==> |l.items| <= if limit < 0 then 0 else limit
    ensures var l := List(replies, limit);
      l.Listed? && |Flat(replies[..l.requests])| >= limit ==> |l.items| == if limit < 0 then 0 else limit
  {
    ListIsCursorWalk(replies, limit);
  }

  // ---------------------------------------------------------------------------
  // The loop

  /** Request `k` carries the caller's query with after_cursor set to the
      cursor of the page that answered request `k - 1`. */
  predicate Forwarded(query: Query, replies: seq<Reply>, sent: seq<Query>, k: nat)
  {
    0 < k <= |replies| && k < |sent| &&
    replies[k - 1].Ok? && AfterCursor(replies[k - 1].env).Some? &&
    sent[k] == query[CursorKey := Str(AfterCursor(replies[k - 1].env).value)]
  }

  /** One page of the walk: the records so far and the page's make up the
      first `i + 1` pages, and the walk either stops there or goes on from the
      next request, which the server answers. */
  lemma WalkStep(replies: seq<Reply>, limit: int, i: nat, acc: seq<Record>)
    requires Finite(replies, limit) && i < |replies| && acc == Flat(replies[..i])
    requires replies[i].Ok?
    ensures acc + PageItems(replies[i].env) == Flat(replies[..i + 1])
    ensures |acc + PageItems(replies[i].env)| >= limit || IsEmpty(AfterCursor(replies[i].env)) ==>
      Walk(replies, limit, i, acc) == Listed(Prefix(acc + PageItems(replies[i].env), limit), i + 1)
    ensures |acc + PageItems(replies[i].env)| < limit && !IsEmpty(AfterCursor(replies[i].env)) ==>
      i + 1 < |replies| && Walk(replies, limit, i, acc) == Walk(replies, limit, i + 1, acc + PageItems(replies[i].env))
  {
    FlatStep(replies, i);
  }

  /** The inner foreach of the list loop: append the page's records while the
      count is below the limit, and report `overflow` when a record is left that
      would exceed it (the source then returns at once). */
  method TakePage(items: seq<Record>, page: seq<Record>, limit: int) returns (taken: seq<Record>, overflow: bool)
    requires |items| < limit || items == []
    ensures overflow <==> |items| + |page| > (if limit < 0 then 0 else limit)
    ensures overflow ==> taken == Prefix(items + page, limit)
    ensures !overflow ==> taken == items + page
  {
    taken := items;
    var j := 0;
    while j < |page|
      invariant 0 <= j <= |page|
      invariant taken == items + page[..j]
      invariant j > 0 ==> |taken| <= limit
    {
      if |taken| < limit {
        taken := taken + [page[j]];
      } else {
        assert items + page == (items + page[..j]) + page[j..];
        return taken, true;
      }
      j := j + 1;
    }
    assert page[..j] == page;
    overflow := false;
  }

  /** The list loop: request, append the page's records while under the limit
      (returning at once when one would exceed it), then follow after_cursor. */
  method Paginate(query: Query, limit: int, replies: seq<Reply>) returns (listing: Listing, sent: seq<Query>)
    requires Finite(replies, limit)
    ensures listing == List(replies, limit)
    ensures |sent| == listing.requests
    // the first request carries the caller's query
    ensures sent[0] == query
    // every later one carries it with the previous page's after_cursor
    ensures forall k :: 0 < k < |sent| ==> Forwarded(query, replies, sent, k)
  {
    var items: seq<Record> := [];
    var q := query;
    var cursor: Option<string> := None;
    var i := 0;
    sent := [];
    while i == 0 || (|items| < limit && !IsEmpty(cursor))
      invariant 0 <= i <= |replies| && |sent| == i
      invariant items == Flat(replies[..i])
      invariant i == 0 ==> q == query
      invariant i > 0 ==> sent[0] == query && replies[i - 1].Ok? && cursor == AfterCursor(replies[i - 1].env)
      invariant i > 0 && !IsEmpty(cursor) ==> q == query[CursorKey := Str(cursor.value)]
      invariant forall k :: 0 < k < i ==> Forwarded(query, replies, sent, k)
      invariant i > 0 && |items| < limit && !IsEmpty(cursor) ==>
        i < |replies| && List(replies, limit) == Walk(replies, limit, i, items)
      invariant i > 0 && !(|items| < limit && !IsEmpty(cursor)) ==> List(replies, limit) == Listed(items, i)
      decreases |replies| - i
    {
      ghost var acc := items;
      assert List(replies, limit) == Walk(replies, limit, i, acc);
      var reply := replies[i];
      if reply.Ok? {
        WalkStep(replies, limit, i, acc);
      }
      ghost var before := sent;
      sent := sent + [q];
      forall k | 0 < k <= i
        ensures Forwarded(query, replies, sent, k)
      {
        if k < i {
          assert Forwarded(query, replies, before, k);
        }
      }
      i := i + 1;
      if !reply.Ok? {
        var (code, description) := Caught(reply);
        return Failed(code, description, i), sent;
      }
      var data := DataResponse(reply.env);
      if data.Some? {
        var overflow;
        items, overflow := TakePage(items, data.value, limit);
        if overflow {
          return Listed(items, i), sent;
        }
      } else {
        assert items == acc + [];
      }
      assert items == acc + PageItems(reply.env);
      cursor := AfterCursor(reply.env);
      if !IsEmpty(cursor) {
        q := q[CursorKey := Str(cursor.value)];
      }
    }
    listing := Listed(items, i);
  }

  // ---------------------------------------------------------------------------
  // getUsers' trailing trim

  /** PHP's `array_slice($s, 0, $length)`: a negative length stops that many
      elements before the end. */
  function ArraySlice(s: seq<Record>, length: int): (r: seq<Record>)
    ensures length >= 0 ==> r == s[..if length < |s| then length else |s|]
    ensures length < 0 ==> r == s[..if |s| + length > 0 then |s| + length else 0]
  {
    if length >= 0 then (if length < |s| then s[..length] else s)
    else if |s| + length > 0 then s[..|s| + length] else []
  }

  /** getUsers' `if (count($users) > $limit) array_slice(...)` after the loop. */
  function TrimToLimit(items: seq<Record>, limit: int): (r: seq<Record>)
    // for a limit of 0 or more: the first `limit` records
    ensures limit >= 0 ==> r == Prefix(items, limit)
    // for a negative limit, array_slice drops -limit records from the end instead
    ensures limit < 0 ==> r == items[..if |items| + limit > 0 then |items| + limit else 0]
  {
    if |items| > limit then ArraySlice(items, limit) else items
  }

  /** The trim after getUsers' loop never changes what the loop collected. */
  lemma TrimIsNoOp(replies: seq<Reply>, limit: int)
    requires Finite(replies, limit)
    requires List(replies, limit).Listed?
    ensures TrimToLimit(List(replies, limit).items, limit) == List(replies, limit).items
  {
    ListRespectsLimit(replies, limit);
  }

  // ---------------------------------------------------------------------------
  // Worked cases

  /** A successful page of `n` records with the given after_cursor. */
  function Page(n: nat, cursor: Option<string>): Reply {
    var records := seq(n, k => map["id" := Int(k)]);
    Ok(Envelope(Some(Status(Present(SuccessType), Present(SuccessMessage))), Present(records), Some(Pagination(None, cursor))), 200)
  }

  /** Pages of 30 and 30 with a limit of 40: two requests, 40 records, the
      second page cut after its tenth record. */
  lemma TwoPagesTruncated()
    ensures var l := List([Page(30, Some("abc")), Page(30, None)], 40);
      l.Listed? && l.requests == 2 && |l.items| == 40 &&
      l.items == PageItems(Page(30, None).env) + PageItems(Page(30, None).env)[..10]
  {
  }

  /** A first page of 60 with a limit of 50: one request, 50 records, even
      though the page carries a cursor. */
  lemma FirstPageOverLimit()
    ensures var l := List([Page(60, Some("abc"))], 50);
      l.Listed? && l.requests == 1 && l.items == PageItems(Page(60, None).env)[..50]
  {
  }

  /** Pages of 3 and 3 with a limit of 5: five records, the second page's last
      record dropped. */
  lemma FiveOfTwoPagesOfThree()
    ensures var l := List([Page(3, Some("abc")), Page(3, None)], 5);
      l.Listed? && l.requests == 2 && |l.items| == 5 &&
      l.items == PageItems(Page(3, None).env) + PageItems(Page(3, None).env)[..2]
  {
  }

  /** A cursor of "0" is empty to PHP: the listing stops after that page. */
  lemma ZeroCursorStops()
    ensures List([Page(3, Some("0")), Page(3, None)], 50) == Listed(PageItems(Page(3, None).env), 1)
  {
  }
}
