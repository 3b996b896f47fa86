/**
 * The behavioural analyzer: a login-path keyword test, the number of recent
 * requests from one client read from the request log, and the risk those give.
 * The log is a sequence of rows; a failed query is `None`. Timestamps are
 * whole seconds; the caller's clock is the parameter `now`.
 */
module Behavior {
  import opened Text
  import opened Wrappers

  const LoginPathKeywords: seq<string> := ["login", "signin", "auth"]

  /** `any(k in text for k in keywords)`. */
  function AnyKeyword(keywords: seq<string>, text: string): (b: bool)
    ensures b <==> exists k :: 0 <= k < |keywords| && Contains(text, keywords[k])
    decreases |keywords|
  {
    if |keywords| == 0 then false
    else Contains(text, keywords[0]) || AnyKeyword(keywords[1..], text)
  }

  /** `is_login_path(path)`: a case-insensitive substring test for the three keywords. */
  function IsLoginPath(path: string): (b: bool)
    ensures b <==> Contains(Lower(path), "login") || Contains(Lower(path), "signin") || Contains(Lower(path), "auth")
  {
    assert LoginPathKeywords[0] == "login" && LoginPathKeywords[1] == "signin" && LoginPathKeywords[2] == "auth";
    AnyKeyword(LoginPathKeywords, Lower(path))
  }

  /** A row of `request_logs`, reduced to the two columns the count reads. */
  datatype LogRow = LogRow(clientIp: string, timestamp: int)

  /** `client_ip = ? AND timestamp >= ?`. */
  predicate InWindow(row: LogRow, ip: string, since: int) {
    row.clientIp == ip && row.timestamp >= since
  }

  /** The rows the query selects, in log order. */
  function RecentRows(rows: seq<LogRow>, ip: string, since: int): (r: seq<LogRow>)
    ensures |r| <= |rows|
    ensures forall row :: row in r <==> row in rows && InWindow(row, ip, since)
    decreases |rows|
  {
    if |rows| == 0 then []
    else
      assert rows == [rows[0]] + rows[1..];
      (if InWindow(rows[0], ip, since) then [rows[0]] else []) + RecentRows(rows[1..], ip, since)
  }

  /**
   * `count_recent_requests(ip, minutes)`: the number of log rows of `ip` at or
   * after `now` minus `minutes` minutes; 0 when the query fails.
   */
  function CountRecentRequests(log: Option<seq<LogRow>>, ip: string, now: int, minutes: int): (c: nat)
    ensures log.None? ==> c == 0
    ensures log.Some? ==> c <= |log.value|
  {
    match log
    case None => 0
    case Some(rows) => |RecentRows(rows, ip, now - 60 * minutes)|
  }

  /**
   * How often the query counts a row: a row of the client inside the window
   * as often as it occurs in the log (equal rows, say two requests in the same
   * second, are each counted), any other row never.
   */
  lemma {:induction false} RecentRowsMultiplicity(rows: seq<LogRow>, ip: string, since: int, row: LogRow)
    ensures multiset(RecentRows(rows, ip, since))[row]
         == if InWindow(row, ip, since) then multiset(rows)[row] else 0
    decreases |rows|
  {
    if |rows| > 0 {
      RecentRowsMultiplicity(rows[1..], ip, since, row);
      assert rows == [rows[0]] + rows[1..];
      assert multiset(rows) == multiset([rows[0]]) + multiset(rows[1..]);
    }
  }

  /** The count is positive exactly when some row of the client lies inside the window. */
  lemma CountPositiveIff(rows: seq<LogRow>, ip: string, now: int, minutes: int)
    ensures CountRecentRequests(Some(rows), ip, now, minutes) > 0
        <==> exists row :: row in rows && InWindow(row, ip, now - 60 * minutes)
  {
    var r := RecentRows(rows, ip, now - 60 * minutes);
    if |r| > 0 {
      assert r[0] in r;
    }
  }

  /** The rate contribution: +2 above 10 requests, a further +4 above 25. */
  function RateRisk(recent: int): (r: int)
    ensures r == 0 <==> recent <= 10
    ensures r == 2 <==> 10 < recent <= 25
    ensures r == 6 <==> recent > 25
  {
    (if recent > 10 then 2 else 0) + (if recent > 25 then 4 else 0)
  }

  /** The risk `behavior_risk` computes from a request count and a path. */
  function BehaviorScore(recent: int, path: string): (r: int)
    ensures r in {0, 2, 3, 5, 6, 9}
    ensures r >= 3 <==> IsLoginPath(path) || recent > 25
  {
    RateRisk(recent) + (if IsLoginPath(path) then 3 else 0)
  }

  /** `behavior_risk(ip, path)`, with the one-minute window of its call to `count_recent_requests`. */
  method BehaviorRisk(log: Option<seq<LogRow>>, ip: string, path: string, now: int) returns (risk: int)
    ensures risk == BehaviorScore(CountRecentRequests(log, ip, now, 1), path)
    ensures risk in {0, 2, 3, 5, 6, 9}
  {
    risk := 0;

    var recent := CountRecentRequests(log, ip, now, 1);

    if recent > 10 {
      risk := risk + 2;
    }
    if recent > 25 {
      risk := risk + 4;
    }

    if IsLoginPath(path) {
      risk := risk + 3;
    }
  }

  /** The rate contribution is 0 up to 10 requests, 2 from 11 to 25, and 6 above 25. */
  lemma RateRiskBands(recent: int)
    ensures recent <= 10 ==> RateRisk(recent) == 0
    ensures 11 <= recent <= 25 ==> RateRisk(recent) == 2
    ensures recent > 25 ==> RateRisk(recent) == 6
  {
  }

  /** A login path adds exactly 3, whatever the count. */
  lemma LoginAddsThree(recent: int, loginPath: string, otherPath: string)
    requires IsLoginPath(loginPath) && !IsLoginPath(otherPath)
    ensures BehaviorScore(recent, loginPath) == BehaviorScore(recent, otherPath) + 3
  {
  }

  /** The score takes one of six values and never decreases as the count grows. */
  lemma BehaviorScoreShape(recent: int, more: int, path: string)
    requires recent <= more
    ensures BehaviorScore(recent, path) in {0, 2, 3, 5, 6, 9}
    ensures BehaviorScore(recent, path) <= BehaviorScore(more, path)
  {
  }

  /** Counting distributes over a log split in two. */
  lemma {:induction false} RecentRowsAppend(a: seq<LogRow>, b: seq<LogRow>, ip: string, since: int)
    ensures RecentRows(a + b, ip, since) == RecentRows(a, ip, since) + RecentRows(b, ip, since)
    decreases |a|
  {
    if |a| == 0 {
      assert a + b == b;
    } else {
      assert (a + b)[0] == a[0];
      assert (a + b)[1..] == a[1..] + b;
      RecentRowsAppend(a[1..], b, ip, since);
    }
  }

  /** Rows that are outside the window, or of another client, do not change the count. */
  lemma {:induction false} OutsideRowsIgnored(rows: seq<LogRow>, extra: seq<LogRow>, ip: string, now: int, minutes: int)
    requires forall k :: 0 <= k < |extra| ==> !InWindow(extra[k], ip, now - 60 * minutes)
    ensures CountRecentRequests(Some(rows + extra), ip, now, minutes)
         == CountRecentRequests(Some(rows), ip, now, minutes)
  {
    var since := now - 60 * minutes;
    RecentRowsAppend(rows, extra, ip, since);
    NoneInWindow(extra, ip, since);
  }

  lemma {:induction false} NoneInWindow(rows: seq<LogRow>, ip: string, since: int)
    requires forall k :: 0 <= k < |rows| ==> !InWindow(rows[k], ip, since)
    ensures RecentRows(rows, ip, since) == []
    decreases |rows|
  {
    if |rows| > 0 {
      NoneInWindow(rows[1..], ip, since);
    }
  }

  /** Every row of the client inside the window is counted. */
  lemma {:induction false} WindowRowsCounted(older: seq<LogRow>, recent: seq<LogRow>, ip: string, now: int, minutes: int)
    requires forall k :: 0 <= k < |recent| ==> InWindow(recent[k], ip, now - 60 * minutes)
    ensures CountRecentRequests(Some(older + recent), ip, now, minutes) >= |recent|
  {
    WindowSuffixCounted(older, recent, ip, now - 60 * minutes);
  }

  lemma WindowSuffixCounted(older: seq<LogRow>, recent: seq<LogRow>, ip: string, since: int)
    requires forall k :: 0 <= k < |recent| ==> InWindow(recent[k], ip, since)
    ensures |RecentRows(older + recent, ip, since)| >= |recent|
  {
    RecentRowsAppend(older, recent, ip, since);
    AllInWindow(recent, ip, since);
  }

  lemma {:induction false} AllInWindow(rows: seq<LogRow>, ip: string, since: int)
    requires forall k :: 0 <= k < |rows| ==> InWindow(rows[k], ip, since)
    ensures RecentRows(rows, ip, since) == rows
    decreases |rows|
  {
    if |rows| > 0 {
      AllInWindow(rows[1..], ip, since);
    }
  }

  /**
   * Eleven requests of one client within the last minute give that client the
   * rate contribution of the first band on every later evaluation that still
   * sees them.
   */
  lemma ElevenRecentRequestsRaiseRisk(older: seq<LogRow>, recent: seq<LogRow>, ip: string, path: string, now: int)
    requires |recent| >= 11
    requires forall k :: 0 <= k < |recent| ==> InWindow(recent[k], ip, now - 60)
    ensures BehaviorScore(CountRecentRequests(Some(older + recent), ip, now, 1), path) >= 2
  {
    WindowRowsCounted(older, recent, ip, now, 1);
  }

  /** A failing count query yields a count of 0, so only the path can add risk. */
  lemma FailedQueryCountsZero(ip: string, path: string, now: int, minutes: int)
    ensures CountRecentRequests(None, ip, now, minutes) == 0
    ensures BehaviorScore(CountRecentRequests(None, ip, now, minutes), path) == (if IsLoginPath(path) then 3 else 0)
  {
  }
}
