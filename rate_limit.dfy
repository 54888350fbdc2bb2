/** The fixed-window rate limiter of lib/rate-limit.ts: a process-wide map
    from identifier to a window (request count and the instant it ends);
    each call first deletes every window that has ended, opens a new window
    for an identifier without one, counts the request and reports whether
    it is within the 10 allowed per minute.  The clock is a parameter. */
module RateLimit {
  import opened Arith

  const RateLimitDuration: int := 60 * 1000
  const MaxRequests: int := 10

  datatype RateLimitInfo = RateLimitInfo(count: int, resetAt: int)

  datatype RateLimitReport = RateLimitReport(success: bool, limit: int, remaining: int, reset: int)

  /** The windows that survive the sweep at `now`: those ending at `now` or
      later, unchanged. */
  function Swept(m: map<string, RateLimitInfo>, now: int): (r: map<string, RateLimitInfo>)
    ensures forall k :: k in r <==> k in m && m[k].resetAt >= now
    ensures forall k :: k in r ==> r[k] == m[k]
  {
    map k | k in m && m[k].resetAt >= now :: m[k]
  }

  /** The map after one call for `identifier` at `now`. */
  function Step(m: map<string, RateLimitInfo>, identifier: string, now: int): (r: map<string, RateLimitInfo>)
    ensures r.Keys <= m.Keys + {identifier} && identifier in r
    ensures r[identifier].resetAt >= now
    ensures Counted(m) ==> Counted(r)
  {
    var s := Swept(m, now);
    var info := if identifier !in s || s[identifier].resetAt < now
                then RateLimitInfo(0, now + RateLimitDuration) else s[identifier];
    s[identifier := info.(count := info.count + 1)]
  }

  /** Every stored window has counted at least the request that opened it. */
  predicate Counted(m: map<string, RateLimitInfo>) {
    forall k :: k in m ==> m[k].count >= 1
  }

  /** The object `rateLimit` returns for the identifier's window. */
  function Report(info: RateLimitInfo): (r: RateLimitReport)
    ensures r.limit == MaxRequests && r.remaining >= 0
    ensures r.success <==> info.count <= MaxRequests
    ensures 1000 * (r.reset - 1) < info.resetAt <= 1000 * r.reset
  {
    RateLimitReport(info.count <= MaxRequests, MaxRequests,
                    if MaxRequests - info.count > 0 then MaxRequests - info.count else 0,
                    CeilDiv(info.resetAt, 1000))
  }

  class RateLimiter {
    var rateLimits: map<string, RateLimitInfo>

    /** The invariant the calls keep. */
    predicate Valid()
      reads this
    {
      Counted(rateLimits)
    }

    constructor ()
      ensures rateLimits == map[] && Valid()
    {
      rateLimits := map[];
    }

    /** `rateLimit(identifier)` at the instant `now` (milliseconds). */
    method RateLimit(identifier: string, now: int) returns (report: RateLimitReport)
      requires Valid()
      modifies this
      ensures Valid()
      ensures rateLimits == Step(old(rateLimits), identifier, now)
      ensures identifier in rateLimits && report == Report(rateLimits[identifier])
      ensures 0 <= report.remaining < MaxRequests
    {
      ghost var before := rateLimits;
      var keys := rateLimits.Keys;
      while keys != {}
        invariant keys <= before.Keys
        invariant rateLimits == map k | k in before && (k in keys || before[k].resetAt >= now) :: before[k]
        decreases keys
      {
        var key :| key in keys;
        if rateLimits[key].resetAt < now {
          rateLimits := rateLimits - {key};
        }
        keys := keys - {key};
      }
      assert rateLimits == Swept(before, now);
      var rateLimitInfo: RateLimitInfo;
      if identifier !in rateLimits || rateLimits[identifier].resetAt < now {
        rateLimitInfo := RateLimitInfo(0, now + RateLimitDuration);
        rateLimits := rateLimits[identifier := rateLimitInfo];
      } else {
        rateLimitInfo := rateLimits[identifier];
      }
      rateLimitInfo := rateLimitInfo.(count := rateLimitInfo.count + 1);
      rateLimits := rateLimits[identifier := rateLimitInfo];
      var success := rateLimitInfo.count <= MaxRequests;
      var remaining := if MaxRequests - rateLimitInfo.count > 0 then MaxRequests - rateLimitInfo.count else 0;
      report := RateLimitReport(success, MaxRequests, remaining, CeilDiv(rateLimitInfo.resetAt, 1000));
    }
  }

  /** One call deletes exactly the windows of other identifiers that ended
      before `now`, leaves the other surviving windows as they were, and
      counts one request in the identifier's window: the open one, or a
      fresh one of 60 seconds that ends at `now + 60000`. */
  lemma StepEffect(m: map<string, RateLimitInfo>, identifier: string, now: int)
    ensures var m' := Step(m, identifier, now);
      && (forall k :: k != identifier ==> (k in m' <==> k in m && m[k].resetAt >= now))
      && (forall k :: k != identifier && k in m' ==> m'[k] == m[k])
      && identifier in m'
      && (if identifier in m && m[identifier].resetAt >= now
          then m'[identifier] == RateLimitInfo(m[identifier].count + 1, m[identifier].resetAt)
          else m'[identifier] == RateLimitInfo(1, now + RateLimitDuration))
  {
  }

  /** What the report says: success exactly when the window holds at most
      10 requests, the remaining allowance within 0..10 for any count that
      is not negative (as every stored count is, by `Counted`), the limit
      10, and the end of the window in seconds, rounded up. */
  lemma ReportMeaning(info: RateLimitInfo)
    requires info.count >= 0
    ensures var r := Report(info);
      && (r.success <==> info.count <= MaxRequests)
      && r.limit == MaxRequests
      && 0 <= r.remaining <= MaxRequests
      && r.remaining == (if info.count >= MaxRequests then 0 else MaxRequests - info.count)
      && 1000 * (r.reset - 1) < info.resetAt <= 1000 * r.reset
  {
  }

  /** The reports of successive calls for one identifier at the given
      instants. */
  function Reports(m: map<string, RateLimitInfo>, identifier: string, times: seq<int>): (r: seq<RateLimitReport>)
    ensures |r| == |times|
    decreases |times|
  {
    if |times| == 0 then []
    else
      var m' := Step(m, identifier, times[0]);
      [Report(m'[identifier])] + Reports(m', identifier, times[1..])
  }

  lemma {:induction false} OpenWindowCounts(m: map<string, RateLimitInfo>, identifier: string,
                                            times: seq<int>, count: int, resetAt: int)
    requires identifier in m && m[identifier] == RateLimitInfo(count, resetAt)
    requires forall i :: 0 <= i < |times| ==> times[i] <= resetAt
    ensures forall i :: 0 <= i < |times| ==>
      (Reports(m, identifier, times)[i].success <==> count + i + 1 <= MaxRequests)
    decreases |times|
  {
    if |times| > 0 {
      var m' := Step(m, identifier, times[0]);
      StepEffect(m, identifier, times[0]);
      assert m'[identifier] == RateLimitInfo(count + 1, resetAt);
      var rest := times[1..];
      OpenWindowCounts(m', identifier, rest, count + 1, resetAt);
      forall i | 0 <= i < |times|
        ensures Reports(m, identifier, times)[i].success <==> count + i + 1 <= MaxRequests
      {
        if i > 0 {
          assert Reports(m, identifier, times)[i] == Reports(m', identifier, rest)[i - 1];
        }
      }
    }
  }

  /** Within one window at most 10 requests succeed: when the identifier
      has no open window at the first call and every later call comes
      before that window ends, exactly the first 10 calls succeed. */
  lemma WindowAdmitsTen(m: map<string, RateLimitInfo>, identifier: string, times: seq<int>)
    requires |times| > 0
    requires identifier !in m || m[identifier].resetAt < times[0]
    requires forall i :: 0 <= i < |times| ==> times[i] <= times[0] + RateLimitDuration
    ensures forall i :: 0 <= i < |times| ==> (Reports(m, identifier, times)[i].success <==> i < MaxRequests)
  {
    var m' := Step(m, identifier, times[0]);
    StepEffect(m, identifier, times[0]);
    assert m'[identifier] == RateLimitInfo(1, times[0] + RateLimitDuration);
    var rest := times[1..];
    assert forall i :: 0 <= i < |rest| ==> rest[i] == times[i + 1];
    OpenWindowCounts(m', identifier, rest, 1, times[0] + RateLimitDuration);
    var reports := Reports(m, identifier, times);
    assert reports == [Report(m'[identifier])] + Reports(m', identifier, rest);
    forall i | 0 <= i < |times|
      ensures reports[i].success <==> i < MaxRequests
    {
      if i > 0 {
        assert reports[i] == Reports(m', identifier, rest)[i - 1];
      }
    }
  }
}
