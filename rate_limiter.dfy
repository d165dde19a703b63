/**
 * Fixed-window rate limiting: the general limiter of
 * backend/services/rate_limiter_service.go and the failed-authentication
 * limiter of backend/middlewares/auth_rate_limiter.go. Both count requests
 * per client address in a per-minute and a per-hour bucket kept in a
 * counter store (Redis in the source); the clock is an input, in Unix
 * seconds.
 */
module RateLimiter {
  import opened Wrappers
  import opened Text

  // ---------------------------------------------------------------------
  // Bucket keys
  // ---------------------------------------------------------------------

  /** `<prefix>:<ip>:<window>:<bucket>`. */
  function BucketKey(prefix: string, ip: string, window: string, bucket: int): string {
    prefix + ":" + ip + ":" + window + ":" + IntToString(bucket)
  }

  /** Go's `now.Unix()/60` and `now.Unix()/3600`. */
  function MinuteBucket(now: int): int { TruncDiv(now, 60) }
  function HourBucket(now: int): int { TruncDiv(now, 3600) }

  function MinuteKey(prefix: string, ip: string, now: int): string { BucketKey(prefix, ip, "minute", MinuteBucket(now)) }
  function HourKey(prefix: string, ip: string, now: int): string { BucketKey(prefix, ip, "hour", HourBucket(now)) }

  const LIMITER_PREFIX := "ratelimit"
  const AUTH_PREFIX := "auth_ratelimit"

  /**
   * A key names one address, one window and one bucket: whatever characters
   * the address holds, different addresses, windows or buckets never share a
   * counter.
   */
  lemma BucketKeyInjective(prefix: string, ip1: string, ip2: string, w1: string, w2: string, b1: int, b2: int)
    requires ':' !in w1 && ':' !in w2
    requires BucketKey(prefix, ip1, w1, b1) == BucketKey(prefix, ip2, w2, b2)
    ensures ip1 == ip2 && w1 == w2 && b1 == b2
  {
    IntToStringChars(b1, ':');
    IntToStringChars(b2, ':');
    SplitAtLastSeparator(prefix + ":" + ip1 + ":" + w1, prefix + ":" + ip2 + ":" + w2, ':', IntToString(b1), IntToString(b2));
    IntToStringInjective(b1, b2);
    SplitAtLastSeparator(prefix + ":" + ip1, prefix + ":" + ip2, ':', w1, w2);
    var p := prefix + ":";
    assert ip1 == (p + ip1)[|p|..] && ip2 == (p + ip2)[|p|..];
  }

  /** The minute and hour counters of a request are different counters. */
  lemma MinuteAndHourKeysDiffer(prefix: string, ip: string, now: int)
    ensures MinuteKey(prefix, ip, now) != HourKey(prefix, ip, now)
  {
    var xm := prefix + ":" + ip + ":" + "minute";
    var xh := prefix + ":" + ip + ":" + "hour";
    assert xm[|xm| - 1] == 'e' && xh[|xh| - 1] == 'r';
    IntToStringChars(MinuteBucket(now), ':');
    IntToStringChars(HourBucket(now), ':');
    SplitAtLastSeparator(xm, xh, ':', IntToString(MinuteBucket(now)), IntToString(HourBucket(now)));
  }

  /** Two requests within the same minute of the clock share the minute counter. */
  lemma SameMinuteSameKey(prefix: string, ip: string, t1: int, t2: int)
    requires 0 <= t1 && 0 <= t2 && t1 / 60 == t2 / 60
    ensures MinuteKey(prefix, ip, t1) == MinuteKey(prefix, ip, t2)
  {
  }

  // ---------------------------------------------------------------------
  // Counter store
  // ---------------------------------------------------------------------

  /** Count of a key; a missing key reads as zero. */
  function CountOf(counts: map<string, int>, key: string): int {
    if key in counts then counts[key] else 0
  }

  function Bump(counts: map<string, int>, key: string): (r: map<string, int>)
    ensures CountOf(r, key) == CountOf(counts, key) + 1
    ensures forall k :: k != key ==> CountOf(r, k) == CountOf(counts, k)
  {
    counts[key := CountOf(counts, key) + 1]
  }

  /** The counters a Redis instance holds, by key. */
  class CounterStore {
    var counts: map<string, int>

    constructor ()
      ensures counts == map[]
    {
      counts := map[];
    }

    function Get(key: string): int
      reads this
    {
      CountOf(counts, key)
    }

    /** `INCR`: the key's count goes up by one and the new count is returned. */
    method Incr(key: string) returns (v: int)
      modifies this
      ensures counts == Bump(old(counts), key)
      ensures v == old(Get(key)) + 1
    {
      v := Get(key) + 1;
      counts := Bump(counts, key);
    }
  }

  // ---------------------------------------------------------------------
  // RateLimiterService.Allow
  // ---------------------------------------------------------------------

  /** `allowed`, the user-facing `message`, and whether an error is returned. */
  datatype Decision = Decision(allowed: bool, message: string, failed: bool)

  const INVALID_CONFIG_MESSAGE := "Invalid rate limit configuration"
  const MINUTE_EXCEEDED_MESSAGE := "Too many requests. Please try again later."
  const HOUR_EXCEEDED_MESSAGE := "Too many requests. Please try again in an hour."

  /** How far the request got: no service, no repository, or the repository's answer. */
  datatype Wiring = NoService | NoRepository | Wired(counters: Result<seq<int>, string>)

  /** The decision of `Allow` once the counters (or the failure) are known. */
  function Decide(minuteLimit: int, hourLimit: int, failOpen: bool, w: Wiring): (d: Decision)
    ensures (minuteLimit <= 0 || hourLimit <= 0) ==>
              d == Decision(false, INVALID_CONFIG_MESSAGE, true)
    ensures minuteLimit > 0 && hourLimit > 0 && w.Wired? && w.counters.Ok? && |w.counters.value| == 2 ==>
              !d.failed
              && (d.allowed <==> w.counters.value[0] <= minuteLimit && w.counters.value[1] <= hourLimit)
              && (w.counters.value[0] > minuteLimit ==> d.message == MINUTE_EXCEEDED_MESSAGE)
    ensures minuteLimit > 0 && hourLimit > 0 && w.Wired? && (w.counters.Err? || |w.counters.value| != 2) ==>
              d.allowed == failOpen && d.failed == !failOpen
    ensures minuteLimit > 0 && hourLimit > 0 && w.NoService? ==> d.allowed && !d.failed
    ensures minuteLimit > 0 && hourLimit > 0 && w.NoRepository? ==> d.allowed == failOpen && d.failed == !failOpen
    ensures d.allowed ==> d.message == "" && !d.failed
  {
    if minuteLimit <= 0 || hourLimit <= 0 then Decision(false, INVALID_CONFIG_MESSAGE, true)
    else match w
      case NoService => Decision(true, "", false)
      case NoRepository => if failOpen then Decision(true, "", false) else Decision(false, "", true)
      case Wired(Err(_)) => if failOpen then Decision(true, "", false) else Decision(false, "", true)
      case Wired(Ok(c)) =>
        if |c| != 2 then (if failOpen then Decision(true, "", false) else Decision(false, "", true))
        else if c[0] > minuteLimit then Decision(false, MINUTE_EXCEEDED_MESSAGE, false)
        else if c[1] > hourLimit then Decision(false, HOUR_EXCEEDED_MESSAGE, false)
        else Decision(true, "", false)
  }

  /**
   * One call of `Allow` on a wired service: the counters after the call and
   * the decision. `repoError` says the repository call failed; the counters
   * are then taken as unchanged.
   */
  function AllowStep(counts: map<string, int>, ip: string, now: int, minuteLimit: int, hourLimit: int,
                     failOpen: bool, repoError: bool): (map<string, int>, Decision)
  {
    if minuteLimit <= 0 || hourLimit <= 0 then (counts, Decide(minuteLimit, hourLimit, failOpen, NoService))
    else if repoError then (counts, Decide(minuteLimit, hourLimit, failOpen, Wired(Err("repository error"))))
    else
      var mk := MinuteKey(LIMITER_PREFIX, ip, now);
      var hk := HourKey(LIMITER_PREFIX, ip, now);
      var after := Bump(Bump(counts, mk), hk);
      (after, Decide(minuteLimit, hourLimit, failOpen, Wired(Ok([CountOf(after, mk), CountOf(after, hk)]))))
  }

  /** A successful call adds one to exactly the request's two counters. */
  lemma AllowStepCounts(counts: map<string, int>, ip: string, now: int, minuteLimit: int, hourLimit: int,
                        failOpen: bool, key: string)
    requires minuteLimit > 0 && hourLimit > 0
    ensures var after := AllowStep(counts, ip, now, minuteLimit, hourLimit, failOpen, false).0;
            CountOf(after, key) ==
              CountOf(counts, key) + (if key == MinuteKey(LIMITER_PREFIX, ip, now) || key == HourKey(LIMITER_PREFIX, ip, now) then 1 else 0)
  {
    MinuteAndHourKeysDiffer(LIMITER_PREFIX, ip, now);
  }

  /** The decisions of `n` calls in a row from one address at one instant. */
  function AllowRun(counts: map<string, int>, ip: string, now: int, minuteLimit: int, hourLimit: int,
                    failOpen: bool, n: nat): (r: seq<bool>)
    ensures |r| == n
    decreases n
  {
    if n == 0 then []
    else
      var step := AllowStep(counts, ip, now, minuteLimit, hourLimit, failOpen, false);
      [step.1.allowed] + AllowRun(step.0, ip, now, minuteLimit, hourLimit, failOpen, n - 1)
  }

  /** Call i of a run sees counts raised by i + 1 and is allowed iff both stay within their limits. */
  lemma {:induction false} AllowRunDecisions(counts: map<string, int>, ip: string, now: int, minuteLimit: int,
                                             hourLimit: int, failOpen: bool, n: nat, i: nat)
    requires minuteLimit > 0 && hourLimit > 0 && i < n
    decreases n
    ensures AllowRun(counts, ip, now, minuteLimit, hourLimit, failOpen, n)[i] <==>
              CountOf(counts, MinuteKey(LIMITER_PREFIX, ip, now)) + i + 1 <= minuteLimit
              && CountOf(counts, HourKey(LIMITER_PREFIX, ip, now)) + i + 1 <= hourLimit
  {
    var mk := MinuteKey(LIMITER_PREFIX, ip, now);
    var hk := HourKey(LIMITER_PREFIX, ip, now);
    MinuteAndHourKeysDiffer(LIMITER_PREFIX, ip, now);
    var after := AllowStep(counts, ip, now, minuteLimit, hourLimit, failOpen, false).0;
    assert CountOf(after, mk) == CountOf(counts, mk) + 1;
    assert CountOf(after, hk) == CountOf(counts, hk) + 1;
    if i > 0 {
      AllowRunDecisions(after, ip, now, minuteLimit, hourLimit, failOpen, n - 1, i - 1);
    }
  }

  /**
   * With a minute limit L under the hour limit and fresh counters, the first
   * L calls are allowed and call L + 1 is denied.
   */
  lemma MinuteBurst(counts: map<string, int>, ip: string, now: int, limit: int, hourLimit: int, failOpen: bool)
    requires 0 < limit < hourLimit
    requires MinuteKey(LIMITER_PREFIX, ip, now) !in counts && HourKey(LIMITER_PREFIX, ip, now) !in counts
    ensures var run := AllowRun(counts, ip, now, limit, hourLimit, failOpen, limit + 1);
            (forall i :: 0 <= i < limit ==> run[i]) && !run[limit]
  {
    var run := AllowRun(counts, ip, now, limit, hourLimit, failOpen, limit + 1);
    forall i | 0 <= i <= limit
      ensures run[i] <==> i < limit
    {
      AllowRunDecisions(counts, ip, now, limit, hourLimit, failOpen, limit + 1, i);
    }
  }

  /** `RateLimiterService` with its (possibly missing) repository and its fail-open policy. */
  class RateLimiterService {
    const repo: CounterStore?
    const failOpen: bool

    constructor (repo: CounterStore?, failOpen: bool)
      ensures this.repo == repo && this.failOpen == failOpen
    {
      this.repo := repo;
      this.failOpen := failOpen;
    }

    /** `Allow`: the limits are checked, then both counters raised, then compared. */
    method Allow(ip: string, minuteLimit: int, hourLimit: int, now: int, repoError: bool) returns (d: Decision)
      modifies repo
      ensures repo == null ==> d == Decide(minuteLimit, hourLimit, failOpen, NoRepository)
      ensures repo != null ==>
        var step := AllowStep(old(repo.counts), ip, now, minuteLimit, hourLimit, failOpen, repoError);
        repo.counts == step.0 && d == step.1
    {
      if minuteLimit <= 0 || hourLimit <= 0 {
        return Decision(false, INVALID_CONFIG_MESSAGE, true);
      }
      if repo == null {
        if !failOpen {
          return Decision(false, "", true);
        }
        return Decision(true, "", false);
      }
      if repoError {
        if failOpen {
          return Decision(true, "", false);
        }
        return Decision(false, "", true);
      }
      var minuteCount := repo.Incr(MinuteKey(LIMITER_PREFIX, ip, now));
      var hourCount := repo.Incr(HourKey(LIMITER_PREFIX, ip, now));
      MinuteAndHourKeysDiffer(LIMITER_PREFIX, ip, now);
      if minuteCount > minuteLimit {
        return Decision(false, MINUTE_EXCEEDED_MESSAGE, false);
      }
      if hourCount > hourLimit {
        return Decision(false, HOUR_EXCEEDED_MESSAGE, false);
      }
      d := Decision(true, "", false);
    }
  }

  // ---------------------------------------------------------------------
  // Failed-authentication limiter (middleware)
  // ---------------------------------------------------------------------

  const AUTH_MINUTE_MESSAGE := "Too many failed attempts. Please try again later."
  const AUTH_HOUR_MESSAGE := "Too many failed attempts. Please try again in an hour."
  const STATUS_TOO_MANY_REQUESTS := 429

  /**
   * `checkAuthLimit` over a snapshot of the counters (`None` when there is no
   * client). A count reaching its limit blocks; errors allow.
   */
  function CheckAuthLimit(counts: Option<map<string, int>>, redisError: bool, ip: string, now: int,
                          minuteLimit: int, hourLimit: int): (r: (bool, string))
    ensures counts.None? || redisError ==> r == (true, "")
    ensures counts.Some? && !redisError ==>
              (r.0 <==> CountOf(counts.value, MinuteKey(AUTH_PREFIX, ip, now)) < minuteLimit
                        && CountOf(counts.value, HourKey(AUTH_PREFIX, ip, now)) < hourLimit)
    ensures r.0 <==> r.1 == ""
  {
    match counts
    case None => (true, "")
    case Some(c) =>
      if redisError then (true, "")
      else if CountOf(c, MinuteKey(AUTH_PREFIX, ip, now)) >= minuteLimit then (false, AUTH_MINUTE_MESSAGE)
      else if CountOf(c, HourKey(AUTH_PREFIX, ip, now)) >= hourLimit then (false, AUTH_HOUR_MESSAGE)
      else (true, "")
  }

  /** A failure is counted when the response status is a client or server error. */
  predicate CountsAsFailure(status: int) {
    400 <= status < 600
  }

  /**
   * With limit L and fresh counters, L failures are let through and the next
   * request is blocked: the check uses "reached", not "exceeded".
   */
  lemma AuthBlocksAtLimit(counts: map<string, int>, ip: string, now: int, limit: int, hourLimit: int)
    requires 0 < limit < hourLimit
    requires MinuteKey(AUTH_PREFIX, ip, now) !in counts && HourKey(AUTH_PREFIX, ip, now) !in counts
    ensures var afterL := AuthFailures(counts, ip, now, limit);
            !CheckAuthLimit(Some(afterL), false, ip, now, limit, hourLimit).0
    ensures var afterBefore := AuthFailures(counts, ip, now, limit - 1);
            CheckAuthLimit(Some(afterBefore), false, ip, now, limit, hourLimit).0
  {
    AuthFailuresCounts(counts, ip, now, limit);
    AuthFailuresCounts(counts, ip, now, limit - 1);
  }

  /** The counters after `n` failed attempts from one address at one instant. */
  function AuthFailures(counts: map<string, int>, ip: string, now: int, n: nat): map<string, int>
    decreases n
  {
    if n == 0 then counts
    else AuthFailures(Bump(Bump(counts, MinuteKey(AUTH_PREFIX, ip, now)), HourKey(AUTH_PREFIX, ip, now)), ip, now, n - 1)
  }

  lemma {:induction false} AuthFailuresCounts(counts: map<string, int>, ip: string, now: int, n: nat)
    decreases n
    ensures CountOf(AuthFailures(counts, ip, now, n), MinuteKey(AUTH_PREFIX, ip, now)) ==
              CountOf(counts, MinuteKey(AUTH_PREFIX, ip, now)) + n
    ensures CountOf(AuthFailures(counts, ip, now, n), HourKey(AUTH_PREFIX, ip, now)) ==
              CountOf(counts, HourKey(AUTH_PREFIX, ip, now)) + n
  {
    if n > 0 {
      MinuteAndHourKeysDiffer(AUTH_PREFIX, ip, now);
      AuthFailuresCounts(Bump(Bump(counts, MinuteKey(AUTH_PREFIX, ip, now)), HourKey(AUTH_PREFIX, ip, now)), ip, now, n - 1);
    }
  }

  /** What the middleware did with one request. */
  datatype AuthOutcome = Blocked(status: int, message: string) | Handled(status: int)

  /** `AuthRateLimiter`: the middleware with its (possibly missing) Redis client. */
  class AuthRateLimiter {
    const client: CounterStore?
    const minuteLimit: int
    const hourLimit: int

    constructor (client: CounterStore?, minuteLimit: int, hourLimit: int)
      ensures this.client == client && this.minuteLimit == minuteLimit && this.hourLimit == hourLimit
    {
      this.client := client;
      this.minuteLimit := minuteLimit;
      this.hourLimit := hourLimit;
    }

    /** `incrementAuthFailedAttempt`: both counters of the address go up by one. */
    method IncrementAuthFailedAttempt(ip: string, now: int)
      modifies client
      ensures client != null ==> client.counts == AuthFailures(old(client.counts), ip, now, 1)
    {
      if client == null {
        return;
      }
      var _ := client.Incr(MinuteKey(AUTH_PREFIX, ip, now));
      var _ := client.Incr(HourKey(AUTH_PREFIX, ip, now));
    }

    /**
     * One request: a blocked address gets 429 and the handler does not run;
     * otherwise the handler answers `handlerStatus`, and an error status is
     * counted as a failed attempt.
     */
    method Handle(ip: string, now: int, redisError: bool, handlerStatus: int) returns (outcome: AuthOutcome)
      modifies client
      ensures var check := CheckAuthLimit(if client == null then None else Some(old(client.counts)),
                                          redisError, ip, now, minuteLimit, hourLimit);
              if !check.0 then
                outcome == Blocked(STATUS_TOO_MANY_REQUESTS, check.1)
                && (client != null ==> client.counts == old(client.counts))
              else
                outcome == Handled(handlerStatus)
                && (client != null ==>
                      client.counts == (if CountsAsFailure(handlerStatus) then AuthFailures(old(client.counts), ip, now, 1)
                                        else old(client.counts)))
    {
      var check := CheckAuthLimit(if client == null then None else Some(client.counts),
                                  redisError, ip, now, minuteLimit, hourLimit);
      if !check.0 {
        return Blocked(STATUS_TOO_MANY_REQUESTS, check.1);
      }
      if CountsAsFailure(handlerStatus) {
        IncrementAuthFailedAttempt(ip, now);
      }
      outcome := Handled(handlerStatus);
    }
  }
}
