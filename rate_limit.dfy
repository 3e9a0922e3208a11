/**
 * The login rate limiter (backend/main.py:133-158): a per-IP fixed-window
 * counter admitting 5 requests per 60-second window. Time is whole seconds.
 */
module RateLimit {

  const RateLimitMinutes: int := 1
  const MaxRequestsPerMinute: int := 5
  /** The window length in seconds, `60 * RATE_LIMIT_MINUTES`. */
  const WindowSeconds: int := 60 * RateLimitMinutes

  /** One value of `ip_request_counts`: `{"count": ..., "reset_time": ...}`. */
  datatype Entry = Entry(count: int, resetTime: int)

  /** The outcome of `rate_limit`: pass, or HTTP 429 "Rate limit exceeded. Try again in {waitSeconds} seconds". */
  datatype Admission = Admitted | Rejected(waitSeconds: int)

  /** The state of the map after one request, and what was decided. */
  datatype StepResult = StepResult(admission: Admission, counts: map<string, Entry>)

  /**
   * The entry for `ip` after the `defaultdict` has created it lazily and an
   * expired window has been restarted (main.py:146-147).
   */
  function WindowAt(counts: map<string, Entry>, ip: string, now: int): (e: Entry)
    ensures e.resetTime <= now || (ip in counts && e == counts[ip])
    ensures ip !in counts ==> e == Entry(0, now)
    ensures ip in counts && now - counts[ip].resetTime >= WindowSeconds ==> e == Entry(0, now)
    ensures ip in counts && now - counts[ip].resetTime < WindowSeconds ==> e == counts[ip]
  {
    var e := if ip in counts then counts[ip] else Entry(0, now);
    if now - e.resetTime >= WindowSeconds then Entry(0, now) else e
  }

  /** One call of `rate_limit` from `ip` at time `now`. */
  function Step(counts: map<string, Entry>, ip: string, now: int): (r: StepResult)
    ensures r.counts.Keys == counts.Keys + {ip}
    ensures forall other :: other in counts && other != ip ==> r.counts[other] == counts[other]
  {
    var e := WindowAt(counts, ip, now);
    if e.count >= MaxRequestsPerMinute then
      StepResult(Rejected(e.resetTime + WindowSeconds - now), counts[ip := e])
    else
      StepResult(Admitted, counts[ip := e.(count := e.count + 1)])
  }

  /** Every count lies between 0 and the limit. */
  ghost predicate CountsBounded(counts: map<string, Entry>) {
    forall ip :: ip in counts ==> 0 <= counts[ip].count <= MaxRequestsPerMinute
  }

  /** No window starts after time `t`. */
  ghost predicate WindowsStartBy(counts: map<string, Entry>, t: int) {
    forall ip :: ip in counts ==> counts[ip].resetTime <= t
  }

  /**
   * A request is rejected exactly when `ip` has a window younger than 60 s
   * whose count already reached 5; a rejection changes nothing and reports
   * the seconds left in that window.
   */
  lemma StepRejection(counts: map<string, Entry>, ip: string, now: int)
    ensures Step(counts, ip, now).admission.Rejected? <==>
      ip in counts && now - counts[ip].resetTime < WindowSeconds && counts[ip].count >= MaxRequestsPerMinute
    ensures Step(counts, ip, now).admission.Rejected? ==>
      && Step(counts, ip, now).counts == counts
      && Step(counts, ip, now).admission.waitSeconds == counts[ip].resetTime + WindowSeconds - now
      && 0 < Step(counts, ip, now).admission.waitSeconds
      && (counts[ip].resetTime <= now ==> Step(counts, ip, now).admission.waitSeconds <= WindowSeconds)
  {
    var e := WindowAt(counts, ip, now);
    if e.count >= MaxRequestsPerMinute {
      assert counts[ip := e] == counts;
    }
  }

  /**
   * An admitted request adds exactly 1 to the count of the requesting IP's
   * current window (0 for an unseen IP or an expired window) and leaves every
   * other IP's entry as it was.
   */
  lemma StepAdmission(counts: map<string, Entry>, ip: string, now: int)
    ensures var s := Step(counts, ip, now);
      s.admission.Admitted? ==>
        && s.counts.Keys == counts.Keys + {ip}
        && s.counts[ip] == Entry(WindowAt(counts, ip, now).count + 1, WindowAt(counts, ip, now).resetTime)
        && (ip !in counts || now - counts[ip].resetTime >= WindowSeconds ==> s.counts[ip] == Entry(1, now))
    ensures forall other :: other != ip && other in counts ==>
      other in Step(counts, ip, now).counts && Step(counts, ip, now).counts[other] == counts[other]
  {
  }

  /** Counts never exceed the limit, and windows never start in the future when time does not go back. */
  lemma StepPreservesInvariants(counts: map<string, Entry>, ip: string, now: int)
    requires CountsBounded(counts)
    ensures CountsBounded(Step(counts, ip, now).counts)
    ensures WindowsStartBy(counts, now) ==> WindowsStartBy(Step(counts, ip, now).counts, now)
  {
  }

  /** The outcomes of successive requests from `ip` at the given times. */
  function Run(counts: map<string, Entry>, ip: string, times: seq<int>): (r: seq<Admission>)
    ensures |r| == |times|
    decreases |times|
  {
    if times == [] then []
    else
      var s := Step(counts, ip, times[0]);
      [s.admission] + Run(s.counts, ip, times[1..])
  }

  /**
   * Within one window that began at `start` with `used` requests counted,
   * the next `5 - used` requests are admitted and every later one is
   * rejected with the time left until `start + 60`.
   */
  lemma {:induction false} RunWithinWindow(counts: map<string, Entry>, ip: string, start: int, used: int, times: seq<int>)
    requires ip in counts && counts[ip] == Entry(used, start)
    requires 0 <= used <= MaxRequestsPerMinute
    requires forall i :: 0 <= i < |times| ==> start <= times[i] < start + WindowSeconds
    ensures forall i :: 0 <= i < |times| ==>
      Run(counts, ip, times)[i] == if used + i < MaxRequestsPerMinute then Admitted else Rejected(start + WindowSeconds - times[i])
    decreases |times|
  {
    if times != [] {
      var s := Step(counts, ip, times[0]);
      var next := if used < MaxRequestsPerMinute then used + 1 else used;
      assert s.counts[ip] == Entry(next, start);
      RunWithinWindow(s.counts, ip, start, next, times[1..]);
      forall i | 0 <= i < |times|
        ensures Run(counts, ip, times)[i] == if used + i < MaxRequestsPerMinute then Admitted else Rejected(start + WindowSeconds - times[i])
      {
        if i > 0 {
          assert times[1..][i - 1] == times[i];
          assert Run(counts, ip, times)[i] == Run(s.counts, ip, times[1..])[i - 1];
        }
      }
    }
  }

  /**
   * A burst from an IP with no live window: the first 5 requests inside 60 s
   * pass and the 6th and later ones get 429; once the window has elapsed the
   * IP is admitted again.
   */
  lemma {:induction false} FixedWindowBurst(counts: map<string, Entry>, ip: string, times: seq<int>, later: int)
    requires |times| > 0
    requires ip !in counts || times[0] - counts[ip].resetTime >= WindowSeconds
    requires forall i :: 0 <= i < |times| ==> times[0] <= times[i] < times[0] + WindowSeconds
    requires later >= times[0] + WindowSeconds
    ensures forall i :: 0 <= i < |times| ==> (Run(counts, ip, times)[i].Admitted? <==> i < MaxRequestsPerMinute)
    ensures Run(counts, ip, times + [later])[|times|] == Admitted
  {
    var s := Step(counts, ip, times[0]);
    assert s.counts[ip] == Entry(1, times[0]);
    RunWithinWindow(s.counts, ip, times[0], 1, times[1..]);
    forall i | 0 <= i < |times|
      ensures Run(counts, ip, times)[i].Admitted? <==> i < MaxRequestsPerMinute
    {
      if i > 0 {
        assert times[1..][i - 1] == times[i];
        assert Run(counts, ip, times)[i] == Run(s.counts, ip, times[1..])[i - 1];
      }
    }
    RunLastWindow(counts, ip, times, later);
  }

  /** The request after a run of requests, all made before `later - 60`, is admitted at `later`. */
  lemma {:induction false} RunLastWindow(counts: map<string, Entry>, ip: string, times: seq<int>, later: int)
    requires |times| > 0
    requires ip !in counts || times[0] - counts[ip].resetTime >= WindowSeconds
    requires forall i :: 0 <= i < |times| ==> times[0] <= times[i] < times[0] + WindowSeconds
    requires later >= times[0] + WindowSeconds
    ensures Run(counts, ip, times + [later])[|times|] == Admitted
  {
    RunStateWindow(counts, ip, times, times[0]);
    RunAppend(counts, ip, times, later);
  }

  /** The map after successive requests. */
  function RunState(counts: map<string, Entry>, ip: string, times: seq<int>): map<string, Entry>
    decreases |times|
  {
    if times == [] then counts else RunState(Step(counts, ip, times[0]).counts, ip, times[1..])
  }

  /** The outcome of one more request is the outcome of a single step on the state the run left. */
  lemma {:induction false} RunAppend(counts: map<string, Entry>, ip: string, times: seq<int>, t: int)
    ensures Run(counts, ip, times + [t])[|times|] == Step(RunState(counts, ip, times), ip, t).admission
    decreases |times|
  {
    if times != [] {
      var s := Step(counts, ip, times[0]);
      assert (times + [t])[1..] == times[1..] + [t];
      RunAppend(s.counts, ip, times[1..], t);
    }
  }

  /** After a run in which the first request opened a window at `start`, the IP's window still starts at `start`. */
  lemma {:induction false} RunStateWindow(counts: map<string, Entry>, ip: string, times: seq<int>, start: int)
    requires |times| > 0 && times[0] == start
    requires ip !in counts || start - counts[ip].resetTime >= WindowSeconds
    requires forall i :: 0 <= i < |times| ==> start <= times[i] < start + WindowSeconds
    ensures ip in RunState(counts, ip, times) && RunState(counts, ip, times)[ip].resetTime == start
  {
    var s := Step(counts, ip, start);
    KeepsWindow(s.counts, ip, times[1..], start);
  }

  /** Requests inside a live window keep its start time. */
  lemma {:induction false} KeepsWindow(counts: map<string, Entry>, ip: string, times: seq<int>, start: int)
    requires ip in counts && counts[ip].resetTime == start
    requires forall i :: 0 <= i < |times| ==> start <= times[i] < start + WindowSeconds
    ensures ip in RunState(counts, ip, times) && RunState(counts, ip, times)[ip].resetTime == start
    decreases |times|
  {
    if times != [] {
      KeepsWindow(Step(counts, ip, times[0]).counts, ip, times[1..], start);
    }
  }

  /** The process-wide `ip_request_counts` dictionary and the `rate_limit` dependency. */
  class RateLimiter {
    var ipRequestCounts: map<string, Entry>

    ghost predicate Valid()
      reads this
    {
      CountsBounded(ipRequestCounts)
    }

    /** The empty dictionary the process starts with. */
    constructor ()
      ensures Valid() && ipRequestCounts == map[]
    {
      ipRequestCounts := map[];
    }

    /** `rate_limit` for a request from `clientIp` arriving at `now`. */
    method RateLimit(clientIp: string, now: int) returns (r: Admission)
      requires Valid()
      modifies this
      ensures Valid()
      ensures StepResult(r, ipRequestCounts) == Step(old(ipRequestCounts), clientIp, now)
      ensures r.Rejected? ==> ipRequestCounts == old(ipRequestCounts) && r.waitSeconds > 0
      ensures old(WindowsStartBy(ipRequestCounts, now)) ==> WindowsStartBy(ipRequestCounts, now)
    {
      StepPreservesInvariants(ipRequestCounts, clientIp, now);
      StepRejection(ipRequestCounts, clientIp, now);
      ghost var before := ipRequestCounts;
      if clientIp !in ipRequestCounts {
        ipRequestCounts := ipRequestCounts[clientIp := Entry(0, now)];
      }
      if now - ipRequestCounts[clientIp].resetTime >= WindowSeconds {
        ipRequestCounts := ipRequestCounts[clientIp := Entry(0, now)];
      }
      var entry := ipRequestCounts[clientIp];
      assert entry == WindowAt(before, clientIp, now);
      if entry.count >= MaxRequestsPerMinute {
        var resetTime := entry.resetTime + WindowSeconds;
        return Rejected(resetTime - now);
      }
      ipRequestCounts := ipRequestCounts[clientIp := entry.(count := entry.count + 1)];
      r := Admitted;
    }
  }
}
