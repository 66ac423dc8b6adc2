/**
 * The fixed-window limiter.  CheckLimit is proved against the step function Decide;
 * the bounds on accepted calls are proved about whole runs of Decide.
 */
module RateLimiter {
  import opened Common

  const MAX_SAFE_INTEGER := 0x1F_FFFF_FFFF_FFFF

  /** A caller's key: user ids are numbers or strings. */
  datatype UserId = Numeric(id: int) | Named(name: string)

  /** A numeric argument; every value that is not an integer (fractions, NaN, infinities) is Other. */
  datatype Number = Integral(value: int) | Other

  datatype Window = Window(count: int, resetTime: int)

  type Limits = map<UserId, Window>

  predicate ValidBound(n: Number) {
    n.Integral? && 0 < n.value <= MAX_SAFE_INTEGER
  }

  /** The bounds that CheckLimit accepts: positive integers below 2^53. */
  lemma ValidBoundsAreSafe(n: Number)
    ensures ValidBound(n) <==> n.Integral? && 1 <= n.value && n.value <= 9_007_199_254_740_991
  {
  }

  /** One call at time now: whether it is accepted, and the table it leaves behind. */
  function Decide(limits: Limits, user: UserId, maxRequests: int, windowMs: int, now: int): (r: (bool, Limits)) {
    if user !in limits || now >= limits[user].resetTime then
      (true, limits[user := Window(1, now + windowMs)])
    else if limits[user].count >= maxRequests then
      (false, limits)
    else
      (true, limits[user := limits[user].(count := limits[user].count + 1)])
  }

  class Limiter {
    var limits: Limits

    constructor ()
      ensures limits == map[]
    {
      limits := map[];
    }

    method CheckLimit(user: UserId, maxRequests: Number, windowMs: Number, now: int) returns (r: Result<bool>)
      modifies this
      ensures !ValidBound(maxRequests) ==> r == Err("RATE_LIMIT_MAX_REQUESTS_INVALID") && limits == old(limits)
      ensures ValidBound(maxRequests) && !ValidBound(windowMs) ==>
                r == Err("RATE_LIMIT_WINDOW_INVALID") && limits == old(limits)
      ensures ValidBound(maxRequests) && ValidBound(windowMs) ==>
                r.Ok? && (r.value, limits) == Decide(old(limits), user, maxRequests.value, windowMs.value, now)
    {
      if maxRequests.Other? || !(0 < maxRequests.value <= MAX_SAFE_INTEGER) {
        return Err("RATE_LIMIT_MAX_REQUESTS_INVALID");
      }
      if windowMs.Other? || !(0 < windowMs.value <= MAX_SAFE_INTEGER) {
        return Err("RATE_LIMIT_WINDOW_INVALID");
      }
      if user !in limits || now >= limits[user].resetTime {
        limits := limits[user := Window(1, now + windowMs.value)];
        return Ok(true);
      }
      if limits[user].count >= maxRequests.value {
        return Ok(false);
      }
      var window := limits[user];
      limits := limits[user := Window(window.count + 1, window.resetTime)];
      return Ok(true);
    }

    method Reset(user: Option<UserId>)
      modifies this
      ensures user.None? ==> limits == map[]
      ensures user.Some? ==> limits == old(limits) - {user.value}
    {
      if user.None? {
        limits := map[];
      } else {
        limits := limits - {user.value};
      }
    }
  }

  // ----- Runs with a fixed limit and window

  datatype Call = Call(user: UserId, now: int)

  function RunLimits(calls: seq<Call>, max: int, window: int): Limits {
    if calls == [] then map[]
    else
      var last := calls[|calls| - 1];
      Decide(RunLimits(calls[..|calls| - 1], max, window), last.user, max, window, last.now).1
  }

  /** Whether call i of the run was accepted. */
  predicate Accepted(calls: seq<Call>, max: int, window: int, i: nat)
    requires i < |calls|
  {
    Decide(RunLimits(calls[..i], max, window), calls[i].user, max, window, calls[i].now).0
  }

  /** Whether call i of the run opened a new window for its user. */
  predicate OpensWindow(calls: seq<Call>, max: int, window: int, i: nat)
    requires i < |calls|
  {
    var limits := RunLimits(calls[..i], max, window);
    calls[i].user !in limits || calls[i].now >= limits[calls[i].user].resetTime
  }

  /** Number of accepted calls of user with from <= time < to. */
  function CountAccepted(calls: seq<Call>, max: int, window: int, user: UserId, from: int, to: int): nat {
    if calls == [] then 0
    else
      var n := |calls| - 1;
      CountAccepted(calls[..n], max, window, user, from, to) +
      if calls[n].user == user && from <= calls[n].now < to && Accepted(calls, max, window, n) then 1 else 0
  }

  ghost predicate Chronological(calls: seq<Call>) {
    forall i, j :: 0 <= i < j < |calls| ==> calls[i].now <= calls[j].now
  }

  /** The user's current window began at start and has accepted count calls. */
  ghost predicate CurrentWindow(calls: seq<Call>, max: int, window: int, user: UserId, start: int, count: int) {
    && (calls != [] && start <= calls[|calls| - 1].now)
    && 1 <= count <= max
    && (forall to :: calls[|calls| - 1].now < to ==> CountAccepted(calls, max, window, user, start, to) == count)
    // nothing is accepted at or after the reset time without opening a new window
    && (forall from, to :: start + window <= from ==> CountAccepted(calls, max, window, user, from, to) == 0)
    // the call that opened the window happened at its start
    && (forall to :: start < to ==> CountAccepted(calls, max, window, user, start, to) >= 1)
    // an interval of one window length that ends at start misses the previous opening call
    && (forall from :: start - window < from <= start ==>
                         CountAccepted(calls, max, window, user, from, start) <= max - 1)
  }

  /** What the run has left in the table for one user, and what that says about the run. */
  ghost predicate WindowInvariant(calls: seq<Call>, max: int, window: int, user: UserId) {
    var limits := RunLimits(calls, max, window);
    if user in limits then
      CurrentWindow(calls, max, window, user, limits[user].resetTime - window, limits[user].count)
    else
      forall from, to :: CountAccepted(calls, max, window, user, from, to) == 0
  }

  lemma {:induction false} CountSplits(calls: seq<Call>, max: int, window: int, user: UserId, from: int, mid: int,
                                       to: int)
    requires from <= mid <= to
    ensures CountAccepted(calls, max, window, user, from, to)
         == CountAccepted(calls, max, window, user, from, mid) + CountAccepted(calls, max, window, user, mid, to)
  {
    if calls != [] {
      CountSplits(calls[..|calls| - 1], max, window, user, from, mid, to);
    }
  }

  lemma {:induction false} CountMonotone(calls: seq<Call>, max: int, window: int, user: UserId,
                                         from: int, from': int, to': int, to: int)
    requires from <= from' && to' <= to
    ensures CountAccepted(calls, max, window, user, from', to') <= CountAccepted(calls, max, window, user, from, to)
  {
    if calls != [] {
      CountMonotone(calls[..|calls| - 1], max, window, user, from, from', to', to);
    }
  }

  lemma CountSnoc(calls: seq<Call>, c: Call, max: int, window: int, user: UserId, from: int, to: int)
    ensures CountAccepted(calls + [c], max, window, user, from, to)
         == CountAccepted(calls, max, window, user, from, to)
            + if c.user == user && from <= c.now < to &&
                Decide(RunLimits(calls, max, window), user, max, window, c.now).0
              then 1 else 0
  {
    assert (calls + [c])[..|calls|] == calls;
  }

  /** The part of the interval before a new window that follows the previous window's opening call. */
  lemma GapBeforeNewWindow(calls: seq<Call>, max: int, window: int, user: UserId, now: int, from: int)
    requires WindowInvariant(calls, max, window, user) && user in RunLimits(calls, max, window)
    requires RunLimits(calls, max, window)[user].resetTime <= now && now - window < from <= now
    requires calls[|calls| - 1].now <= now
    ensures CountAccepted(calls, max, window, user, from, now) <= max - 1
  {
    var start := RunLimits(calls, max, window)[user].resetTime - window;
    CountSplits(calls, max, window, user, start, from, now + 1);
    CountSplits(calls, max, window, user, from, now, now + 1);
    assert CountAccepted(calls, max, window, user, start, from) >= 1;
  }

  /** A call that does not open a window for the user, in terms of the user's open window. */
  lemma WindowContinues(calls: seq<Call>, c: Call, max: int, window: int, user: UserId, start: int, count: int)
    requires 0 < max && 0 < window && CurrentWindow(calls, max, window, user, start, count)
    requires calls[|calls| - 1].now <= c.now
    requires var limits := RunLimits(calls, max, window);
             user in limits && limits[user] == Window(count, start + window)
    requires c.user == user ==> c.now < start + window
    ensures CurrentWindow(calls + [c], max, window, user, start,
                          if c.user == user && count < max then count + 1 else count)
  {
    forall from, to {
      CountSnoc(calls, c, max, window, user, from, to);
    }
  }

  lemma WindowOpens(calls: seq<Call>, c: Call, max: int, window: int)
    requires 0 < max && 0 < window && WindowInvariant(calls, max, window, c.user)
    requires calls != [] ==> calls[|calls| - 1].now <= c.now
    requires var limits := RunLimits(calls, max, window); c.user in limits ==> limits[c.user].resetTime <= c.now
    ensures CurrentWindow(calls + [c], max, window, c.user, c.now, 1)
  {
    forall from, to {
      CountSnoc(calls, c, max, window, c.user, from, to);
    }
    if c.user in RunLimits(calls, max, window) {
      forall from | c.now - window < from <= c.now {
        GapBeforeNewWindow(calls, max, window, c.user, c.now, from);
      }
    }
  }

  lemma InvariantStep(calls: seq<Call>, c: Call, max: int, window: int, user: UserId)
    requires 0 < max && 0 < window && Chronological(calls + [c])
    requires WindowInvariant(calls, max, window, user)
    ensures WindowInvariant(calls + [c], max, window, user)
  {
    var n := |calls|;
    assert n > 0 ==> (calls + [c])[n - 1] == calls[n - 1] && calls[n - 1].now <= (calls + [c])[n].now;
    var limits := RunLimits(calls, max, window);
    RunSnoc(calls, c, max, window);
    if c.user == user && (user !in limits || limits[user].resetTime <= c.now) {
      WindowOpens(calls, c, max, window);
    } else if user in limits {
      WindowContinues(calls, c, max, window, user, limits[user].resetTime - window, limits[user].count);
    } else {
      forall from, to {
        CountSnoc(calls, c, max, window, user, from, to);
      }
    }
  }

  lemma {:induction false} InvariantHolds(calls: seq<Call>, max: int, window: int, user: UserId)
    requires 0 < max && 0 < window && Chronological(calls)
    ensures WindowInvariant(calls, max, window, user)
  {
    if calls != [] {
      var n := |calls| - 1;
      InvariantHolds(calls[..n], max, window, user);
      assert calls[..n] + [calls[n]] == calls;
      InvariantStep(calls[..n], calls[n], max, window, user);
    }
  }

  /**
   * In every run with a non-decreasing clock, a half-open interval of one window length holds fewer than
   * 2 * max accepted calls of a user.  (The interval can meet two windows, but never the opening call of the first.)
   */
  lemma {:induction false} SlidingIntervalBound(calls: seq<Call>, max: int, window: int, user: UserId, from: int)
    requires 0 < max && 0 < window && Chronological(calls)
    ensures CountAccepted(calls, max, window, user, from, from + window) <= 2 * max - 1
  {
    InvariantHolds(calls, max, window, user);
    var limits := RunLimits(calls, max, window);
    if user in limits {
      var start := limits[user].resetTime - window;
      if from <= start - window {
        SlidingIntervalBound(calls[..|calls| - 1], max, window, user, from);
      } else {
        RecentIntervalBound(calls, max, window, user, start, limits[user].count, from);
      }
    }
  }

  lemma RecentIntervalBound(calls: seq<Call>, max: int, window: int, user: UserId, start: int, count: int, from: int)
    requires 0 < max && 0 < window && CurrentWindow(calls, max, window, user, start, count)
    requires start - window < from
    ensures CountAccepted(calls, max, window, user, from, from + window) <= 2 * max - 1
    ensures from >= start ==> CountAccepted(calls, max, window, user, from, from + window) <= max
  {
    var horizon := Max(from + window, calls[|calls| - 1].now + 1);
    assert CountAccepted(calls, max, window, user, start, horizon) == count;
    if from <= start {
      CountSplits(calls, max, window, user, from, start, from + window);
      CountMonotone(calls, max, window, user, start, start, from + window, horizon);
    } else {
      CountMonotone(calls, max, window, user, start, from, from + window, horizon);
    }
  }

  /** Once a window is open, the table moves on to a later window only after it has run its full length. */
  lemma {:induction false} WindowsDoNotOverlap(calls: seq<Call>, max: int, window: int, i: nat)
    requires i < |calls| && 0 < window && Chronological(calls) && OpensWindow(calls, max, window, i)
    ensures var limits := RunLimits(calls, max, window);
            calls[i].user in limits &&
            (limits[calls[i].user].resetTime == calls[i].now + window ||
             limits[calls[i].user].resetTime >= calls[i].now + 2 * window)
  {
    var n := |calls| - 1;
    if i < n {
      assert calls[..n][..i] == calls[..i];
      WindowsDoNotOverlap(calls[..n], max, window, i);
    }
  }

  /** A window that call i opened accepts at most max calls over its whole length. */
  lemma {:induction false} WindowBound(calls: seq<Call>, max: int, window: int, i: nat)
    requires 0 < max && 0 < window && i < |calls| && Chronological(calls) && OpensWindow(calls, max, window, i)
    ensures CountAccepted(calls, max, window, calls[i].user, calls[i].now, calls[i].now + window) <= max
  {
    var n := |calls| - 1;
    var user, start := calls[i].user, calls[i].now;
    InvariantHolds(calls, max, window, user);
    WindowsDoNotOverlap(calls, max, window, i);
    var current := RunLimits(calls, max, window)[user];
    if current.resetTime == start + window {
      RecentIntervalBound(calls, max, window, user, start, current.count, start);
    } else if i < n {
      assert calls[..n][..i] == calls[..i];
      WindowBound(calls[..n], max, window, i);
    }
  }

  // ----- The bound 2 * max - 1 is reached for every limit and every window of two or more milliseconds

  function Burst(user: UserId, now: int, k: nat): seq<Call> {
    seq(k, i => Call(user, now))
  }

  /** k further calls inside an open window that has room for them are all accepted. */
  lemma {:induction false} BurstAccepted(calls: seq<Call>, max: int, window: int, user: UserId, now: int, k: nat,
                                         from: int, to: int)
    requires var limits := RunLimits(calls, max, window);
             user in limits && now < limits[user].resetTime && limits[user].count + k <= max
    ensures var limits, limits' := RunLimits(calls, max, window), RunLimits(calls + Burst(user, now, k), max, window);
            user in limits' && limits'[user] == Window(limits[user].count + k, limits[user].resetTime)
    ensures CountAccepted(calls + Burst(user, now, k), max, window, user, from, to)
         == CountAccepted(calls, max, window, user, from, to) + if from <= now < to then k else 0
  {
    if k == 0 {
      assert calls + Burst(user, now, k) == calls;
    } else {
      BurstAccepted(calls, max, window, user, now, k - 1, from, to);
      var shorter := calls + Burst(user, now, k - 1);
      assert calls + Burst(user, now, k) == shorter + [Call(user, now)];
      RunSnoc(shorter, Call(user, now), max, window);
      CountSnoc(shorter, Call(user, now), max, window, user, from, to);
    }
  }

  lemma RunSnoc(calls: seq<Call>, c: Call, max: int, window: int)
    ensures RunLimits(calls + [c], max, window) == Decide(RunLimits(calls, max, window), c.user, max, window, c.now).1
  {
    assert (calls + [c])[..|calls|] == calls;
  }

  /** One call opens a window, and the rest of its allowance comes at its last millisecond. */
  function FirstAllowance(user: UserId, max: int, window: int): seq<Call>
    requires 0 < max
  {
    [Call(user, 0)] + Burst(user, window - 1, max - 1)
  }

  /** The next allowance follows at once when the window ends. */
  function WorstCase(user: UserId, max: int, window: int): seq<Call>
    requires 0 < max
  {
    FirstAllowance(user, max, window) + [Call(user, window)] + Burst(user, window, max - 1)
  }

  /** A call that opens a window, followed by the rest of the window's allowance. */
  lemma AllowanceAccepted(calls: seq<Call>, max: int, window: int, user: UserId, open: int, rest: int, from: int,
                          to: int)
    requires 0 < max && open <= rest < open + window
    requires var limits := RunLimits(calls, max, window); user in limits ==> limits[user].resetTime <= open
    ensures var limits := RunLimits(calls + [Call(user, open)] + Burst(user, rest, max - 1), max, window);
            user in limits && limits[user] == Window(max, open + window)
    ensures CountAccepted(calls + [Call(user, open)] + Burst(user, rest, max - 1), max, window, user, from, to)
         == CountAccepted(calls, max, window, user, from, to)
            + (if from <= open < to then 1 else 0) + (if from <= rest < to then max - 1 else 0)
  {
    RunSnoc(calls, Call(user, open), max, window);
    CountSnoc(calls, Call(user, open), max, window, user, from, to);
    BurstAccepted(calls + [Call(user, open)], max, window, user, rest, max - 1, from, to);
  }

  lemma WorstCaseIsChronological(user: UserId, max: int, window: int)
    requires 0 < max && 2 <= window
    ensures Chronological(WorstCase(user, max, window))
  {
  }

  lemma BoundIsReached(user: UserId, max: int, window: int)
    requires 0 < max && 2 <= window
    ensures Chronological(WorstCase(user, max, window))
    ensures CountAccepted(WorstCase(user, max, window), max, window, user, window - 1, 2 * window - 1) == 2 * max - 1
  {
    var from, to := window - 1, 2 * window - 1;
    WorstCaseIsChronological(user, max, window);
    AllowanceAccepted([], max, window, user, 0, window - 1, from, to);
    assert [] + [Call(user, 0)] == [Call(user, 0)];
    AllowanceAccepted(FirstAllowance(user, max, window), max, window, user, window, window, from, to);
  }
}
