/** The fixed-window rate limiter: an atomic script over counters that expire on their own. */
module RateLimit {
  import opened Collections

  type Time = int   // milliseconds

  /** A Redis key holding a counter; without a deadline it would never expire. */
  datatype Counter = Counter(count: int, deadline: Option<Time>)

  type Counters = map<string, Counter>

  /** A key is visible through its deadline. */
  predicate Alive(counters: Counters, key: string, now: Time) {
    key in counters && (counters[key].deadline.Some? ==> now <= counters[key].deadline.value)
  }

  /** INCR: a missing key counts from zero and has no deadline. */
  function Incr(counters: Counters, key: string, now: Time): Counters {
    if Alive(counters, key, now) then counters[key := counters[key].(count := counters[key].count + 1)]
    else counters[key := Counter(1, None)]
  }

  /** PEXPIRE: a lifetime that is not positive deletes the key. */
  function Expire(counters: Counters, key: string, window: int, now: Time): Counters
    requires key in counters
  {
    if window <= 0 then counters - {key} else counters[key := counters[key].(deadline := Some(now + window))]
  }

  /** The value INCR returns. */
  function Count(counters: Counters, key: string, now: Time): int {
    Incr(counters, key, now)[key].count
  }

  /** What one execution of the script leaves in Redis. */
  function Hit(counters: Counters, key: string, window: int, now: Time): Counters {
    var incremented := Incr(counters, key, now);
    if incremented[key].count == 1 then Expire(incremented, key, window, now) else incremented
  }

  /** Every stored counter counts something and has a deadline: no key can block forever. */
  ghost predicate Bounded(counters: Counters) {
    forall key :: key in counters ==> counters[key].count >= 1 && counters[key].deadline.Some?
  }

  predicate Allowed(counters: Counters, key: string, limit: int, now: Time) {
    Count(counters, key, now) <= limit
  }

  function Remaining(limit: int, current: int): int {
    if limit - current < 0 then 0 else limit - current
  }

  /** PTTL: -2 for a key that does not exist, -1 for one without a deadline. */
  function Pttl(counters: Counters, key: string, now: Time): int {
    if !Alive(counters, key, now) then -2
    else if counters[key].deadline.None? then -1
    else counters[key].deadline.value - now
  }

  class RateLimiter {
    var counters: Counters
    const connected: bool

    constructor (connected: bool)
      ensures counters == map[] && this.connected == connected
    {
      this.connected := connected;
      counters := map[];
    }

    /** The Lua script. `clientNow` is the caller's clock, `now` the server's. */
    method Script(key: string, limit: int, window: int, clientNow: Time, now: Time)
      returns (current: int, remaining: int, resetAt: int)
      modifies `counters
      ensures counters == Hit(old(counters), key, window, now)
      ensures current == Count(old(counters), key, now)
      ensures remaining == Remaining(limit, current)
      ensures Bounded(old(counters)) ==> Bounded(counters)
      ensures resetAt * 1000 <= Pttl(counters, key, now) + clientNow < (resetAt + 1) * 1000
      ensures Bounded(old(counters)) && window > 0 && clientNow == now ==>
        && key in counters && counters[key].deadline.Some?
        && resetAt * 1000 <= counters[key].deadline.value < (resetAt + 1) * 1000
    {
      counters := Incr(counters, key, now);
      current := counters[key].count;
      if current == 1 {
        counters := Expire(counters, key, window, now);
      }
      remaining := limit - current;
      if remaining < 0 {
        remaining := 0;
      }
      resetAt := (Pttl(counters, key, now) + clientNow) / 1000;
    }

    /** Without a connection, or when the script fails, everything is allowed. */
    method Allow(key: string, limit: int, window: int, clientNow: Time, now: Time, scriptFails: bool)
      returns (allowed: bool, remaining: int, resetAt: int)
      modifies `counters
      ensures !connected || scriptFails ==> allowed && remaining == limit && resetAt == 0 && counters == old(counters)
      ensures connected && !scriptFails ==>
        && counters == Hit(old(counters), key, window, now)
        && (allowed <==> Allowed(old(counters), key, limit, now))
        && remaining == Remaining(limit, Count(old(counters), key, now))
        && resetAt * 1000 <= Pttl(counters, key, now) + clientNow < (resetAt + 1) * 1000
    {
      if !connected || scriptFails {
        return true, limit, 0;
      }
      var current;
      current, remaining, resetAt := Script(key, limit, window, clientNow, now);
      allowed := current <= limit;
    }
  }

  /** One execution of the script. */
  datatype Call = Call(key: string, limit: int, window: int, now: Time)

  function After(counters: Counters, calls: seq<Call>): Counters
    decreases |calls|
  {
    if calls == [] then counters
    else After(Hit(counters, calls[0].key, calls[0].window, calls[0].now), calls[1..])
  }

  /** The clock does not run backwards, and `key` always comes with the same limit and window. */
  predicate Timed(calls: seq<Call>, from: Time, key: string, limit: int, window: int)
    decreases |calls|
  {
    calls == [] ||
    (&& from <= calls[0].now && (calls[0].key == key ==> calls[0].limit == limit && calls[0].window == window)
     && Timed(calls[1..], calls[0].now, key, limit, window))
  }

  /** How many calls for `key` at an instant in [a, b) are allowed. */
  function AllowedIn(counters: Counters, calls: seq<Call>, key: string, a: Time, b: Time): nat
    decreases |calls|
  {
    if calls == [] then 0
    else
      var c := calls[0];
      (if c.key == key && a <= c.now < b && Allowed(counters, key, c.limit, c.now) then 1 else 0)
      + AllowedIn(Hit(counters, c.key, c.window, c.now), calls[1..], key, a, b)
  }

  /** How many windows can begin in a stretch of `length` when they begin at least `step` apart: the
      least n with n * step >= length. A window lives through its deadline, so its successor begins at
      least window + 1 after it did. */
  function Windows(length: int, step: int): nat
    requires step > 0
    decreases if length > 0 then length else 0
  {
    if length <= 0 then 0 else 1 + Windows(length - step, step)
  }

  lemma {:induction false} WindowsMonotone(shorter: int, longer: int, step: int)
    requires step > 0 && shorter <= longer
    ensures Windows(shorter, step) <= Windows(longer, step)
    decreases if longer > 0 then longer else 0
  {
    if shorter > 0 {
      WindowsMonotone(shorter - step, longer - step, step);
    }
  }

  lemma {:induction false} WindowsOf(k: nat, step: int)
    requires step > 0
    ensures Windows(k * step, step) == k
  {
    if k > 0 {
      assert k * step - step == (k - 1) * step;
      WindowsOf(k - 1, step);
    }
  }

  function NonNegative(limit: int): nat {
    if limit < 0 then 0 else limit
  }

  /** What the window of `key` that is open at `now` still allows before `b`. */
  function OpenQuota(counters: Counters, key: string, limit: int, now: Time, b: Time): nat {
    if now < b && Alive(counters, key, now) then NonNegative(limit - counters[key].count) else 0
  }

  /** When the next window of `key` can begin: after the deadline of the open one. */
  function NextStart(counters: Counters, key: string, now: Time): Time {
    if Alive(counters, key, now) && counters[key].deadline.Some? then counters[key].deadline.value + 1 else now
  }

  /** From `now` on, the open window and the later ones together allow this many calls before `b`. */
  function Quota(counters: Counters, key: string, limit: int, window: int, now: Time, b: Time): nat
    requires window > 0
  {
    OpenQuota(counters, key, limit, now, b)
    + NonNegative(limit) * Windows(b - NextStart(counters, key, now), window + 1)
  }

  /** Whatever calls arrive, with whatever limits and windows, no stored counter lacks a deadline. */
  lemma {:induction false} EveryCounterHasDeadline(counters: Counters, calls: seq<Call>)
    requires Bounded(counters)
    ensures Bounded(After(counters, calls))
    decreases |calls|
  {
    if calls != [] {
      HitKeepsBounded(counters, calls[0].key, calls[0].window, calls[0].now);
      EveryCounterHasDeadline(Hit(counters, calls[0].key, calls[0].window, calls[0].now), calls[1..]);
    }
  }

  lemma HitKeepsBounded(counters: Counters, key: string, window: int, now: Time)
    requires Bounded(counters)
    ensures Bounded(Hit(counters, key, window, now))
  {
  }

  /** One call uses up no more than the quota gives. */
  lemma QuotaStep(counters: Counters, key: string, c: Call, limit: int, window: int, now: Time, b: Time)
    requires Bounded(counters) && window > 0 && now <= c.now
    requires c.key == key ==> c.limit == limit && c.window == window
    ensures (if c.key == key && c.now < b && Allowed(counters, key, limit, c.now) then 1 else 0)
      + Quota(Hit(counters, c.key, c.window, c.now), key, limit, window, c.now, b)
      <= Quota(counters, key, limit, window, now, b)
  {
    var next := Hit(counters, c.key, c.window, c.now);
    var before, after := b - NextStart(counters, key, now), b - NextStart(next, key, c.now);
    if c.key != key || Alive(counters, key, c.now) {
      WindowsMonotone(after, before, window + 1);
      TimesMonotone(NonNegative(limit), Windows(after, window + 1), Windows(before, window + 1));
    } else {
      assert after == b - c.now - (window + 1);
      WindowsMonotone(b - c.now, before, window + 1);
      TimesMonotone(NonNegative(limit), Windows(b - c.now, window + 1), Windows(before, window + 1));
      if c.now < b {
        OneWindowMore(NonNegative(limit), b - c.now, window + 1);
      }
    }
  }

  lemma OneWindowMore(limit: nat, length: int, window: int)
    requires window > 0 && length > 0
    ensures limit * Windows(length, window) == limit + limit * Windows(length - window, window)
  {
    assert Windows(length, window) == 1 + Windows(length - window, window);
  }

  lemma TimesMonotone(n: nat, x: nat, y: nat)
    requires x <= y
    ensures n * x <= n * y
  {
  }

  lemma {:induction false} QuotaBound(counters: Counters, calls: seq<Call>, key: string, limit: int, window: int,
                                      now: Time, a: Time, b: Time)
    requires Bounded(counters) && window > 0 && Timed(calls, now, key, limit, window)
    ensures AllowedIn(counters, calls, key, a, b) <= Quota(counters, key, limit, window, now, b)
    decreases |calls|
  {
    if calls != [] {
      var c := calls[0];
      HitKeepsBounded(counters, c.key, c.window, c.now);
      QuotaBound(Hit(counters, c.key, c.window, c.now), calls[1..], key, limit, window, c.now, a, b);
      QuotaStep(counters, key, c, limit, window, now, b);
    }
  }

  /** The most that a key can be allowed in an interval of `length`, over all behaviours of its callers.
      Either a window opened earlier ends at the first instant of the interval, with all but its first
      call there, and new windows follow at once; or the first window opens at the first instant. */
  function MostAllowed(limit: int, window: int, length: int): nat
    requires window > 0
  {
    if length <= 0 then 0 else MostInInterval(NonNegative(limit - 1), NonNegative(limit), window, length)
  }

  function MostInInterval(rest: nat, limit: nat, window: int, length: int): nat
    requires window > 0
  {
    var continued, started := rest + limit * Windows(length - 1, window + 1), limit * Windows(length, window + 1);
    if continued >= started then continued else started
  }

  /** From an instant in [a, b), the quota is no more than that. */
  lemma QuotaInInterval(counters: Counters, key: string, limit: int, window: int, from: Time, a: Time, b: Time)
    requires Bounded(counters) && window > 0 && a <= from
    ensures Quota(counters, key, limit, window, from, b) <= MostAllowed(limit, window, b - a)
  {
    var later := b - NextStart(counters, key, from);
    if Alive(counters, key, from) {
      WindowsMonotone(later, b - a - 1, window + 1);
      TimesMonotone(NonNegative(limit), Windows(later, window + 1), Windows(b - a - 1, window + 1));
    } else {
      WindowsMonotone(later, b - a, window + 1);
      TimesMonotone(NonNegative(limit), Windows(later, window + 1), Windows(b - a, window + 1));
    }
  }

  /** Calls before `a` do not count; from the first one at or after `a` the quota bounds the rest. */
  lemma {:induction false} SlidingQuota(counters: Counters, calls: seq<Call>, key: string, limit: int, window: int,
                                        now: Time, a: Time, b: Time)
    requires Bounded(counters) && window > 0 && Timed(calls, now, key, limit, window)
    ensures AllowedIn(counters, calls, key, a, b) <= MostAllowed(limit, window, b - a)
    decreases |calls|
  {
    hide MostAllowed;
    if calls != [] {
      var c := calls[0];
      if c.now < a {
        HitKeepsBounded(counters, c.key, c.window, c.now);
        SlidingQuota(Hit(counters, c.key, c.window, c.now), calls[1..], key, limit, window, c.now, a, b);
      } else {
        var from := if now < a then a else now;
        assert Timed(calls, from, key, limit, window);
        QuotaBound(counters, calls, key, limit, window, from, a, b);
        QuotaInInterval(counters, key, limit, window, from, a, b);
      }
    }
  }

  /** The sliding bound: for every timed sequence of calls on an empty Redis, the calls of a key allowed in
      [a, b) are at most MostAllowed. */
  lemma SlidingBound(calls: seq<Call>, start: Time, key: string, limit: int, window: int, a: Time, b: Time)
    requires window > 0 && Timed(calls, start, key, limit, window)
    ensures AllowedIn(map[], calls, key, a, b) <= MostAllowed(limit, window, b - a)
  {
    SlidingQuota(map[], calls, key, limit, window, start, a, b);
  }

  lemma {:induction false} LongerSteps(length: int, step: int, longer: int)
    requires 0 < step <= longer
    ensures Windows(length, longer) <= Windows(length, step)
    decreases if length > 0 then length else 0
  {
    if length > 0 {
      LongerSteps(length - longer, step, longer);
      WindowsMonotone(length - longer, length - step, step);
    }
  }

  /** In particular, k windows' length of time allows at most (k + 1) * limit requests, and one fewer when
      anything is allowed at all. */
  lemma KWindowsBound(calls: seq<Call>, start: Time, key: string, limit: int, window: int, a: Time, k: nat)
    requires window > 0 && Timed(calls, start, key, limit, window)
    ensures AllowedIn(map[], calls, key, a, a + k * window) <= (k + 1) * NonNegative(limit)
    ensures limit > 0 ==> AllowedIn(map[], calls, key, a, a + k * window) <= (k + 1) * limit - 1
  {
    SlidingBound(calls, start, key, limit, window, a, a + k * window);
    WindowsOf(k, window);
    LongerSteps(k * window, window, window + 1);
    WindowsMonotone(k * window - 1, k * window, window + 1);
    var n, m := Windows(k * window - 1, window + 1), Windows(k * window, window + 1);
    TimesMonotone(NonNegative(limit), n, k);
    TimesMonotone(NonNegative(limit), m, k);
    assert (k + 1) * NonNegative(limit) == NonNegative(limit) + NonNegative(limit) * k;
  }

  // ----- the bound is attained -----

  /** `n` calls at one instant. */
  function Burst(c: Call, n: nat): seq<Call> {
    if n == 0 then [] else [c] + Burst(c, n - 1)
  }

  /** A burst of `limit` calls whenever a new window can begin, until `b`. */
  function Train(key: string, limit: nat, window: int, from: Time, b: Time): seq<Call>
    requires window > 0
    decreases if b > from then b - from else 0
  {
    if from >= b then []
    else Burst(Call(key, limit, window, from), limit) + Train(key, limit, window, from + window + 1, b)
  }

  lemma {:induction false} AllowedInSplits(counters: Counters, xs: seq<Call>, ys: seq<Call>, key: string, a: Time, b: Time)
    ensures AllowedIn(counters, xs + ys, key, a, b)
      == AllowedIn(counters, xs, key, a, b) + AllowedIn(After(counters, xs), ys, key, a, b)
    ensures After(counters, xs + ys) == After(After(counters, xs), ys)
    decreases |xs|
  {
    if xs == [] {
      assert xs + ys == ys;
    } else {
      assert (xs + ys)[1..] == xs[1..] + ys;
      AllowedInSplits(Hit(counters, xs[0].key, xs[0].window, xs[0].now), xs[1..], ys, key, a, b);
    }
  }

  /** In an open window every call of a burst is allowed while the limit lasts. */
  lemma {:induction false} BurstInWindow(counters: Counters, c: Call, n: nat, a: Time, b: Time)
    requires Bounded(counters) && c.window > 0 && a <= c.now < b
    requires Alive(counters, c.key, c.now) && counters[c.key].count + n <= c.limit
    ensures AllowedIn(counters, Burst(c, n), c.key, a, b) == n
    ensures var later := After(counters, Burst(c, n));
      Bounded(later) && c.key in later && later[c.key].deadline == counters[c.key].deadline
    decreases n
  {
    if n > 0 {
      var next := Hit(counters, c.key, c.window, c.now);
      assert Burst(c, n)[1..] == Burst(c, n - 1);
      assert next[c.key] == counters[c.key].(count := counters[c.key].count + 1);
      HitKeepsBounded(counters, c.key, c.window, c.now);
      BurstInWindow(next, c, n - 1, a, b);
    }
  }

  /** A burst of `limit` calls that opens a window is allowed as a whole, and takes the window with it. */
  lemma BurstOpens(counters: Counters, c: Call, a: Time, b: Time)
    requires Bounded(counters) && c.window > 0 && c.limit >= 0 && a <= c.now < b && !Alive(counters, c.key, c.now)
    ensures var limit := c.limit as nat; var later := After(counters, Burst(c, limit));
      && AllowedIn(counters, Burst(c, limit), c.key, a, b) == limit
      && Bounded(later) && !Alive(later, c.key, c.now + c.window + 1)
  {
    if c.limit > 0 {
      OpensWindow(counters, c.key, c.window, c.now);
      var first := Hit(counters, c.key, c.window, c.now);
      assert Burst(c, c.limit)[1..] == Burst(c, c.limit - 1);
      BurstInWindow(first, c, c.limit - 1, a, b);
    }
  }

  lemma {:induction false} TrainAllowed(counters: Counters, key: string, limit: nat, window: int, from: Time, a: Time, b: Time)
    requires Bounded(counters) && window > 0 && a <= from && !Alive(counters, key, from)
    ensures AllowedIn(counters, Train(key, limit, window, from, b), key, a, b) == limit * Windows(b - from, window + 1)
    decreases if b > from then b - from else 0
  {
    hide Alive, Bounded, Hit, After, Burst;
    if from < b {
      var c := Call(key, limit, window, from);
      var rest := Train(key, limit, window, from + window + 1, b);
      BurstOpens(counters, c, a, b);
      AllowedInSplits(counters, Burst(c, limit), rest, key, a, b);
      TrainAllowed(After(counters, Burst(c, limit)), key, limit, window, from + window + 1, a, b);
      OneWindowMore(limit, b - from, window + 1);
    }
  }

  lemma {:induction false} BurstTimed(c: Call, n: nat, rest: seq<Call>, from: Time)
    requires from <= c.now && Timed(rest, c.now, c.key, c.limit, c.window)
    ensures Timed(Burst(c, n) + rest, from, c.key, c.limit, c.window)
    decreases n
  {
    if n == 0 {
      assert Burst(c, n) + rest == rest;
    } else {
      assert (Burst(c, n) + rest)[1..] == Burst(c, n - 1) + rest;
      BurstTimed(c, n - 1, rest, c.now);
    }
  }

  lemma {:induction false} TrainTimed(key: string, limit: nat, window: int, from: Time, b: Time, start: Time)
    requires window > 0 && start <= from
    ensures Timed(Train(key, limit, window, from, b), start, key, limit, window)
    decreases if b > from then b - from else 0
  {
    if from < b {
      TrainTimed(key, limit, window, from + window + 1, b, from);
      BurstTimed(Call(key, limit, window, from), limit, Train(key, limit, window, from + window + 1, b), start);
    }
  }

  /** One call a window before `a`, the rest of that window at `a`, and a train right behind it. */
  function Continued(key: string, limit: nat, window: int, a: Time, b: Time): seq<Call>
    requires window > 0 && limit > 0
  {
    [Call(key, limit, window, a - window)]
    + (Burst(Call(key, limit, window, a), limit - 1) + Train(key, limit, window, a + 1, b))
  }

  lemma ContinuedAllowed(key: string, limit: nat, window: int, a: Time, b: Time)
    requires window > 0 && limit > 0 && a < b
    ensures var calls := Continued(key, limit, window, a, b);
      && Timed(calls, a - window, key, limit, window)
      && AllowedIn(map[], calls, key, a, b) == limit - 1 + limit * Windows(b - a - 1, window + 1)
  {
    hide AllowedIn, Timed, Windows;
    var c := Call(key, limit, window, a);
    FirstCallBefore(key, limit, window, Burst(c, limit - 1) + Train(key, limit, window, a + 1, b), a, b);
    TrainTimed(key, limit, window, a + 1, b, a);
    BurstTimed(c, limit - 1, Train(key, limit, window, a + 1, b), a - window);
    EndOfWindowAllowed(key, limit, window, a, b);
  }

  /** What is left of a window that ends at `a`, and then a train. */
  lemma EndOfWindowAllowed(key: string, limit: nat, window: int, a: Time, b: Time)
    requires window > 0 && limit > 0 && a < b
    ensures var calls := Burst(Call(key, limit, window, a), limit - 1) + Train(key, limit, window, a + 1, b);
      AllowedIn(map[key := Counter(1, Some(a))], calls, key, a, b) == limit - 1 + limit * Windows(b - a - 1, window + 1)
  {
    hide AllowedIn, Windows, Burst, Train, After, Hit;
    var first, c := map[key := Counter(1, Some(a))], Call(key, limit, window, a);
    var burst, train := Burst(c, limit - 1), Train(key, limit, window, a + 1, b);
    BurstInWindow(first, c, limit - 1, a, b);
    AllowedInSplits(first, burst, train, key, a, b);
    TrainAllowed(After(first, burst), key, limit, window, a + 1, a, b);
  }

  /** A first call a window before `a` opens the window that ends at `a`. */
  lemma FirstCallBefore(key: string, limit: nat, window: int, rest: seq<Call>, a: Time, b: Time)
    requires window > 0
    ensures var calls := [Call(key, limit, window, a - window)] + rest;
      && AllowedIn(map[], calls, key, a, b) == AllowedIn(map[key := Counter(1, Some(a))], rest, key, a, b)
      && (Timed(rest, a - window, key, limit, window) ==> Timed(calls, a - window, key, limit, window))
  {
    var calls := [Call(key, limit, window, a - window)] + rest;
    assert calls[1..] == rest;
    assert Hit(map[], key, window, a - window) == map[key := Counter(1, Some(a))];
  }

  /** The bound is attained for every limit, window and interval, so it cannot be improved. */
  lemma SlidingBoundIsAttained(key: string, limit: int, window: int, a: Time, b: Time)
    returns (calls: seq<Call>, start: Time)
    requires window > 0
    ensures Timed(calls, start, key, limit, window)
    ensures AllowedIn(map[], calls, key, a, b) == MostAllowed(limit, window, b - a)
  {
    calls, start := [], a;
    if a < b && limit > 0 {
      var continued := limit - 1 + limit * Windows(b - a - 1, window + 1);
      if continued >= limit * Windows(b - a, window + 1) {
        calls, start := Continued(key, limit, window, a, b), a - window;
        ContinuedAllowed(key, limit, window, a, b);
      } else {
        calls := Train(key, limit, window, a, b);
        TrainTimed(key, limit, window, a, b, a);
        TrainAllowed(map[], key, limit, window, a, a, b);
      }
    }
  }

  lemma {:induction false} WindowsFit(k: nat, window: int, length: int)
    requires window > 0 && 1 <= k && (k - 1) * (window + 1) < length <= k * (window + 1)
    ensures Windows(length, window + 1) == k
  {
    if k > 1 {
      assert (k - 1) * (window + 1) - (window + 1) == (k - 2) * (window + 1);
      assert k * (window + 1) - (window + 1) == (k - 1) * (window + 1);
      WindowsFit(k - 1, window, length - (window + 1));
    }
  }

  /** For up to window - 1 windows' length of time the most is exactly (k + 1) * limit - 1. */
  lemma KWindowsExactly(limit: nat, window: int, k: nat)
    requires limit >= 1 && 1 <= k < window
    ensures MostAllowed(limit, window, k * window) == (k + 1) * limit - 1
  {
    assert (k - 1) * (window + 1) == k * window - window + k - 1;
    assert k * (window + 1) == k * window + k;
    WindowsFit(k, window, k * window);
    WindowsFit(k, window, k * window - 1);
    assert (k + 1) * limit == limit + limit * k;
  }

  /** `n` calls for `key` in one open window, interleaved with calls for other keys. */
  predicate InWindow(calls: seq<Call>, from: Time, deadline: Time, key: string)
    decreases |calls|
  {
    calls == [] || (from <= calls[0].now <= deadline && InWindow(calls[1..], calls[0].now, deadline, key))
  }

  function Calls(calls: seq<Call>, key: string): nat
    decreases |calls|
  {
    if calls == [] then 0 else (if calls[0].key == key then 1 else 0) + Calls(calls[1..], key)
  }

  /** Until the deadline a window just counts: after n more calls of the key, the next one at a time
      up to the deadline is number count + n + 1, so it is allowed exactly while that is within the
      limit, and the deadline has not moved. */
  lemma {:induction false} WindowCounts(counters: Counters, calls: seq<Call>, from: Time, key: string, now: Time)
    requires Bounded(counters) && Alive(counters, key, from)
    requires InWindow(calls, from, counters[key].deadline.value, key)
    requires (if calls == [] then from else calls[|calls| - 1].now) <= now <= counters[key].deadline.value
    ensures var later := After(counters, calls);
      && Bounded(later) && key in later && later[key].deadline == counters[key].deadline
      && Count(later, key, now) == counters[key].count + Calls(calls, key) + 1
    decreases |calls|
  {
    if calls != [] {
      var c := calls[0];
      var next := Hit(counters, c.key, c.window, c.now);
      HitKeepsBounded(counters, c.key, c.window, c.now);
      WindowCounts(next, calls[1..], c.now, key, now);
    }
  }

  lemma OpensWindow(counters: Counters, key: string, window: int, opening: Time)
    requires Bounded(counters) && window > 0 && !Alive(counters, key, opening)
    ensures Count(counters, key, opening) == 1
    ensures var first := Hit(counters, key, window, opening);
      Bounded(first) && key in first && first[key] == Counter(1, Some(opening + window)) && Alive(first, key, opening)
  {
    HitKeepsBounded(counters, key, window, opening);
  }

  /** The n-th call of a window, opened by its first call, is allowed iff n <= limit, and reports
      max(0, limit - n) remaining. */
  lemma NthCallOfWindow(counters: Counters, key: string, limit: int, window: int, opening: Time, calls: seq<Call>,
                        now: Time)
    requires Bounded(counters) && window > 0 && !Alive(counters, key, opening)
    requires InWindow(calls, opening, opening + window, key)
    requires (if calls == [] then opening else calls[|calls| - 1].now) <= now <= opening + window
    ensures Count(counters, key, opening) == 1
    ensures var later := After(Hit(counters, key, window, opening), calls); var n := Calls(calls, key) + 2;
      && (Allowed(later, key, limit, now) <==> n <= limit)
      && Remaining(limit, Count(later, key, now)) == NonNegative(limit - n)
  {
    hide Hit, After, InWindow, Bounded, Calls, Incr, Alive, Count;
    OpensWindow(counters, key, window, opening);
    WindowCounts(Hit(counters, key, window, opening), calls, opening, key, now);
  }

  /** Once a call is denied, every call of the key is denied until the deadline of its window. */
  lemma DeniedUntilDeadline(counters: Counters, key: string, limit: int, window: int, denied: Time, calls: seq<Call>,
                            now: Time)
    requires Bounded(counters) && window > 0 && !Allowed(counters, key, limit, denied)
    requires var deadline := Hit(counters, key, window, denied)[key].deadline.value;
      && InWindow(calls, denied, deadline, key)
      && (if calls == [] then denied else calls[|calls| - 1].now) <= now <= deadline
    ensures !Allowed(After(Hit(counters, key, window, denied), calls), key, limit, now)
  {
    HitKeepsBounded(counters, key, window, denied);
    WindowCounts(Hit(counters, key, window, denied), calls, denied, key, now);
  }
}
