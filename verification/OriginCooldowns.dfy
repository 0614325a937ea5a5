/** How long an origin is paused, and how its tokens come back (packages/archive-core/src/scheduler.ts:217-345). */
module OriginCooldowns {
  import opened Options
  import opened PoolConfiguration
  import opened OriginBudget

  // ----- How long a response pauses its origin -----

  /** What a response asks for, in milliseconds: a 503 the configured delay, a 429 the time its Retry-After names, if
      that is respected and can be read, or else the fallback; each within its maximum. Nothing else asks for one. */
  function Asked(cfg: Configuration, status: int, retryAfter: RetryAfter, nowMs: int): int {
    if status == 503 then Min(cfg.temporaryErrorCooldownMs, cfg.originCooldownMaximumMs)
    else if status != 429 then 0
    else if !cfg.respectRetryAfter || retryAfter.Absent? || retryAfter.Unreadable? then
      Min(cfg.originCooldownFallbackMs, cfg.originCooldownMaximumMs)
    else
      var named := if retryAfter.Seconds? then 1000 * retryAfter.n else Max(0, retryAfter.atMs - nowMs);
      Min(named, Min(cfg.retryAfterMaximumMs, cfg.originCooldownMaximumMs))
  }

  function CooldownIn(w: Budget, origin: string): Option<int> {
    if origin in w.buckets then w.buckets[origin].cooldownUntilMs else None
  }

  /** After a response the origin is paused, at any later time, exactly as long as it was before or as long as the
      response asks for, whichever is longer; no other origin is affected. */
  lemma ResponsePausesExactly(cfg: Configuration, w: Budget, origin: string, status: int, retryAfter: RetryAfter,
                              nowMs: int, o: string, t: int)
    requires ValidConfiguration(cfg) && ValidStatus(status) && 0 <= nowMs <= t
    ensures var before := CooldownIn(w, o);
            var after := CooldownIn(Step(cfg, w, Respond(origin, status, retryAfter), nowMs), o);
            InCooldown(after, t) <==>
              InCooldown(before, t) || (o == origin && t < nowMs + Asked(cfg, status, retryAfter, nowMs))
  {
    hide Refill;
    var b := BucketOf(cfg, w, origin, nowMs);
    RefillKeepsCooldown(cfg, Observe(cfg, b, status, retryAfter, nowMs), nowMs);
    DelayIsAsked(cfg, status, retryAfter, nowMs);
    hide ResponseDelay, Asked;
  }

  lemma RefillKeepsCooldown(cfg: Configuration, b: Bucket, nowMs: int)
    ensures Refill(cfg, b, nowMs) == b.(tokens := Refill(cfg, b, nowMs).tokens,
                                        lastRefillMs := Refill(cfg, b, nowMs).lastRefillMs)
  {
  }

  lemma DelayIsAsked(cfg: Configuration, status: int, retryAfter: RetryAfter, nowMs: int)
    requires ValidConfiguration(cfg)
    ensures var delay := ResponseDelay(cfg, status, retryAfter, nowMs);
            Asked(cfg, status, retryAfter, nowMs) == if delay.Some? then delay.value else 0
    ensures Asked(cfg, status, retryAfter, nowMs) >= 0
  {
  }

  /** A 429 that names seconds which are respected. */
  lemma SecondsPause(cfg: Configuration, w: Budget, origin: string, n: nat, nowMs: int, t: int)
    requires ValidConfiguration(cfg) && cfg.respectRetryAfter && 0 <= nowMs <= t
    ensures var after := CooldownIn(Step(cfg, w, Respond(origin, 429, Seconds(n)), nowMs), origin);
            var pause := Min(1000 * n, Min(cfg.retryAfterMaximumMs, cfg.originCooldownMaximumMs));
            InCooldown(after, t) <==> InCooldown(CooldownIn(w, origin), t) || t < nowMs + pause
  {
    ResponsePausesExactly(cfg, w, origin, 429, Seconds(n), nowMs, origin, t);
    hide Step;
  }

  // ----- Over whole runs -----

  /** An event that pauses the origin at time `t`. */
  predicate Pauses(cfg: Configuration, e: Event, origin: string, t: int) {
    && e.op.Respond? && e.op.origin == origin && ValidStatus(e.op.status)
    && t < e.atMs + Asked(cfg, e.op.status, e.op.retryAfter, e.atMs)
  }

  /** One of the first `n` events pauses the origin at time `t`. */
  predicate PausedBySome(cfg: Configuration, run: seq<Event>, n: nat, origin: string, t: int)
    requires n <= |run|
  {
    exists k :: 0 <= k < n && Pauses(cfg, run[k], origin, t)
  }

  predicate NoRestore(run: seq<Event>, n: nat, origin: string)
    requires n <= |run|
  {
    forall k :: 0 <= k < n ==> !(run[k].op.Restore? && run[k].op.origin == origin)
  }

  lemma OtherStepKeepsPause(cfg: Configuration, w: Budget, e: Event, o: string, t: int)
    requires e.atMs <= t && !(e.op.Restore? && e.op.origin == o)
    requires e.op.Respond? ==> !ValidStatus(e.op.status)
    ensures InCooldown(CooldownIn(Step(cfg, w, e.op, e.atMs), o), t) <==> InCooldown(CooldownIn(w, o), t)
  {
    if !e.op.Release? && !Refused(e.op) {
      RefillKeepsCooldown(cfg, BucketOf(cfg, w, e.op.origin, e.atMs), e.atMs);
    }
    hide Refill;
  }

  /** Over every run, an origin that is not restored is paused at a time exactly when one of the responses recorded so
      far asked for a pause that is not over then. */
  lemma {:induction false} PausedExactly(cfg: Configuration, run: seq<Event>, n: nat, origin: string, t: int)
    requires ValidConfiguration(cfg) && n <= |run| && NoRestore(run, n, origin)
    requires forall k :: 0 <= k < n ==> 0 <= run[k].atMs <= t
    ensures InCooldown(CooldownIn(OriginBudget.After(cfg, run, n), origin), t) <==> PausedBySome(cfg, run, n, origin, t)
  {
    hide Step, Asked;
    if n > 0 {
      var w, e := OriginBudget.After(cfg, run, n - 1), run[n - 1];
      PausedExactly(cfg, run, n - 1, origin, t);
      if e.op.Respond? && ValidStatus(e.op.status) {
        ResponsePausesExactly(cfg, w, e.op.origin, e.op.status, e.op.retryAfter, e.atMs, origin, t);
      } else {
        OtherStepKeepsPause(cfg, w, e, origin, t);
      }
      OneMoreEvent(cfg, run, n, origin, t);
    }
  }

  lemma OneMoreEvent(cfg: Configuration, run: seq<Event>, n: nat, origin: string, t: int)
    requires 0 < n <= |run|
    ensures PausedBySome(cfg, run, n, origin, t) <==>
      PausedBySome(cfg, run, n - 1, origin, t) || Pauses(cfg, run[n - 1], origin, t)
  {
    hide Pauses;
    if PausedBySome(cfg, run, n - 1, origin, t) {
      var k :| 0 <= k < n - 1 && Pauses(cfg, run[k], origin, t);
      assert Pauses(cfg, run[k], origin, t);
    }
  }

  // ----- When a request that was not admitted is admitted -----

  /** From the time its bucket was looked at, and as long as nobody else touches it, an origin with a place left admits
      a request exactly when its cooldown is over and the tokens that have come in make up a whole one. */
  lemma AdmittedExactly(cfg: Configuration, b: Bucket, nowMs: int, t: int)
    requires ValidConfiguration(cfg) && b.tokens <= Full(cfg) && nowMs == b.lastRefillMs <= t
    ensures Admits(cfg, Refill(cfg, b, t), t) <==>
      && b.inflight < cfg.perOriginMaxInflightRequests
      && (b.cooldownUntilMs.Some? ==> b.cooldownUntilMs.value <= t)
      && (cfg.perOriginRequestsPerSecond.Some? ==>
            b.tokens + (t - nowMs) * cfg.perOriginRequestsPerSecond.value >= TOKEN)
  {
    RefillKeepsCooldown(cfg, b, t);
  }

  /** `acquire` never sleeps past the moment at which it could have been admitted, except that it sleeps at least a
      millisecond, or ten when all places are taken; and after a sleep for tokens or a cooldown alone it is admitted. */
  lemma SleepIsExact(cfg: Configuration, b: Bucket, nowMs: int, t: int)
    requires ValidConfiguration(cfg) && b.tokens <= Full(cfg) && nowMs == b.lastRefillMs < t
    requires b.inflight < cfg.perOriginMaxInflightRequests
    requires InCooldown(b.cooldownUntilMs, nowMs) ==>
      cfg.perOriginRequestsPerSecond.None? || b.tokens >= TOKEN
    ensures Admits(cfg, Refill(cfg, b, t), t) <==> (t - nowMs) as real >= WaitMilliseconds(cfg, b, nowMs)
  {
    AdmittedExactly(cfg, b, nowMs, t);
    hide Refill;
    if cfg.perOriginRequestsPerSecond.Some? {
      var rate := cfg.perOriginRequestsPerSecond.value;
      if b.tokens < TOKEN {
        Quotient(TOKEN - b.tokens, rate, t - nowMs);
      } else {
        ProductNonNegative(t - nowMs, rate);
      }
    }
  }

  lemma Quotient(a: nat, rate: nat, d: nat)
    requires rate >= 1
    ensures d * rate >= a <==> d as real >= a as real / rate as real
  {
    var q := a as real / rate as real;
    assert q * rate as real == a as real;
    assert (d as real - q) * rate as real == (d * rate - a) as real;
  }

  // ----- No token is lost -----

  /** The bucket runs over when it is refilled now. */
  predicate RunsOver(cfg: Configuration, b: Bucket, nowMs: int)
    requires cfg.perOriginRequestsPerSecond.Some?
  {
    nowMs > b.lastRefillMs && b.tokens + (nowMs - b.lastRefillMs) * cfg.perOriginRequestsPerSecond.value > Full(cfg)
  }

  /** None of the events from `i` to `j` finds the origin's bucket running over. */
  predicate NeverRunsOver(cfg: Configuration, run: seq<Event>, i: nat, j: nat, origin: string)
    requires cfg.perOriginRequestsPerSecond.Some? && i <= j <= |run|
  {
    forall k :: i <= k < j ==>
      var w := OriginBudget.After(cfg, run, k);
      origin in w.buckets ==> !RunsOver(cfg, w.buckets[origin], run[k].atMs)
  }

  lemma RefillAddsUp(cfg: Configuration, b: Bucket, nowMs: int)
    requires cfg.perOriginRequestsPerSecond.Some? && b.tokens <= Full(cfg) && !RunsOver(cfg, b, nowMs)
    ensures var r := Refill(cfg, b, nowMs);
            r.tokens == b.tokens + (r.lastRefillMs - b.lastRefillMs) * cfg.perOriginRequestsPerSecond.value
  {
  }

  lemma StepAddsUp(cfg: Configuration, w: Budget, e: Event, origin: string)
    requires ValidConfiguration(cfg) && cfg.perOriginRequestsPerSecond.Some? && origin in w.buckets
    requires w.buckets[origin].tokens <= Full(cfg) && !RunsOver(cfg, w.buckets[origin], e.atMs)
    ensures var v := Step(cfg, w, e.op, e.atMs);
            var b := w.buckets[origin];
            && origin in v.buckets
            && v.buckets[origin].tokens
                 + (if Grants(cfg, w, e.op, e.atMs) && e.op.origin == origin then TOKEN else 0)
               == b.tokens + (v.buckets[origin].lastRefillMs - b.lastRefillMs) * cfg.perOriginRequestsPerSecond.value
  {
    var b := w.buckets[origin];
    RefillAddsUp(cfg, b, e.atMs);
    if e.op.Respond? {
      var seen := Observe(cfg, b, e.op.status, e.op.retryAfter, e.atMs);
      RefillAddsUp(cfg, seen, e.atMs);
    }
    hide Refill, RunsOver, ResponseDelay;
  }

  /** Conservation: over every part of a run in which the bucket of an origin never runs over, what it held and what
      came in at the configured rate are what its grants took and what it holds. */
  lemma {:induction false} TokensAddUp(cfg: Configuration, run: seq<Event>, i: nat, j: nat, origin: string)
    requires ValidConfiguration(cfg) && cfg.perOriginRequestsPerSecond.Some? && i <= j <= |run|
    requires origin in OriginBudget.After(cfg, run, i).buckets && NeverRunsOver(cfg, run, i, j, origin)
    ensures var w, v := OriginBudget.After(cfg, run, i), OriginBudget.After(cfg, run, j);
            && origin in v.buckets
            && TOKEN * Granted(cfg, run, i, j, origin) + v.buckets[origin].tokens
               == w.buckets[origin].tokens
                  + (v.buckets[origin].lastRefillMs - w.buckets[origin].lastRefillMs)
                    * cfg.perOriginRequestsPerSecond.value
    decreases j
  {
    hide Step, RunsOver;
    if i < j {
      var w, u := OriginBudget.After(cfg, run, i), OriginBudget.After(cfg, run, j - 1);
      TokensAddUp(cfg, run, i, j - 1, origin);
      InflightIsUnreleased(cfg, run, j - 1);
      StepAddsUp(cfg, u, run[j - 1], origin);
      var v := OriginBudget.After(cfg, run, j);
      Distribute(u.buckets[origin].lastRefillMs - w.buckets[origin].lastRefillMs,
                 v.buckets[origin].lastRefillMs - u.buckets[origin].lastRefillMs, cfg.perOriginRequestsPerSecond.value);
    }
  }

  /** A first request always finds a full bucket. */
  lemma FirstRequestIsGranted(cfg: Configuration, w: Budget, origin: string, nowMs: int)
    requires ValidConfiguration(cfg) && origin !in w.buckets
    ensures var v := Step(cfg, w, Acquire(origin), nowMs);
            && Grants(cfg, w, Acquire(origin), nowMs) && v.buckets[origin].inflight == 1
            && (cfg.perOriginRequestsPerSecond.Some? ==> v.buckets[origin].tokens == TOKEN * (cfg.burstLimit - 1))
  {
  }
}
