/** The per-origin request budget: token bucket, in-flight limit and cooldown
    (packages/archive-core/src/scheduler.ts:217-345). Tokens are counted in thousandths, so that with a
    clock in milliseconds and an integer rate every refill is exact. */
module OriginBudget {
  import opened Options
  import opened PoolConfiguration

  datatype Bucket = Bucket(
    inflight: nat,
    tokens: int,
    lastRefillMs: int,
    cooldownUntilMs: Option<int>,
    lastStatus: Option<int>)

  const TOKEN := 1000
  const MAX_SAFE_INTEGER := 9_007_199_254_740_991

  function Min(a: int, b: int): int { if a < b then a else b }
  function Max(a: int, b: int): int { if a > b then a else b }

  function Full(cfg: Configuration): int {
    TOKEN * cfg.burstLimit
  }

  function Create(cfg: Configuration, nowMs: int): Bucket {
    Bucket(0, Full(cfg), nowMs, None, None)
  }

  function Refill(cfg: Configuration, b: Bucket, nowMs: int): Bucket {
    if cfg.perOriginRequestsPerSecond.None? then b.(lastRefillMs := nowMs)
    else if nowMs <= b.lastRefillMs then b
    else
      b.(tokens := Min(Full(cfg), b.tokens + (nowMs - b.lastRefillMs) * cfg.perOriginRequestsPerSecond.value),
         lastRefillMs := nowMs)
  }

  predicate InCooldown(cooldownUntilMs: Option<int>, nowMs: int) {
    cooldownUntilMs.Some? && cooldownUntilMs.value > nowMs
  }

  /** The milliseconds an acquisition has to wait for; zero lets it through. */
  function WaitMilliseconds(cfg: Configuration, b: Bucket, nowMs: int): real
    requires ValidConfiguration(cfg)
  {
    if InCooldown(b.cooldownUntilMs, nowMs) then (b.cooldownUntilMs.value - nowMs) as real
    else if b.inflight >= cfg.perOriginMaxInflightRequests then 10.0
    else if cfg.perOriginRequestsPerSecond.None? || b.tokens >= TOKEN then 0.0
    else
      var wait := (TOKEN - b.tokens) as real / cfg.perOriginRequestsPerSecond.value as real;
      if wait < 1.0 then 1.0 else wait
  }

  /** What lets an acquisition through, after the refill. */
  predicate Admits(cfg: Configuration, b: Bucket, nowMs: int) {
    && !InCooldown(b.cooldownUntilMs, nowMs)
    && b.inflight < cfg.perOriginMaxInflightRequests
    && (cfg.perOriginRequestsPerSecond.Some? ==> b.tokens >= TOKEN)
  }

  lemma NoWaitMeansAdmitted(cfg: Configuration, b: Bucket, nowMs: int)
    requires ValidConfiguration(cfg)
    ensures WaitMilliseconds(cfg, b, nowMs) <= 0.0 <==> Admits(cfg, b, nowMs)
  {
  }

  function Take(cfg: Configuration, b: Bucket): Bucket {
    b.(inflight := b.inflight + 1, tokens := if cfg.perOriginRequestsPerSecond.Some? then b.tokens - TOKEN
       else b.tokens)
  }

  // ----- Responses and cooldowns -----

  /** A Retry-After field value (section 10.2.3 of RFC 9110): a number of seconds, a date, or neither. */
  datatype RetryAfter = Absent | Seconds(n: nat) | Date(atMs: int) | Unreadable

  function RetryDelay(value: RetryAfter, nowMs: int, maximumMs: nat): Option<int> {
    match value
    case Absent => None
    case Unreadable => None
    case Seconds(n) => if n > MAX_SAFE_INTEGER then Some(maximumMs) else Some(Min(n * 1000, maximumMs))
    case Date(atMs) => Some(Min(Max(0, atMs - nowMs), maximumMs))
  }

  /** The delay a response asks for, if any. */
  function ResponseDelay(cfg: Configuration, status: int, retryAfter: RetryAfter, nowMs: int): Option<int> {
    if status == 429 then
      var asked := if cfg.respectRetryAfter
                   then RetryDelay(retryAfter, nowMs, Min(cfg.retryAfterMaximumMs, cfg.originCooldownMaximumMs))
                   else None;
      if asked.Some? then asked else Some(Min(cfg.originCooldownFallbackMs, cfg.originCooldownMaximumMs))
    else if status == 503 then Some(Min(cfg.temporaryErrorCooldownMs, cfg.originCooldownMaximumMs))
    else None
  }

  function Observe(cfg: Configuration, b: Bucket, status: int, retryAfter: RetryAfter, nowMs: int): Bucket {
    var delay := ResponseDelay(cfg, status, retryAfter, nowMs);
    var seen := b.(lastStatus := Some(status));
    if delay.Some? && delay.value > 0 then
      seen.(cooldownUntilMs := Some(Max(if b.cooldownUntilMs.Some? then b.cooldownUntilMs.value
                                        else 0, nowMs + delay.value)))
    else seen
  }

  /** What a snapshot does to the bucket: refill it and drop an expired cooldown. */
  function Look(cfg: Configuration, b: Bucket, nowMs: int): Bucket {
    var r := Refill(cfg, b, nowMs);
    if r.cooldownUntilMs.Some? && r.cooldownUntilMs.value <= nowMs then r.(cooldownUntilMs := None) else r
  }

  predicate ValidStatus(status: int) {
    100 <= status <= 599
  }

  predicate Limits(status: int) {
    status == 429 || status == 503
  }

  /** A recorded response never shortens a live cooldown, sets none past now plus the configured
      maximum, and leaves the cooldown alone unless its status limits the rate. */
  lemma ResponseCooldown(cfg: Configuration, b: Bucket, status: int, retryAfter: RetryAfter, nowMs: int)
    requires ValidConfiguration(cfg) && nowMs >= 0
    ensures var before := b.cooldownUntilMs;
            var after := Look(cfg, Observe(cfg, b, status, retryAfter, nowMs), nowMs).cooldownUntilMs;
            && (InCooldown(before, nowMs) ==> after.Some? && after.value >= before.value)
            && (after.Some? ==> after == before || after.value <= nowMs + cfg.originCooldownMaximumMs)
            && (!Limits(status) && InCooldown(before, nowMs) ==> after == before)
            && (!Limits(status) && !InCooldown(before, nowMs) ==> after.None?)
  {
  }

  // ----- The budget over all origins -----

  datatype Permit = Permit(origin: string, acquiredAtMs: int, released: bool)

  /** The buckets, and the permits handed out so far in order; a permit is named by its position. */
  datatype Budget = Budget(buckets: map<string, Bucket>, permits: seq<Permit>)

  const EMPTY := Budget(map[], [])

  function BucketOf(cfg: Configuration, w: Budget, origin: string, nowMs: int): Bucket {
    if origin in w.buckets then w.buckets[origin] else Create(cfg, nowMs)
  }

  function Put(w: Budget, origin: string, b: Bucket): Budget {
    w.(buckets := w.buckets[origin := b])
  }

  datatype Operation =
    | Acquire(origin: string)
    | Release(permit: nat)
    | Respond(origin: string, status: int, retryAfter: RetryAfter)
    | Snapshot(origin: string)
    | AskPaused(origin: string)
    | Restore(origin: string, untilMs: int, lastStatus: Option<int>)

  /** An operation the budget throws on, before it touches a bucket. */
  predicate Refused(op: Operation) {
    (op.Respond? && !ValidStatus(op.status)) || (op.Restore? && op.untilMs < 0)
  }

  /** Whether this attempt of `acquire` is let through. */
  predicate Grants(cfg: Configuration, w: Budget, op: Operation, nowMs: int) {
    op.Acquire? && Admits(cfg, Refill(cfg, BucketOf(cfg, w, op.origin, nowMs), nowMs), nowMs)
  }

  /** What an operation other than a release does to the bucket of its origin. */
  function BucketAfter(cfg: Configuration, b: Bucket, op: Operation, nowMs: int): Bucket
    requires !op.Release?
  {
    match op
    case Acquire(_) =>
      var r := Refill(cfg, b, nowMs);
      if Admits(cfg, r, nowMs) then Take(cfg, r) else r
    case Respond(_, status, retryAfter) => Look(cfg, Observe(cfg, b, status, retryAfter, nowMs), nowMs)
    case Snapshot(_) => Look(cfg, b, nowMs)
    case AskPaused(_) => b
    case Restore(_, untilMs, status) => b.(cooldownUntilMs := Some(untilMs), lastStatus := status)
  }

  /** One step of the budget: an attempt of `acquire` between two sleeps, or a whole other operation. */
  function Step(cfg: Configuration, w: Budget, op: Operation, nowMs: int): Budget {
    if op.Release? then
      if op.permit < |w.permits| && !w.permits[op.permit].released && w.permits[op.permit].origin in w.buckets then
        var p := w.permits[op.permit];
        var b := w.buckets[p.origin];
        Budget(w.buckets[p.origin := b.(inflight := Max(0, b.inflight - 1))],
               w.permits[op.permit := p.(released := true)])
      else w
    else if Refused(op) then w
    else
      Budget(w.buckets[op.origin := BucketAfter(cfg, BucketOf(cfg, w, op.origin, nowMs), op, nowMs)],
             if Grants(cfg, w, op, nowMs) then w.permits + [Permit(op.origin, nowMs, false)] else w.permits)
  }

  /** The budget as the source keeps it. Origins are canonical already. */
  class InMemoryOriginNetworkBudget {
    const cfg: Configuration
    var states: map<string, Bucket>
    var permits: seq<Permit>

    constructor (cfg: Configuration)
      requires ValidConfiguration(cfg)
      ensures this.cfg == cfg && Value() == EMPTY
    {
      this.cfg := cfg;
      states, permits := map[], [];
    }

    function Value(): Budget
      reads this
    {
      Budget(states, permits)
    }

    method State(origin: string, nowMs: int) returns (state: Bucket)
      modifies this
      ensures state == BucketOf(cfg, old(Value()), origin, nowMs)
      ensures Value() == Put(old(Value()), origin, state)
    {
      if origin in states {
        state := states[origin];
        assert states == states[origin := state];
      } else {
        state := Create(cfg, nowMs);
        states := states[origin := state];
      }
    }

    /** One pass of the loop in `acquire`: either a permit, or how long to sleep. */
    method TryAcquire(origin: string, nowMs: int) returns (permit: Option<nat>, sleepMs: real)
      requires ValidConfiguration(cfg)
      modifies this
      ensures Value() == Step(cfg, old(Value()), Acquire(origin), nowMs)
      ensures permit.Some? == Grants(cfg, old(Value()), Acquire(origin), nowMs)
      ensures permit.Some? ==> permit.value == |old(permits)|
      ensures permit.None? ==> sleepMs > 0.0
      ensures permit.None? ==>
        sleepMs == WaitMilliseconds(cfg, Refill(cfg, BucketOf(cfg, old(Value()), origin, nowMs), nowMs), nowMs)
    {
      var state := State(origin, nowMs);
      state := Refill(cfg, state, nowMs);
      states := states[origin := state];
      var wait := WaitMilliseconds(cfg, state, nowMs);
      NoWaitMeansAdmitted(cfg, state, nowMs);
      if wait <= 0.0 {
        if cfg.perOriginRequestsPerSecond.Some? {
          state := state.(tokens := state.tokens - TOKEN);
        }
        state := state.(inflight := state.inflight + 1);
        states := states[origin := state];
        permits := permits + [Permit(origin, nowMs, false)];
        return Some(|permits| - 1), 0.0;
      }
      return None, wait;
    }

    method ReleasePermit(permit: nat)
      requires permit < |permits| && permits[permit].origin in states
      modifies this
      ensures Value() == Step(cfg, old(Value()), Release(permit), 0)
    {
      var p := permits[permit];
      if !p.released {
        permits := permits[permit := p.(released := true)];
        var state := states[p.origin];
        states := states[p.origin := state.(inflight := Max(0, state.inflight - 1))];
      }
    }

    method IsPaused(origin: string, nowMs: int) returns (paused: bool)
      modifies this
      ensures Value() == Step(cfg, old(Value()), AskPaused(origin), nowMs)
      ensures paused == Paused(cfg, old(Value()), origin, nowMs)
    {
      var state := State(origin, nowMs);
      paused := state.cooldownUntilMs.Some? && state.cooldownUntilMs.value > nowMs;
    }

    method TakeSnapshot(origin: string, nowMs: int) returns (state: Bucket)
      modifies this
      ensures Value() == Step(cfg, old(Value()), Snapshot(origin), nowMs)
      ensures state == Value().buckets[origin]
    {
      state := State(origin, nowMs);
      state := Refill(cfg, state, nowMs);
      if state.cooldownUntilMs.Some? && state.cooldownUntilMs.value <= nowMs {
        state := state.(cooldownUntilMs := None);
      }
      states := states[origin := state];
    }

    /** `None` when the status is refused; otherwise the snapshot that is also handed to `onRateLimit`. */
    method RecordResponse(origin: string, status: int, retryAfter: RetryAfter,
                          nowMs: int) returns (seen: Option<Bucket>)
      modifies this
      ensures Value() == Step(cfg, old(Value()), Respond(origin, status, retryAfter), nowMs)
      ensures seen.Some? == ValidStatus(status)
      ensures seen.Some? ==> seen.value == Value().buckets[origin]
    {
      if !(100 <= status <= 599) {
        return None;
      }
      var state := State(origin, nowMs);
      state := state.(lastStatus := Some(status));
      var delayMs: Option<int> := None;
      var cooldownMaximumMs := Min(cfg.retryAfterMaximumMs, cfg.originCooldownMaximumMs);
      if status == 429 {
        delayMs := if cfg.respectRetryAfter then RetryDelay(retryAfter, nowMs, cooldownMaximumMs) else None;
        if delayMs.None? {
          delayMs := Some(Min(cfg.originCooldownFallbackMs, cfg.originCooldownMaximumMs));
        }
      } else if status == 503 {
        delayMs := Some(Min(cfg.temporaryErrorCooldownMs, cfg.originCooldownMaximumMs));
      }
      assert delayMs == ResponseDelay(cfg, status, retryAfter, nowMs);
      if delayMs.Some? && delayMs.value > 0 {
        var current := if state.cooldownUntilMs.Some? then state.cooldownUntilMs.value else 0;
        state := state.(cooldownUntilMs := Some(Max(current, nowMs + delayMs.value)));
      }
      states := states[origin := state];
      assert state == Observe(cfg, BucketOf(cfg, old(Value()), origin, nowMs), status, retryAfter, nowMs);
      var snapshot := TakeSnapshot(origin, nowMs);
      seen := Some(snapshot);
    }

    method RestoreCooldown(origin: string, untilMs: int, status: Option<int>, nowMs: int) returns (ok: bool)
      modifies this
      ensures Value() == Step(cfg, old(Value()), Restore(origin, untilMs, status), nowMs)
      ensures ok == (untilMs >= 0)
    {
      if untilMs < 0 {
        return false;
      }
      var state := State(origin, nowMs);
      states := states[origin := state.(cooldownUntilMs := Some(untilMs), lastStatus := status)];
      return true;
    }
  }

  predicate Paused(cfg: Configuration, w: Budget, origin: string, nowMs: int) {
    InCooldown(BucketOf(cfg, w, origin, nowMs).cooldownUntilMs, nowMs)
  }

  // ----- Runs -----

  datatype Event = Event(atMs: int, op: Operation)

  predicate ClockMonotone(run: seq<Event>) {
    forall i, j :: 0 <= i <= j < |run| ==> run[i].atMs <= run[j].atMs
  }

  /** The budget after the first `n` events of a run that starts with no bucket. */
  function After(cfg: Configuration, run: seq<Event>, n: nat): Budget
    requires n <= |run|
  {
    if n == 0 then EMPTY else Step(cfg, After(cfg, run, n - 1), run[n - 1].op, run[n - 1].atMs)
  }

  predicate GrantedAt(cfg: Configuration, run: seq<Event>, k: nat, origin: string)
    requires k < |run|
  {
    Grants(cfg, After(cfg, run, k), run[k].op, run[k].atMs) && run[k].op.origin == origin
  }

  /** The permits granted for `origin` by the events from position `i` up to, not including, `j`. */
  function Granted(cfg: Configuration, run: seq<Event>, i: nat, j: nat, origin: string): nat
    requires i <= j <= |run|
  {
    if i == j then 0 else Granted(cfg, run, i, j - 1, origin) + (if GrantedAt(cfg, run, j - 1, origin) then 1 else 0)
  }

  // ----- In-flight accounting -----

  function Unreleased(permits: seq<Permit>, n: nat, origin: string): nat
    requires n <= |permits|
  {
    if n == 0 then 0
    else Unreleased(permits, n - 1, origin) + (if permits[n - 1].origin == origin && !permits[n - 1].released then 1
                                               else 0)
  }

  ghost predicate Accounted(cfg: Configuration, w: Budget) {
    && (forall o :: o in w.buckets ==>
          && w.buckets[o].inflight == Unreleased(w.permits, |w.permits|, o)
          && w.buckets[o].inflight <= cfg.perOriginMaxInflightRequests
          && 0 <= w.buckets[o].tokens <= Full(cfg))
    && (forall p :: 0 <= p < |w.permits| ==> w.permits[p].origin in w.buckets)
    && (forall o :: o !in w.buckets ==> Unreleased(w.permits, |w.permits|, o) == 0)
  }

  lemma {:induction false} UnreleasedAppend(permits: seq<Permit>, n: nat, p: Permit, origin: string)
    requires n <= |permits|
    ensures Unreleased(permits + [p], n, origin) == Unreleased(permits, n, origin)
  {
    if n > 0 {
      UnreleasedAppend(permits, n - 1, p, origin);
    }
  }

  lemma {:induction false} UnreleasedRelease(permits: seq<Permit>, n: nat, p: nat, origin: string)
    requires p < |permits| && n <= |permits| && !permits[p].released
    ensures Unreleased(permits[p := permits[p].(released := true)], n, origin)
         == Unreleased(permits, n, origin) - (if p < n && permits[p].origin == origin then 1 else 0)
  {
    if n > 0 {
      UnreleasedRelease(permits, n - 1, p, origin);
    }
  }

  lemma RefillWithin(cfg: Configuration, b: Bucket, nowMs: int)
    requires ValidConfiguration(cfg) && 0 <= b.tokens <= Full(cfg)
    ensures 0 <= Refill(cfg, b, nowMs).tokens <= Full(cfg)
  {
    if cfg.perOriginRequestsPerSecond.Some? && nowMs > b.lastRefillMs {
      ProductNonNegative(nowMs - b.lastRefillMs, cfg.perOriginRequestsPerSecond.value);
    }
  }

  lemma ProductNonNegative(a: nat, b: nat)
    ensures a * b >= 0
  {
  }

  lemma BucketAfterWithin(cfg: Configuration, b: Bucket, op: Operation, nowMs: int)
    requires ValidConfiguration(cfg) && !op.Release? && 0 <= b.tokens <= Full(cfg)
    requires b.inflight <= cfg.perOriginMaxInflightRequests
    ensures var b' := BucketAfter(cfg, b, op, nowMs);
            var granted := op.Acquire? && Admits(cfg, Refill(cfg, b, nowMs), nowMs);
            && 0 <= b'.tokens <= Full(cfg)
            && b'.inflight == b.inflight + (if granted then 1 else 0) <= cfg.perOriginMaxInflightRequests
  {
    RefillWithin(cfg, b, nowMs);
    if op.Respond? {
      RefillWithin(cfg, Observe(cfg, b, op.status, op.retryAfter, nowMs), nowMs);
    }
  }

  lemma StepAccounted(cfg: Configuration, w: Budget, op: Operation, nowMs: int)
    requires ValidConfiguration(cfg) && Accounted(cfg, w)
    ensures Accounted(cfg, Step(cfg, w, op, nowMs))
  {
    if op.Release? {
      ReleaseAccounted(cfg, w, op.permit, nowMs);
    } else if !Refused(op) {
      TouchAccounted(cfg, w, op, nowMs);
    }
  }

  lemma TouchAccounted(cfg: Configuration, w: Budget, op: Operation, nowMs: int)
    requires ValidConfiguration(cfg) && Accounted(cfg, w) && !op.Release? && !Refused(op)
    ensures Accounted(cfg, Step(cfg, w, op, nowMs))
  {
    BucketAfterWithin(cfg, BucketOf(cfg, w, op.origin, nowMs), op, nowMs);
    hide BucketAfter, Refill, Admits;
    if Grants(cfg, w, op, nowMs) {
      GrantCounted(w.permits, Permit(op.origin, nowMs, false));
    }
  }

  lemma GrantCounted(permits: seq<Permit>, p: Permit)
    requires !p.released
    ensures forall o :: Unreleased(permits + [p], |permits| + 1, o)
                     == Unreleased(permits, |permits|, o) + (if p.origin == o then 1 else 0)
  {
    forall o ensures Unreleased(permits + [p], |permits|, o) == Unreleased(permits, |permits|, o) {
      UnreleasedAppend(permits, |permits|, p, o);
    }
  }

  lemma ReleaseAccounted(cfg: Configuration, w: Budget, p: nat, nowMs: int)
    requires ValidConfiguration(cfg) && Accounted(cfg, w)
    ensures Accounted(cfg, Step(cfg, w, Release(p), nowMs))
  {
    if p < |w.permits| && !w.permits[p].released {
      UnreleasedPositive(w.permits, |w.permits|, p);
      forall o ensures Unreleased(w.permits[p := w.permits[p].(released := true)], |w.permits|, o)
                    == Unreleased(w.permits, |w.permits|, o) - (if w.permits[p].origin == o then 1 else 0)
      {
        UnreleasedRelease(w.permits, |w.permits|, p, o);
      }
    }
  }

  /** In every reachable state, each origin's `inflight` is the number of its unreleased permits and is
      within the configured maximum, so the clamp in `release` never fires. */
  lemma {:induction false} InflightIsUnreleased(cfg: Configuration, run: seq<Event>, n: nat)
    requires ValidConfiguration(cfg) && n <= |run|
    ensures Accounted(cfg, After(cfg, run, n))
  {
    if n > 0 {
      InflightIsUnreleased(cfg, run, n - 1);
      StepAccounted(cfg, After(cfg, run, n - 1), run[n - 1].op, run[n - 1].atMs);
    }
  }

  lemma {:induction false} UnreleasedPositive(permits: seq<Permit>, n: nat, p: nat)
    requires p < n <= |permits| && !permits[p].released
    ensures Unreleased(permits, n, permits[p].origin) >= 1
  {
    if p < n - 1 {
      UnreleasedPositive(permits, n - 1, p);
    }
  }

  lemma ReleaseNeverClamps(cfg: Configuration, run: seq<Event>, n: nat, p: nat)
    requires ValidConfiguration(cfg) && n <= |run|
    requires p < |After(cfg, run, n).permits| && !After(cfg, run, n).permits[p].released
    ensures var w := After(cfg, run, n);
            w.permits[p].origin in w.buckets && w.buckets[w.permits[p].origin].inflight >= 1
  {
    InflightIsUnreleased(cfg, run, n);
    var w := After(cfg, run, n);
    UnreleasedPositive(w.permits, |w.permits|, p);
  }

  // ----- The token-bucket bound -----

  /** The tokens a bucket would hold if it were refilled at `s`, when it was last refilled before `s`. */
  function LevelAt(cfg: Configuration, b: Bucket, s: int): int
    requires cfg.perOriginRequestsPerSecond.Some?
  {
    if b.lastRefillMs >= s then b.tokens
    else Min(Full(cfg), b.tokens + (s - b.lastRefillMs) * cfg.perOriginRequestsPerSecond.value)
  }

  /** What `granted` permits since `s` have left: the grants and the level are paid for by one full
      bucket and the refills since `s`. */
  predicate Paid(cfg: Configuration, b: Bucket, s: int, granted: nat)
    requires cfg.perOriginRequestsPerSecond.Some?
  {
    TOKEN * granted + LevelAt(cfg, b, s)
      <= Full(cfg) + Max(0, b.lastRefillMs - s) * cfg.perOriginRequestsPerSecond.value
  }

  lemma RefillPaid(cfg: Configuration, b: Bucket, s: int, granted: nat, nowMs: int)
    requires ValidConfiguration(cfg) && cfg.perOriginRequestsPerSecond.Some? && nowMs >= s
    requires Paid(cfg, b, s, granted)
    ensures Paid(cfg, Refill(cfg, b, nowMs), s, granted)
    ensures Refill(cfg, b, nowMs).lastRefillMs >= s
  {
    var rate := cfg.perOriginRequestsPerSecond.value;
    if nowMs > b.lastRefillMs {
      if b.lastRefillMs < s {
        Distribute(nowMs - s, s - b.lastRefillMs, rate);
        ProductNonNegative(nowMs - s, rate);
      } else {
        Distribute(nowMs - b.lastRefillMs, b.lastRefillMs - s, rate);
      }
    }
  }

  lemma Distribute(a: int, b: int, rate: int)
    ensures (a + b) * rate == a * rate + b * rate
  {
  }

  lemma BucketAfterPaid(cfg: Configuration, b: Bucket, op: Operation, s: int, granted: nat, nowMs: int)
    requires ValidConfiguration(cfg) && cfg.perOriginRequestsPerSecond.Some? && !op.Release? && nowMs >= s
    requires Paid(cfg, b, s, granted)
    ensures Paid(cfg, BucketAfter(cfg, b, op, nowMs), s,
                 granted + (if op.Acquire? && Admits(cfg, Refill(cfg, b, nowMs), nowMs) then 1 else 0))
  {
    RefillPaid(cfg, b, s, granted, nowMs);
    if op.Respond? {
      RefillPaid(cfg, Observe(cfg, b, op.status, op.retryAfter, nowMs), s, granted, nowMs);
    }
  }

  lemma StepPaid(cfg: Configuration, w: Budget, e: Event, origin: string, s: int, granted: nat)
    requires ValidConfiguration(cfg) && cfg.perOriginRequestsPerSecond.Some? && e.atMs >= s
    requires if origin in w.buckets then Paid(cfg, w.buckets[origin], s, granted) else granted == 0
    ensures var w' := Step(cfg, w, e.op, e.atMs);
            var granted' := granted + (if Grants(cfg, w, e.op, e.atMs) && e.op.origin == origin then 1 else 0);
            if origin in w'.buckets then Paid(cfg, w'.buckets[origin], s, granted') else granted' == 0
  {
    if !e.op.Release? && e.op.origin == origin {
      ProductNonNegative(e.atMs - s, cfg.perOriginRequestsPerSecond.value);
      BucketAfterPaid(cfg, BucketOf(cfg, w, origin, e.atMs), e.op, s, granted, e.atMs);
    }
  }

  lemma {:induction false} WindowPaid(cfg: Configuration, run: seq<Event>, i: nat, j: nat, origin: string, s: int)
    requires ValidConfiguration(cfg) && cfg.perOriginRequestsPerSecond.Some?
    requires i <= j <= |run| && forall k :: i <= k < j ==> run[k].atMs >= s
    ensures var w := After(cfg, run, j);
            var granted := Granted(cfg, run, i, j, origin);
            if origin in w.buckets then Paid(cfg, w.buckets[origin], s, granted) else granted == 0
  {
    if i < j {
      WindowPaid(cfg, run, i, j - 1, origin, s);
      StepPaid(cfg, After(cfg, run, j - 1), run[j - 1], origin, s, Granted(cfg, run, i, j - 1, origin));
    } else {
      var w := After(cfg, run, j);
      if origin in w.buckets {
        ProductNonNegative(Max(0, w.buckets[origin].lastRefillMs - s), cfg.perOriginRequestsPerSecond.value);
        InflightIsUnreleased(cfg, run, j);
      }
    }
  }

  lemma {:induction false} NoRefillAhead(cfg: Configuration, run: seq<Event>, n: nat, origin: string, t: int)
    requires n <= |run| && forall k :: 0 <= k < n ==> run[k].atMs <= t
    ensures var w := After(cfg, run, n);
            origin in w.buckets ==> w.buckets[origin].lastRefillMs <= t
  {
    if n > 0 {
      NoRefillAhead(cfg, run, n - 1, origin, t);
    }
  }

  /** Token-bucket bound: whatever the interleaving of operations on all origins, the permits granted
      for one origin within any window [s, t] number at most burstLimit + rate * (t - s) / 1000. */
  lemma TokenBucketBound(cfg: Configuration, run: seq<Event>, i: nat, j: nat, origin: string, s: int, t: int)
    requires ValidConfiguration(cfg) && cfg.perOriginRequestsPerSecond.Some? && ClockMonotone(run)
    requires i <= j <= |run| && s <= t && forall k :: i <= k < j ==> s <= run[k].atMs <= t
    ensures TOKEN * Granted(cfg, run, i, j, origin)
         <= TOKEN * cfg.burstLimit + (t - s) * cfg.perOriginRequestsPerSecond.value
  {
    var rate := cfg.perOriginRequestsPerSecond.value;
    WindowPaid(cfg, run, i, j, origin, s);
    InflightIsUnreleased(cfg, run, j);
    ProductNonNegative(t - s, rate);
    var w := After(cfg, run, j);
    if i < j && origin in w.buckets {
      var b := w.buckets[origin];
      forall k | 0 <= k < j ensures run[k].atMs <= t {
        assert run[k].atMs <= run[j - 1].atMs;
      }
      NoRefillAhead(cfg, run, j, origin, t);
      LevelNonNegative(cfg, b, s);
      ProductMonotone(Max(0, b.lastRefillMs - s), t - s, rate);
    }
  }

  lemma LevelNonNegative(cfg: Configuration, b: Bucket, s: int)
    requires ValidConfiguration(cfg) && cfg.perOriginRequestsPerSecond.Some? && 0 <= b.tokens
    ensures LevelAt(cfg, b, s) >= 0
  {
    if b.lastRefillMs < s {
      ProductNonNegative(s - b.lastRefillMs, cfg.perOriginRequestsPerSecond.value);
    }
  }

  lemma ProductMonotone(a: int, b: int, rate: nat)
    requires a <= b
    ensures a * rate <= b * rate
  {
  }

  // ----- Cooldowns -----

  /** Whether one of the events from position `i` up to `j` restores the origin's cooldown. */
  predicate Restored(run: seq<Event>, i: nat, j: nat, origin: string)
    requires i <= j <= |run|
  {
    exists k :: i <= k < j && run[k].op.Restore? && run[k].op.origin == origin
  }

  predicate CooledUntil(w: Budget, origin: string, untilMs: int) {
    && origin in w.buckets
    && w.buckets[origin].cooldownUntilMs.Some?
    && w.buckets[origin].cooldownUntilMs.value >= untilMs
  }

  lemma StepKeepsCooldown(cfg: Configuration, w: Budget, e: Event, origin: string, untilMs: int)
    requires CooledUntil(w, origin, untilMs) && e.atMs < untilMs
    requires !(e.op.Restore? && e.op.origin == origin)
    ensures CooledUntil(Step(cfg, w, e.op, e.atMs), origin, untilMs)
  {
  }

  lemma {:induction false} CooldownLasts(cfg: Configuration, run: seq<Event>, i: nat, j: nat, origin: string,
                                         untilMs: int)
    requires ClockMonotone(run) && i <= j < |run| && !Restored(run, i, j, origin)
    requires CooledUntil(After(cfg, run, i), origin, untilMs)
    requires run[j].atMs < untilMs
    ensures CooledUntil(After(cfg, run, j), origin, untilMs)
  {
    if i < j {
      assert run[j - 1].atMs <= run[j].atMs;
      CooldownLasts(cfg, run, i, j - 1, origin, untilMs);
      StepKeepsCooldown(cfg, After(cfg, run, j - 1), run[j - 1], origin, untilMs);
    }
  }

  /** Once an origin is in a cooldown until some time, no permit is granted for it before that time,
      unless the cooldown is overwritten by `restore`. */
  lemma NoGrantDuringCooldown(cfg: Configuration, run: seq<Event>, i: nat, j: nat, origin: string, untilMs: int)
    requires ClockMonotone(run) && i <= j < |run| && !Restored(run, i, j, origin)
    requires CooledUntil(After(cfg, run, i), origin, untilMs)
    requires GrantedAt(cfg, run, j, origin)
    ensures run[j].atMs >= untilMs
  {
    if run[j].atMs < untilMs {
      CooldownLasts(cfg, run, i, j, origin, untilMs);
      assert false;
    }
  }
}
