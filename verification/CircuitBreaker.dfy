/** The per-proxy half-open circuit breaker (packages/archive-core/src/scheduler.ts:347-425). */
module CircuitBreaker {
  import opened Options

  datatype BreakerState = Closed | Open | HalfOpen

  datatype BreakerConfiguration = BreakerConfiguration(
    failureThreshold: nat,
    openDurationMs: nat,
    halfOpenMaxProbes: nat)

  predicate ValidConfiguration(cfg: BreakerConfiguration) {
    cfg.failureThreshold >= 1 && cfg.openDurationMs >= 1 && cfg.halfOpenMaxProbes >= 1
  }

  datatype Circuit = Circuit(
    state: BreakerState,
    consecutiveFailures: nat,
    openedUntilMs: Option<int>,
    probeInFlight: nat)

  const FRESH := Circuit(Closed, 0, None, 0)

  /** An open circuit whose time has passed becomes half-open when it is looked at. */
  function Tick(c: Circuit, nowMs: int): Circuit {
    if c.state == Open && c.openedUntilMs.Some? && nowMs >= c.openedUntilMs.value then c.(state := HalfOpen) else c
  }

  predicate Schedulable(cfg: BreakerConfiguration, c: Circuit, nowMs: int) {
    var t := Tick(c, nowMs);
    t.state == Closed || (t.state == HalfOpen && t.probeInFlight < cfg.halfOpenMaxProbes)
  }

  /** The circuit after `beginProbe`; `Schedulable` is the answer it returns. */
  function Probed(cfg: BreakerConfiguration, c: Circuit, nowMs: int): Circuit {
    var t := Tick(c, nowMs);
    if t.state == HalfOpen && t.probeInFlight < cfg.halfOpenMaxProbes then t.(probeInFlight := t.probeInFlight + 1)
    else t
  }

  function Decrement(n: nat): nat {
    if n == 0 then 0 else n - 1
  }

  function Succeeded(c: Circuit): Circuit {
    Circuit(Closed, 0, None, if c.state == HalfOpen then Decrement(c.probeInFlight) else c.probeInFlight)
  }

  function Failed(cfg: BreakerConfiguration, c: Circuit, nowMs: int): Circuit {
    if c.state == HalfOpen then
      Circuit(Open, cfg.failureThreshold, Some(nowMs + cfg.openDurationMs), Decrement(c.probeInFlight))
    else
      var failures := c.consecutiveFailures + 1;
      if failures >= cfg.failureThreshold
      then c.(state := Open, consecutiveFailures := failures, openedUntilMs := Some(nowMs + cfg.openDurationMs))
      else c.(consecutiveFailures := failures)
  }

  function ProbeCancelled(c: Circuit): Circuit {
    if c.state == HalfOpen then c.(probeInFlight := Decrement(c.probeInFlight)) else c
  }

  /** The breaker as the source keeps it: an object whose methods update its fields. */
  class ProxyCircuitBreaker {
    const configuration: BreakerConfiguration
    var stateValue: BreakerState
    var consecutiveFailures: nat
    var openedUntilMs: Option<int>
    var probeInFlight: nat

    constructor (configuration: BreakerConfiguration)
      requires ValidConfiguration(configuration)
      ensures this.configuration == configuration && Value() == FRESH
    {
      this.configuration := configuration;
      stateValue, consecutiveFailures, openedUntilMs, probeInFlight := Closed, 0, None, 0;
    }

    function Value(): Circuit
      reads this
    {
      Circuit(stateValue, consecutiveFailures, openedUntilMs, probeInFlight)
    }

    method CanSchedule(nowMs: int) returns (can: bool)
      modifies this
      ensures Value() == Tick(old(Value()), nowMs)
      ensures can == Schedulable(configuration, old(Value()), nowMs)
    {
      if stateValue == Open && openedUntilMs.Some? && nowMs >= openedUntilMs.value {
        stateValue := HalfOpen;
      }
      can := stateValue == Closed || (stateValue == HalfOpen && probeInFlight < configuration.halfOpenMaxProbes);
    }

    method BeginProbe(nowMs: int) returns (began: bool)
      modifies this
      ensures Value() == Probed(configuration, old(Value()), nowMs)
      ensures began == Schedulable(configuration, old(Value()), nowMs)
    {
      var can := CanSchedule(nowMs);
      if !can {
        return false;
      }
      if stateValue == HalfOpen {
        if probeInFlight >= configuration.halfOpenMaxProbes {
          return false;
        }
        probeInFlight := probeInFlight + 1;
      }
      return true;
    }

    method RecordSuccess()
      modifies this
      ensures Value() == Succeeded(old(Value()))
    {
      if stateValue == HalfOpen {
        probeInFlight := Decrement(probeInFlight);
      }
      stateValue, consecutiveFailures, openedUntilMs := Closed, 0, None;
    }

    method RecordFailure(nowMs: int)
      modifies this
      ensures Value() == Failed(configuration, old(Value()), nowMs)
    {
      if stateValue == HalfOpen {
        probeInFlight := Decrement(probeInFlight);
        stateValue := Open;
        openedUntilMs := Some(nowMs + configuration.openDurationMs);
        consecutiveFailures := configuration.failureThreshold;
        return;
      }
      consecutiveFailures := consecutiveFailures + 1;
      if consecutiveFailures >= configuration.failureThreshold {
        stateValue := Open;
        openedUntilMs := Some(nowMs + configuration.openDurationMs);
      }
    }

    method CancelProbe()
      modifies this
      ensures Value() == ProbeCancelled(old(Value()))
    {
      if stateValue == HalfOpen {
        probeInFlight := Decrement(probeInFlight);
      }
    }
  }

  // ----- The accounting of probes -----

  /** What every operation keeps, `live` being the half-open reservations that have not been released:
      the counter is within the maximum, and outside the half-open state, or with no live probe, there
      is room for one more. */
  predicate Accounted(cfg: BreakerConfiguration, c: Circuit, live: nat) {
    && ValidConfiguration(cfg)
    && c.probeInFlight <= cfg.halfOpenMaxProbes
    && c.probeInFlight <= cfg.halfOpenMaxProbes - 1 + live
    && (c.state != HalfOpen ==> c.probeInFlight <= cfg.halfOpenMaxProbes - 1)
    && (c.state == Open ==> c.openedUntilMs.Some?)
  }

  /** Looking at a circuit and beginning a probe on it keep the accounting; the reservation is a
      half-open one exactly when the circuit is half-open at that moment. */
  lemma BeginProbeAccounted(cfg: BreakerConfiguration, c: Circuit, live: nat, nowMs: int)
    requires Accounted(cfg, c, live)
    ensures Accounted(cfg, Tick(c, nowMs), live)
    ensures Schedulable(cfg, c, nowMs) ==>
      Accounted(cfg, Probed(cfg, c, nowMs), live + (if Tick(c, nowMs).state == HalfOpen then 1 else 0))
  {
  }

  datatype Outcome = Completed | ProxyFailed | OtherwiseFailed

  /** What a released reservation does to the circuit (scheduler.ts:706-714). */
  function Settle(cfg: BreakerConfiguration, c: Circuit, outcome: Outcome, halfOpenProbe: bool, atMs: int): Circuit {
    match outcome
    case Completed => Succeeded(c)
    case ProxyFailed => Failed(cfg, c, atMs)
    case OtherwiseFailed => if halfOpenProbe then ProbeCancelled(c) else c
  }

  lemma SettleAccounted(cfg: BreakerConfiguration, c: Circuit, live: nat, outcome: Outcome, halfOpenProbe: bool,
                        atMs: int)
    requires Accounted(cfg, c, live) && (halfOpenProbe ==> live >= 1)
    ensures Accounted(cfg, Settle(cfg, c, outcome, halfOpenProbe, atMs), if halfOpenProbe then live - 1 else live)
  {
  }

  // ----- How many half-open reservations are alive -----

  /** As long as the counter counts every live half-open reservation, an admitted probe keeps it so, and
      the live ones are within the maximum. */
  lemma ProbeStaysCounted(cfg: BreakerConfiguration, c: Circuit, live: nat, nowMs: int)
    requires Accounted(cfg, c, live) && live <= c.probeInFlight
    ensures live <= Tick(c, nowMs).probeInFlight
    ensures Schedulable(cfg, c, nowMs) ==>
      live + (if Tick(c, nowMs).state == HalfOpen then 1
              else 0) <= Probed(cfg, c, nowMs).probeInFlight <= cfg.halfOpenMaxProbes
  {
  }

  /** A reservation that is not a half-open one takes the place of a probe off the counter: it completes, or
      its proxy fails, while the circuit is half-open and every counted probe is alive. */
  predicate Undercounts(c: Circuit, live: nat, outcome: Outcome, halfOpenProbe: bool) {
    c.state == HalfOpen && !halfOpenProbe && outcome != OtherwiseFailed && live == c.probeInFlight > 0
  }

  /** That is the only way in which the counter stops counting every live half-open reservation. */
  lemma SettleStaysCountedExactly(cfg: BreakerConfiguration, c: Circuit, live: nat, outcome: Outcome,
                                  halfOpenProbe: bool, atMs: int)
    requires Accounted(cfg, c, live) && live <= c.probeInFlight && (halfOpenProbe ==> live >= 1)
    ensures (if halfOpenProbe then live - 1 else live) <= Settle(cfg, c, outcome, halfOpenProbe, atMs).probeInFlight
      <==> !Undercounts(c, live, outcome, halfOpenProbe)
  {
  }

  /** No wedge: with no live probe, a circuit whose open time has passed admits work. */
  lemma NotWedged(cfg: BreakerConfiguration, c: Circuit, nowMs: int)
    requires Accounted(cfg, c, 0)
    ensures Schedulable(cfg, c, nowMs) <==> (c.state == Open ==> nowMs >= c.openedUntilMs.value)
  {
  }

  /** Nothing between takes an admitted proxy back: admitted at one clock reading, the circuit is no
      longer open, so `beginProbe` succeeds at any other reading and in the same state. */
  lemma AdmittedStaysAdmitted(cfg: BreakerConfiguration, c: Circuit, t1: int, t2: int, t3: int)
    requires Schedulable(cfg, c, t1)
    ensures Tick(Tick(c, t1), t2) == Tick(c, t1)
    ensures Schedulable(cfg, Tick(c, t1), t3)
  {
  }

  // ----- When a circuit opens, and for how long -----

  /** A closed circuit after the failures of its proxy at these times, one after another. */
  function AfterFailures(cfg: BreakerConfiguration, times: seq<int>): Circuit {
    if times == [] then FRESH else Failed(cfg, AfterFailures(cfg, times[..|times| - 1]), times[|times| - 1])
  }

  /** The threshold of consecutive failures opens the circuit, and it stays open for the configured time after the
      last one. */
  lemma {:induction false} OpensAtTheThreshold(cfg: BreakerConfiguration, times: seq<int>)
    requires ValidConfiguration(cfg)
    ensures var c := AfterFailures(cfg, times);
            && c.consecutiveFailures == |times| && c.probeInFlight == 0
            && (|times| < cfg.failureThreshold ==> c.state == Closed && c.openedUntilMs.None?)
            && (|times| >= cfg.failureThreshold ==>
                  c.state == Open && c.openedUntilMs == Some(times[|times| - 1] + cfg.openDurationMs))
  {
    if times != [] {
      OpensAtTheThreshold(cfg, times[..|times| - 1]);
    }
  }

  /** So it refuses work exactly when there were as many failures as the threshold and the open time is not over; a
      success in between starts the count anew. */
  lemma RefusesExactly(cfg: BreakerConfiguration, times: seq<int>, nowMs: int)
    requires ValidConfiguration(cfg)
    ensures var c := AfterFailures(cfg, times);
            && (!Schedulable(cfg, c, nowMs) <==>
                  |times| >= cfg.failureThreshold && nowMs < times[|times| - 1] + cfg.openDurationMs)
            && Succeeded(c) == FRESH
  {
    OpensAtTheThreshold(cfg, times);
  }
}
