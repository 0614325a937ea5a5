/** How many half-open reservations of a proxy are alive at once (packages/archive-core/src/scheduler.ts:375-419
    and 670-719): at most the configured maximum, as long as no other reservation takes a probe off the counter. */
module PoolProbes {
  import opened Options
  import opened Proxies
  import opened PoolConfiguration
  import opened CircuitBreaker
  import opened WorkerPool
  import opened PoolInvariants

  /** The counter of a proxy counts every live half-open reservation on it. */
  predicate Counted(pool: Pool, id: ProxyId) {
    |ProbesOn(pool.workers, id)| <= StateOf(pool.proxies, id).circuit.probeInFlight
  }

  /** A release takes the place of a live probe of the proxy off its counter. */
  predicate Stray(pool: Pool, m: Move, id: ProxyId) {
    && m.ReleaseWorker? && m.workerId in pool.workers && Uses(pool.workers[m.workerId], id)
    && Undercounts(StateOf(pool.proxies, id).circuit, |ProbesOn(pool.workers, id)|, m.outcome,
                   pool.workers[m.workerId].halfOpenProbe)
  }

  lemma CountedIsBounded(z: Settings, catalog: Catalog, pool: Pool, id: ProxyId)
    requires Consistent(z, catalog, pool) && Counted(pool, id)
    ensures |ProbesOn(pool.workers, id)| <= z.breaker.halfOpenMaxProbes
  {
    assert ProxyLoad(z, catalog, pool, id);
  }

  lemma ReleaseCountedExactly(z: Settings, catalog: Catalog, pool: Pool, m: Move, id: ProxyId)
    requires Consistent(z, catalog, pool) && Counted(pool, id) && m.ReleaseWorker?
    ensures Counted(Next(z, pool, m), id) <==> !Stray(pool, m, id)
  {
    var w := m.workerId;
    if w in pool.workers {
      var r := pool.workers[w];
      assert ProxyLoad(z, catalog, pool, id);
      RemoveWorker(pool.workers, w, ByProbe(id));
      if Uses(r, id) {
        if r.halfOpenProbe {
          assert w in ProbesOn(pool.workers, id);
        }
        SettleStaysCountedExactly(z.breaker, StateOf(pool.proxies, id).circuit, |ProbesOn(pool.workers, id)|, m.outcome,
                                  r.halfOpenProbe, m.atMs);
      }
    }
  }

  lemma SelectionCounted(z: Settings, catalog: Catalog, pool: Pool, offer: Offer, requested: Option<ProxyId>,
                         id: ProxyId)
    requires ValidSettings(z) && ProxyLoad(z, catalog, pool, id) && Counted(pool, id)
    ensures var s := SelectFrom(z, pool.proxies, offer, requested);
            |ProbesOn(pool.workers, id)| + (if s.proxy.Some? && s.proxy.value.id == id && s.halfOpenProbe then 1 else 0)
            <= StateOf(s.proxies, id).circuit.probeInFlight
  {
    var s := SelectFrom(z, pool.proxies, offer, requested);
    SelectsWhenUsable(z, pool.proxies, offer, requested);
    assert SelectionEffect(z, pool.proxies, offer, requested, s, id);
    hide SelectFrom;
    ProbeStaysCounted(z.breaker, StateOf(pool.proxies, id).circuit, |ProbesOn(pool.workers, id)|, offer.eligibleMs);
  }

  lemma StartCounted(pool: Pool, proxies: ProxyStates, r: Reservation, id: ProxyId)
    requires r.workerId !in pool.workers
    requires |ProbesOn(pool.workers, id)| + (if Uses(r, id) && r.halfOpenProbe then 1 else 0)
          <= StateOf(proxies, id).circuit.probeInFlight
    ensures Counted(Start(pool, proxies, r), id)
  {
    AddWorker(pool.workers, r, ByProbe(id));
  }

  lemma ReserveCounted(z: Settings, catalog: Catalog, pool: Pool, m: Move, id: ProxyId)
    requires Consistent(z, catalog, pool) && Counted(pool, id) && m.TryReserve?
    ensures Counted(Next(z, pool, m), id)
  {
    ConsistentParts(z, catalog, pool, id);
    SelectionCounted(z, catalog, pool, m.offer, Requested(m.job), id);
    hide Consistent, SelectFrom, Start, ProbesOn, ProxyLoad;
    var (after, answer) := Reserve(z, pool, m.paused, m.workerId, m.idValid, m.job, m.offer);
    if answer.Granted? {
      var s := SelectFrom(z, pool.proxies, m.offer, Requested(m.job));
      StartCounted(pool, if z.cfg.connectionMode == Direct then pool.proxies else s.proxies, answer.reservation, id);
    }
  }

  lemma ConsistentParts(z: Settings, catalog: Catalog, pool: Pool, id: ProxyId)
    requires Consistent(z, catalog, pool)
    ensures ValidSettings(z) && ProxyLoad(z, catalog, pool, id)
  {
  }

  /** One move keeps every live probe counted exactly when it is not a stray release. */
  lemma NextCountedExactly(z: Settings, catalog: Catalog, pool: Pool, m: Move, id: ProxyId)
    requires Consistent(z, catalog, pool) && Counted(pool, id)
    ensures Counted(Next(z, pool, m), id) <==> !Stray(pool, m, id)
  {
    hide Consistent, Next, Stray;
    if m.TryReserve? {
      ReserveCounted(z, catalog, pool, m, id);
      ReservingIsNotStray(pool, m, id);
    } else {
      ReleaseCountedExactly(z, catalog, pool, m, id);
    }
  }

  lemma ReservingIsNotStray(pool: Pool, m: Move, id: ProxyId)
    requires m.TryReserve?
    ensures !Stray(pool, m, id)
  {
  }

  lemma NothingIsCounted(id: ProxyId)
    ensures Counted(EMPTY, id)
  {
    assert ProbesOn(EMPTY.workers, id) == {};
  }

  /** Over every run without a stray release on the proxy, its live half-open reservations are all counted,
      and are at most `halfOpenMaxProbes`. */
  lemma {:induction false} ProbesWithinMaximum(z: Settings, catalog: Catalog, moves: seq<Move>, n: nat, id: ProxyId)
    requires ValidSettings(z) && n <= |moves| && forall i :: 0 <= i < |moves| ==> FromRun(catalog, moves[i])
    requires forall k :: 0 <= k < n ==> !Stray(PoolInvariants.After(z, moves, k), moves[k], id)
    ensures Counted(PoolInvariants.After(z, moves, n), id)
    ensures |ProbesOn(PoolInvariants.After(z, moves, n).workers, id)| <= z.breaker.halfOpenMaxProbes
  {
    hide Consistent, Next, Stray, Counted, ProbesOn, FromRun;
    LoadsAreLiveReservations(z, catalog, moves, n);
    if n == 0 {
      NothingIsCounted(id);
    } else {
      ProbesWithinMaximum(z, catalog, moves, n - 1, id);
      LoadsAreLiveReservations(z, catalog, moves, n - 1);
      NextCountedExactly(z, catalog, PoolInvariants.After(z, moves, n - 1), moves[n - 1], id);
    }
    CountedIsBounded(z, catalog, PoolInvariants.After(z, moves, n), id);
  }

  // ----- A run with more live probes than the maximum -----

  const SOLE := ProxyMetadata(0, 1, 0, 256, true, Healthy, None, false, true)

  const ONE_PROBE := Settings(
    Configuration(256, 256, 256, 1, None, 1, false, 0, 0, 0, 0, LeastLoaded, ProxyPool),
    BreakerConfiguration(1, 10, 1))

  function Take(w: nat, atMs: int): Move {
    TryReserve(false, w, true, Job("", "", None, None), Offer([SOLE], {}, atMs, atMs, atMs, atMs))
  }

  function Held(w: nat, atMs: int, halfOpenProbe: bool): Reservation {
    Reservation(w, Job("", "", None, None), Some(SOLE), atMs, halfOpenProbe)
  }

  /** A pool with these workers, all of them on the one proxy, whose circuit is `c`. */
  predicate HeldBy(pool: Pool, workers: map<nat, Reservation>, c: Circuit) {
    && pool.workers == workers && StateOf(pool.proxies, SOLE.id).circuit == c
    && StateOf(pool.proxies, SOLE.id).activeWorkers == |workers| && PagesOf(pool, "") == |workers|
    && forall w :: w in workers ==>
          workers[w].workerId == w && workers[w].proxy == Some(SOLE) && workers[w].job.origin == ""
  }

  lemma SoleIsSelected(pool: Pool, workers: map<nat, Reservation>, c: Circuit, w: nat, atMs: int)
    requires HeldBy(pool, workers, c) && |workers| < 256 && Schedulable(ONE_PROBE.breaker, c, atMs)
    ensures var s := SelectFrom(ONE_PROBE, pool.proxies, Take(w, atMs).offer, None);
            && s.proxy == Some(SOLE) && s.halfOpenProbe == (Tick(c, atMs).state == HalfOpen)
            && StateOf(s.proxies, SOLE.id).circuit == Probed(ONE_PROBE.breaker, c, atMs)
            && StateOf(s.proxies, SOLE.id).activeWorkers == |workers|
  {
    hide SelectFrom;
    var offer := Take(w, atMs).offer;
    assert SOLE in offer.proxies && Usable(ONE_PROBE, pool.proxies, offer, None, SOLE);
    SelectsWhenUsable(ONE_PROBE, pool.proxies, offer, None);
    assert SelectionEffect(ONE_PROBE, pool.proxies, offer, None,
                           SelectFrom(ONE_PROBE, pool.proxies, offer, None), SOLE.id);
  }

  lemma TakeGives(pool: Pool, workers: map<nat, Reservation>, c: Circuit, w: nat, atMs: int)
    requires HeldBy(pool, workers, c) && w !in workers && |workers| < 256 && Schedulable(ONE_PROBE.breaker, c, atMs)
    ensures HeldBy(Next(ONE_PROBE, pool, Take(w, atMs)),
                   workers[w := Held(w, atMs, Tick(c, atMs).state == HalfOpen)], Probed(ONE_PROBE.breaker, c, atMs))
  {
    SoleIsSelected(pool, workers, c, w, atMs);
    hide SelectFrom, SelectionEffect, Schedulable, Probed, Tick;
  }

  lemma GiveBackGives(pool: Pool, workers: map<nat, Reservation>, c: Circuit, w: nat, outcome: Outcome, atMs: int)
    requires HeldBy(pool, workers, c) && w in workers
    ensures HeldBy(Next(ONE_PROBE, pool, ReleaseWorker(w, outcome, atMs)),
                   workers - {w}, CircuitBreaker.Settle(ONE_PROBE.breaker, c, outcome, workers[w].halfOpenProbe, atMs))
  {
    assert |workers - {w}| == |workers| - 1 by {
      assert workers.Keys == (workers - {w}).Keys + {w};
    }
  }

  /** Worker 1 fails and the circuit opens; worker 4 probes it; worker 2 completes under that probe and worker 3
      fails, so that worker 5 probes it as well. */
  const TWO_PROBES: seq<Move> := [
    Take(1, 0), Take(2, 0), Take(3, 0), ReleaseWorker(1, ProxyFailed, 0),
    Take(4, 10), ReleaseWorker(2, Completed, 11), ReleaseWorker(3, ProxyFailed, 12), Take(5, 22)]

  function PoolAt(k: nat): Pool
    requires k <= 8
  {
    PoolInvariants.After(ONE_PROBE, TWO_PROBES, k)
  }

  const OPENED := Circuit(Open, 1, Some(10), 0)
  const PROBING := Circuit(HalfOpen, 1, Some(10), 1)
  const REOPENED := Circuit(Open, 1, Some(22), 0)
  const WAITING := map[2 := Held(2, 0, false), 3 := Held(3, 0, false)]
  const PROBED := WAITING[4 := Held(4, 10, true)]
  const LONE_PROBE := map[4 := Held(4, 10, true)]

  lemma NothingIsHeld()
    ensures HeldBy(PoolAt(0), map[], FRESH)
  {
  }

  lemma FirstFailure()
    ensures HeldBy(PoolAt(4), WAITING, OPENED)
  {
    hide HeldBy, Next;
    NothingIsHeld();
    TakeGives(PoolAt(0), map[], FRESH, 1, 0);
    var w1 := map[1 := Held(1, 0, false)];
    TakeGives(PoolAt(1), w1, FRESH, 2, 0);
    var w2 := w1[2 := Held(2, 0, false)];
    TakeGives(PoolAt(2), w2, FRESH, 3, 0);
    var w3 := w2[3 := Held(3, 0, false)];
    GiveBackGives(PoolAt(3), w3, FRESH, 1, ProxyFailed, 0);
    assert w3 - {1} == WAITING;
  }

  lemma FirstProbe()
    ensures HeldBy(PoolAt(5), PROBED, PROBING)
  {
    hide HeldBy, Next;
    FirstFailure();
    TakeGives(PoolAt(4), WAITING, OPENED, 4, 10);
  }

  lemma SecondFailure()
    ensures HeldBy(PoolAt(7), LONE_PROBE, REOPENED)
  {
    hide HeldBy, Next;
    FirstProbe();
    GiveBackGives(PoolAt(5), PROBED, PROBING, 2, Completed, 11);
    var waiting := PROBED - {2};
    GiveBackGives(PoolAt(6), waiting, FRESH, 3, ProxyFailed, 12);
    assert waiting - {3} == LONE_PROBE;
  }

  /** The stray release is that of worker 2. */
  lemma StrayCompletion()
    ensures Stray(PoolAt(5), TWO_PROBES[5], SOLE.id)
  {
    hide Next;
    FirstProbe();
    assert ProbesOn(PROBED, SOLE.id) == {4};
  }

  /** The maximum is one, and two half-open reservations are alive. */
  lemma SecondLiveProbe()
    ensures ONE_PROBE.breaker.halfOpenMaxProbes == 1 && ProbesOn(PoolAt(8).workers, SOLE.id) == {4, 5}
  {
    hide Next;
    SecondFailure();
    TakeGives(PoolAt(7), LONE_PROBE, REOPENED, 5, 22);
    assert ProbesOn(LONE_PROBE[5 := Held(5, 22, true)], SOLE.id) == {4, 5};
  }
}
