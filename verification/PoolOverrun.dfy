/** When more half-open reservations than the configured maximum can be alive (packages/archive-core/src/scheduler.ts:
    375-419 and 670-719): exactly when a live one has been taken off the counter of its proxy. */
module PoolOverrun {
  import opened Options
  import opened Maps
  import opened Proxies
  import opened PoolConfiguration
  import opened CircuitBreaker
  import opened WorkerPool
  import opened PoolInvariants
  import opened PoolProbes

  /** The pool after some more moves. */
  function Continued(z: Settings, pool: Pool, moves: seq<Move>): Pool
    requires ValidSettings(z)
  {
    if moves == [] then pool
    else Next(z, Continued(z, pool, moves[..|moves| - 1]), moves[|moves| - 1])
  }

  lemma {:induction false} RunContinued(z: Settings, run: seq<Move>, moves: seq<Move>)
    requires ValidSettings(z)
    ensures PoolInvariants.After(z, run + moves, |run| + |moves|)
         == Continued(z, PoolInvariants.After(z, run, |run|), moves)
    decreases |moves|
  {
    hide Next;
    if moves == [] {
      assert run + moves == run;
    } else {
      var n := |moves| - 1;
      assert (run + moves)[..|run| + n] == run + moves[..n];
      RunContinued(z, run, moves[..n]);
      SameStart(z, run + moves, run + moves[..n], |run| + n);
    }
  }

  lemma {:induction false} SameStart(z: Settings, a: seq<Move>, b: seq<Move>, n: nat)
    requires ValidSettings(z) && n <= |a| && n <= |b| && a[..n] == b[..n]
    ensures PoolInvariants.After(z, a, n) == PoolInvariants.After(z, b, n)
  {
    hide Next;
    if n > 0 {
      assert a[n - 1] == a[..n][n - 1] == b[n - 1];
      assert a[..n - 1] == a[..n][..n - 1] && b[..n - 1] == b[..n][..n - 1];
      SameStart(z, a, b, n - 1);
    }
  }

  // ----- A run of moves without stray releases -----

  predicate Regular(z: Settings, catalog: Catalog, pool: Pool, moves: seq<Move>, id: ProxyId)
    requires ValidSettings(z)
  {
    forall k :: 0 <= k < |moves| ==>
      FromRun(catalog, moves[k]) && !Stray(Continued(z, pool, moves[..k]), moves[k], id)
  }

  lemma RegularStep(z: Settings, catalog: Catalog, pool: Pool, moves: seq<Move>, id: ProxyId, m: Move)
    requires ValidSettings(z) && Regular(z, catalog, pool, moves, id)
    requires FromRun(catalog, m) && !Stray(Continued(z, pool, moves), m, id)
    ensures Regular(z, catalog, pool, moves + [m], id)
    ensures Continued(z, pool, moves + [m]) == Next(z, Continued(z, pool, moves), m)
  {
    hide Next, Stray, FromRun;
    assert (moves + [m])[..|moves|] == moves;
    forall k | 0 <= k <= |moves|
      ensures FromRun(catalog, (moves + [m])[k])
           && !Stray(Continued(z, pool, (moves + [m])[..k]), (moves + [m])[k], id)
    {
      if k < |moves| {
        assert (moves + [m])[..k] == moves[..k];
      }
    }
  }

  lemma RegularPart(z: Settings, catalog: Catalog, pool: Pool, moves: seq<Move>, id: ProxyId)
    requires ValidSettings(z) && Regular(z, catalog, pool, moves, id) && moves != []
    ensures var n := |moves| - 1;
            && Regular(z, catalog, pool, moves[..n], id)
            && FromRun(catalog, moves[n]) && !Stray(Continued(z, pool, moves[..n]), moves[n], id)
  {
    hide Next, Stray, FromRun, Continued;
    var n := |moves| - 1;
    forall k | 0 <= k < n
      ensures FromRun(catalog, moves[..n][k]) && !Stray(Continued(z, pool, moves[..n][..k]), moves[..n][k], id)
    {
      assert moves[..n][..k] == moves[..k];
    }
  }

  lemma {:induction false} RegularKeepsCounted(z: Settings, catalog: Catalog, pool: Pool, moves: seq<Move>, id: ProxyId)
    requires Consistent(z, catalog, pool) && Counted(pool, id) && Regular(z, catalog, pool, moves, id)
    ensures Consistent(z, catalog, Continued(z, pool, moves)) && Counted(Continued(z, pool, moves), id)
  {
    hide Consistent, Next, Stray, Counted, FromRun, Regular;
    ConsistentParts(z, catalog, pool, id);
    if moves != [] {
      var n := |moves| - 1;
      RegularPart(z, catalog, pool, moves, id);
      RegularKeepsCounted(z, catalog, pool, moves[..n], id);
      NextCountedExactly(z, catalog, Continued(z, pool, moves[..n]), moves[n], id);
      NextKeepsConsistent(z, catalog, Continued(z, pool, moves[..n]), moves[n]);
    }
  }

  // ----- One reservation on a proxy -----

  /** The proxy can be offered from some time on. */
  predicate Offerable(catalog: Catalog, p: ProxyMetadata) {
    p.id in catalog && catalog[p.id] == p && ValidMetadata(p) && p.enabled && p.health == Healthy
  }

  predicate CooledDown(p: ProxyMetadata, atMs: int) {
    p.cooldownUntilMs.Some? ==> p.cooldownUntilMs.value <= atMs
  }

  /** Room for `n` more reservations on the proxy and the origin, and in all. */
  predicate RoomFor(z: Settings, pool: Pool, p: ProxyMetadata, origin: string, n: nat) {
    && StateOf(pool.proxies, p.id).activeWorkers + n <= Capacity(z, p)
    && PagesOf(pool, origin) + n <= z.cfg.perOriginPageConcurrency
    && |pool.workers| + n <= z.cfg.globalWorkerConcurrency
  }

  function TakeOf(p: ProxyMetadata, origin: string, w: nat, atMs: int): Move {
    TryReserve(false, w, true, Job("", origin, None, None), Offer([p], {p.id}, atMs, atMs, atMs, atMs))
  }

  function HeldOf(p: ProxyMetadata, origin: string, w: nat, atMs: int, halfOpenProbe: bool): Reservation {
    Reservation(w, Job("", origin, None, None), Some(p), atMs, halfOpenProbe)
  }

  /** A circuit, and how many half-open reservations are alive. */
  function CircuitOf(pool: Pool, id: ProxyId): Circuit {
    StateOf(pool.proxies, id).circuit
  }

  function Live(pool: Pool, id: ProxyId): nat {
    |ProbesOn(pool.workers, id)|
  }

  lemma IsSelected(z: Settings, catalog: Catalog, pool: Pool, p: ProxyMetadata, origin: string, w: nat, atMs: int)
    requires ValidSettings(z) && Offerable(catalog, p) && CooledDown(p, atMs) && RoomFor(z, pool, p, origin, 1)
    requires Schedulable(z.breaker, CircuitOf(pool, p.id), atMs)
    ensures var s := SelectFrom(z, pool.proxies, TakeOf(p, origin, w, atMs).offer, None);
            && s.proxy == Some(p) && s.halfOpenProbe == (Tick(CircuitOf(pool, p.id), atMs).state == HalfOpen)
            && StateOf(s.proxies, p.id).circuit == Probed(z.breaker, CircuitOf(pool, p.id), atMs)
            && StateOf(s.proxies, p.id).activeWorkers == StateOf(pool.proxies, p.id).activeWorkers
  {
    hide SelectFrom, Schedulable, Probed, Tick;
    var offer := TakeOf(p, origin, w, atMs).offer;
    assert p in offer.proxies && Usable(z, pool.proxies, offer, None, p);
    SelectsWhenUsable(z, pool.proxies, offer, None);
    assert SelectionEffect(z, pool.proxies, offer, None, SelectFrom(z, pool.proxies, offer, None), p.id);
  }

  lemma TakeStarts(z: Settings, catalog: Catalog, pool: Pool, p: ProxyMetadata, origin: string, w: nat, atMs: int)
    requires ValidSettings(z) && z.cfg.connectionMode != Direct && Offerable(catalog, p) && CooledDown(p, atMs)
    requires RoomFor(z, pool, p, origin, 1) && w !in pool.workers
    requires Schedulable(z.breaker, CircuitOf(pool, p.id), atMs)
    ensures var s := SelectFrom(z, pool.proxies, TakeOf(p, origin, w, atMs).offer, None);
            var probes := Tick(CircuitOf(pool, p.id), atMs).state == HalfOpen;
            Next(z, pool, TakeOf(p, origin, w, atMs)) == Start(pool, s.proxies, HeldOf(p, origin, w, atMs, probes))
    ensures FromRun(catalog, TakeOf(p, origin, w, atMs))
  {
    IsSelected(z, catalog, pool, p, origin, w, atMs);
    hide SelectFrom, Schedulable, Probed, Tick, Start, Capacity;
  }

  lemma StartTakes(pool: Pool, proxies: ProxyStates, p: ProxyMetadata, r: Reservation)
    requires r.workerId !in pool.workers && r.proxy == Some(p)
    ensures var after := Start(pool, proxies, r);
            && after.workers == pool.workers[r.workerId := r] && |after.workers| == |pool.workers| + 1
            && CircuitOf(after, p.id) == StateOf(proxies, p.id).circuit
            && Live(after, p.id) == Live(pool, p.id) + (if r.halfOpenProbe then 1 else 0)
            && StateOf(after.proxies, p.id).activeWorkers == StateOf(proxies, p.id).activeWorkers + 1
            && PagesOf(after, r.job.origin) == PagesOf(pool, r.job.origin) + 1
  {
    AddWorker(pool.workers, r, ByProbe(p.id));
  }

  /** What a reservation on the proxy makes of the pool. */
  predicate Taken(z: Settings, pool: Pool, after: Pool, p: ProxyMetadata, origin: string, w: nat, atMs: int) {
    var probes := Tick(CircuitOf(pool, p.id), atMs).state == HalfOpen;
    && after.workers == pool.workers[w := HeldOf(p, origin, w, atMs, probes)]
    && |after.workers| == |pool.workers| + 1
    && CircuitOf(after, p.id) == Probed(z.breaker, CircuitOf(pool, p.id), atMs)
    && Live(after, p.id) == Live(pool, p.id) + (if probes then 1 else 0)
    && StateOf(after.proxies, p.id).activeWorkers == StateOf(pool.proxies, p.id).activeWorkers + 1
    && PagesOf(after, origin) == PagesOf(pool, origin) + 1
  }

  lemma TakeOne(z: Settings, catalog: Catalog, pool: Pool, p: ProxyMetadata, origin: string, w: nat, atMs: int)
    requires Consistent(z, catalog, pool) && z.cfg.connectionMode != Direct && Offerable(catalog, p)
    requires CooledDown(p, atMs) && RoomFor(z, pool, p, origin, 1) && w !in pool.workers
    requires Schedulable(z.breaker, CircuitOf(pool, p.id), atMs)
    ensures var m := TakeOf(p, origin, w, atMs);
            && FromRun(catalog, m) && !Stray(pool, m, p.id) && Consistent(z, catalog, Next(z, pool, m))
            && Taken(z, pool, Next(z, pool, m), p, origin, w, atMs)
  {
    hide SelectFrom, Consistent, Schedulable, Probed, Tick, Start, Next, Live, Offerable, CooledDown, RoomFor,
         CircuitOf;
    ConsistentParts(z, catalog, pool, p.id);
    var probes := Tick(CircuitOf(pool, p.id), atMs).state == HalfOpen;
    var s := SelectFrom(z, pool.proxies, TakeOf(p, origin, w, atMs).offer, None);
    TakeStarts(z, catalog, pool, p, origin, w, atMs);
    IsSelected(z, catalog, pool, p, origin, w, atMs);
    StartTakes(pool, s.proxies, p, HeldOf(p, origin, w, atMs, probes));
    NextKeepsConsistent(z, catalog, pool, TakeOf(p, origin, w, atMs));
  }

  lemma ReleaseOne(z: Settings, pool: Pool, r: Reservation, id: ProxyId, outcome: Outcome, atMs: int)
    requires r.workerId in pool.workers && pool.workers[r.workerId] == r && Uses(r, id)
    requires PagesOf(pool, r.job.origin) >= 1
    ensures var after := Release(z, pool, r, outcome, atMs);
            && after.workers == pool.workers - {r.workerId}
            && StateOf(after.proxies, id) == Settled(z, StateOf(pool.proxies, id), outcome, r.halfOpenProbe, atMs)
            && PagesOf(after, r.job.origin) == PagesOf(pool, r.job.origin) - 1
  {
    hide Settled;
  }

  /** Its proxy fails: the pool is as before, but for the circuit. */
  lemma FailOne(z: Settings, catalog: Catalog, pool: Pool, after: Pool, p: ProxyMetadata, origin: string, w: nat,
                atMs: int)
    requires Consistent(z, catalog, after) && w !in pool.workers && Taken(z, pool, after, p, origin, w, atMs)
    requires CircuitOf(pool, p.id).state == Closed
    ensures var m := ReleaseWorker(w, ProxyFailed, atMs);
            var back := Next(z, after, m);
            && FromRun(catalog, m) && !Stray(after, m, p.id) && Consistent(z, catalog, back)
            && back.workers == pool.workers && CircuitOf(back, p.id) == Failed(z.breaker, CircuitOf(pool, p.id), atMs)
            && StateOf(back.proxies, p.id).activeWorkers == StateOf(pool.proxies, p.id).activeWorkers
            && PagesOf(back, origin) == PagesOf(pool, origin)
  {
    hide Consistent, Failed, Live, Release, StateOf, PagesOf, ProbesOn;
    var m := ReleaseWorker(w, ProxyFailed, atMs);
    NextKeepsConsistent(z, catalog, after, m);
    ConsistentParts(z, catalog, after, p.id);
    ReleaseOne(z, after, HeldOf(p, origin, w, atMs, false), p.id, ProxyFailed, atMs);
    assert after.workers - {w} == pool.workers;
  }

  // ----- A continuation -----

  /** From now on. */
  predicate NotBefore(m: Move, nowMs: int) {
    if m.TryReserve?
    then
      && nowMs <= m.offer.eligibleMs && nowMs <= m.offer.snapshotMs && nowMs <= m.offer.probeMs
      && nowMs <= m.offer.startedMs
    else nowMs <= m.atMs
  }

  /** The moves lead from the pool to another one, without a stray release. */
  ghost predicate Leads(z: Settings, catalog: Catalog, pool: Pool, moves: seq<Move>, id: ProxyId, nowMs: int,
                        after: Pool) {
    && ValidSettings(z) && Regular(z, catalog, pool, moves, id) && after == Continued(z, pool, moves)
    && Consistent(z, catalog, after) && forall m :: m in moves ==> NotBefore(m, nowMs)
  }

  lemma Extend(z: Settings, catalog: Catalog, pool: Pool, moves: seq<Move>, id: ProxyId, nowMs: int, after: Pool,
               m: Move)
    requires Leads(z, catalog, pool, moves, id, nowMs, after) && FromRun(catalog, m) && !Stray(after, m, id)
    requires NotBefore(m, nowMs)
    ensures Leads(z, catalog, pool, moves + [m], id, nowMs, Next(z, after, m))
  {
    RegularStep(z, catalog, pool, moves, id, m);
    NextKeepsConsistent(z, catalog, after, m);
    hide Consistent, Regular, Continued, Next, Stray, FromRun, NotBefore;
  }

  /** The same workers and counts, but for the circuit. */
  predicate SameLoads(a: Pool, b: Pool, id: ProxyId, origin: string) {
    && a.workers == b.workers && PagesOf(a, origin) == PagesOf(b, origin)
    && StateOf(a.proxies, id).activeWorkers == StateOf(b.proxies, id).activeWorkers
  }

  /** A closed circuit is opened by reservations whose proxy fails. */
  lemma {:induction false} OpenCircuit(z: Settings, catalog: Catalog, pool: Pool, moves: seq<Move>, p: ProxyMetadata,
                                       origin: string, atMs: int, nowMs: int, s: Pool)
    returns (more: seq<Move>, after: Pool)
    requires Leads(z, catalog, pool, moves, p.id, nowMs, s) && nowMs <= atMs && CircuitOf(s, p.id).state == Closed
    requires z.cfg.connectionMode != Direct && Offerable(catalog, p) && CooledDown(p, atMs)
    requires RoomFor(z, s, p, origin, 1)
    ensures Leads(z, catalog, pool, more, p.id, nowMs, after) && SameLoads(s, after, p.id, origin)
    ensures CircuitOf(after, p.id).state == Open
    ensures CircuitOf(after, p.id).probeInFlight == CircuitOf(s, p.id).probeInFlight
    decreases z.breaker.failureThreshold - CircuitOf(s, p.id).consecutiveFailures
  {
    hide Leads, Next, Offerable, CooledDown, Taken, Consistent, Stray, FromRun;
    LeadsParts(z, catalog, pool, moves, p.id, nowMs, s);
    var w := UnusedKey(s.workers);
    TakeOne(z, catalog, s, p, origin, w, atMs);
    var t := Next(z, s, TakeOf(p, origin, w, atMs));
    Extend(z, catalog, pool, moves, p.id, nowMs, s, TakeOf(p, origin, w, atMs));
    FailOne(z, catalog, s, t, p, origin, w, atMs);
    var m := ReleaseWorker(w, ProxyFailed, atMs);
    Extend(z, catalog, pool, moves + [TakeOf(p, origin, w, atMs)], p.id, nowMs, t, m);
    more, after := moves + [TakeOf(p, origin, w, atMs)] + [m], Next(z, t, m);
    if CircuitOf(after, p.id).state == Closed {
      more, after := OpenCircuit(z, catalog, pool, more, p, origin, atMs, nowMs, after);
    }
  }

  lemma LeadsParts(z: Settings, catalog: Catalog, pool: Pool, moves: seq<Move>, id: ProxyId, nowMs: int, s: Pool)
    requires Leads(z, catalog, pool, moves, id, nowMs, s)
    ensures ValidSettings(z) && Consistent(z, catalog, s)
  {
  }

  /** A half-open circuit admits probes until its counter is at the maximum. */
  lemma {:induction false} Fill(z: Settings, catalog: Catalog, pool: Pool, moves: seq<Move>, p: ProxyMetadata,
                                origin: string, atMs: int, nowMs: int, s: Pool)
    returns (more: seq<Move>, after: Pool)
    requires Leads(z, catalog, pool, moves, p.id, nowMs, s) && nowMs <= atMs
    requires Tick(CircuitOf(s, p.id), atMs).state == HalfOpen
    requires CircuitOf(s, p.id).probeInFlight < Live(s, p.id)
    requires z.cfg.connectionMode != Direct && Offerable(catalog, p) && CooledDown(p, atMs)
    requires CircuitOf(s, p.id).probeInFlight <= z.breaker.halfOpenMaxProbes
    requires RoomFor(z, s, p, origin, z.breaker.halfOpenMaxProbes - CircuitOf(s, p.id).probeInFlight)
    ensures Leads(z, catalog, pool, more, p.id, nowMs, after) && Live(after, p.id) > z.breaker.halfOpenMaxProbes
    decreases z.breaker.halfOpenMaxProbes - CircuitOf(s, p.id).probeInFlight
  {
    hide Leads, Next, Offerable, CooledDown, Consistent, Stray, FromRun, Live;
    more, after := moves, s;
    if CircuitOf(s, p.id).probeInFlight < z.breaker.halfOpenMaxProbes {
      LeadsParts(z, catalog, pool, moves, p.id, nowMs, s);
      var w := UnusedKey(s.workers);
      TakeOne(z, catalog, s, p, origin, w, atMs);
      var t := Next(z, s, TakeOf(p, origin, w, atMs));
      Extend(z, catalog, pool, moves, p.id, nowMs, s, TakeOf(p, origin, w, atMs));
      more, after := Fill(z, catalog, pool, moves + [TakeOf(p, origin, w, atMs)], p, origin, atMs, nowMs, t);
    }
  }

  // ----- Exactly when the maximum can be exceeded -----

  /** Room for the probes that are missing from the counter. */
  predicate RoomForProbes(z: Settings, pool: Pool, p: ProxyMetadata, origin: string) {
    var missing := z.breaker.halfOpenMaxProbes - CircuitOf(pool, p.id).probeInFlight;
    missing > 0 ==> RoomFor(z, pool, p, origin, missing)
  }

  /** A continuation without further stray releases after which too many half-open reservations are alive. */
  ghost predicate CanOverrun(z: Settings, catalog: Catalog, pool: Pool, id: ProxyId)
    requires ValidSettings(z)
  {
    exists moves ::
      Regular(z, catalog, pool, moves, id) && Live(Continued(z, pool, moves), id) > z.breaker.halfOpenMaxProbes
  }

  lemma LeadsNowhere(z: Settings, catalog: Catalog, pool: Pool, id: ProxyId, nowMs: int)
    requires Consistent(z, catalog, pool)
    ensures Leads(z, catalog, pool, [], id, nowMs, pool)
  {
  }

  lemma LeadsRegularly(z: Settings, catalog: Catalog, pool: Pool, moves: seq<Move>, id: ProxyId, nowMs: int, s: Pool)
    requires Leads(z, catalog, pool, moves, id, nowMs, s)
    ensures Regular(z, catalog, pool, moves, id) && s == Continued(z, pool, moves)
    ensures forall m :: m in moves ==> NotBefore(m, nowMs)
  {
  }

  lemma AccountedFor(z: Settings, catalog: Catalog, pool: Pool, id: ProxyId)
    requires Consistent(z, catalog, pool)
    ensures Accounted(z.breaker, CircuitOf(pool, id), Live(pool, id))
  {
    assert ProxyLoad(z, catalog, pool, id);
  }

  /** The moves, from any time on, that exceed the maximum after a live probe was taken off the counter. */
  lemma Overrun(z: Settings, catalog: Catalog, pool: Pool, p: ProxyMetadata, origin: string, nowMs: int)
    returns (moves: seq<Move>)
    requires Consistent(z, catalog, pool) && !Counted(pool, p.id)
    requires z.cfg.connectionMode != Direct && Offerable(catalog, p) && RoomForProbes(z, pool, p, origin)
    ensures Regular(z, catalog, pool, moves, p.id) && forall m :: m in moves ==> NotBefore(m, nowMs)
    ensures Live(Continued(z, pool, moves), p.id) > z.breaker.halfOpenMaxProbes
  {
    var t := if p.cooldownUntilMs.Some? && p.cooldownUntilMs.value > nowMs then p.cooldownUntilMs.value else nowMs;
    assert CooledDown(p, t);
    hide Leads, Offerable, Consistent, Regular, Continued, CooledDown, NotBefore;
    var s := pool;
    moves := [];
    LeadsNowhere(z, catalog, pool, p.id, nowMs);
    AccountedFor(z, catalog, pool, p.id);
    if CircuitOf(s, p.id).state == Closed {
      moves, s := OpenCircuit(z, catalog, pool, moves, p, origin, t, nowMs, s);
      LeadsParts(z, catalog, pool, moves, p.id, nowMs, s);
      AccountedFor(z, catalog, s, p.id);
    }
    var c := CircuitOf(s, p.id);
    var u := if c.state == Open && c.openedUntilMs.value > t then c.openedUntilMs.value else t;
    LaterCooledDown(p, t, u);
    if c.probeInFlight < z.breaker.halfOpenMaxProbes {
      moves, s := Fill(z, catalog, pool, moves, p, origin, u, nowMs, s);
    }
    LeadsRegularly(z, catalog, pool, moves, p.id, nowMs, s);
  }

  lemma LaterCooledDown(p: ProxyMetadata, t: int, u: int)
    requires CooledDown(p, t) && t <= u
    ensures CooledDown(p, u)
  {
  }

  /** Where there is room for the probes that are missing, the maximum can be exceeded exactly when a live half-open
      reservation is not on the counter. */
  lemma OverrunExactlyWhenNotCounted(z: Settings, catalog: Catalog, pool: Pool, p: ProxyMetadata, origin: string)
    requires Consistent(z, catalog, pool) && z.cfg.connectionMode != Direct && Offerable(catalog, p)
    requires RoomForProbes(z, pool, p, origin)
    ensures CanOverrun(z, catalog, pool, p.id) <==> !Counted(pool, p.id)
  {
    hide Consistent, Regular, Counted, Offerable, RoomForProbes;
    ConsistentParts(z, catalog, pool, p.id);
    if Counted(pool, p.id) {
      forall moves | Regular(z, catalog, pool, moves, p.id)
        ensures Live(Continued(z, pool, moves), p.id) <= z.breaker.halfOpenMaxProbes
      {
        RegularKeepsCounted(z, catalog, pool, moves, p.id);
        CountedIsBounded(z, catalog, Continued(z, pool, moves), p.id);
      }
    } else {
      var moves := Overrun(z, catalog, pool, p, origin, 0);
    }
  }

  /** After a stray release, and only after one, the next pool can be led past the maximum. */
  lemma MoveAllowsOverrunExactly(z: Settings, catalog: Catalog, pool: Pool, m: Move, p: ProxyMetadata, origin: string)
    requires Consistent(z, catalog, pool) && Counted(pool, p.id) && FromRun(catalog, m)
    requires z.cfg.connectionMode != Direct && Offerable(catalog, p)
    requires RoomForProbes(z, Next(z, pool, m), p, origin)
    ensures CanOverrun(z, catalog, Next(z, pool, m), p.id) <==> Stray(pool, m, p.id)
  {
    hide Consistent, Counted, Offerable, RoomForProbes, Next, Stray, CanOverrun, FromRun;
    NextCountedExactly(z, catalog, pool, m, p.id);
    NextKeepsConsistent(z, catalog, pool, m);
    OverrunExactlyWhenNotCounted(z, catalog, Next(z, pool, m), p, origin);
  }

  /** The same over runs: a run that leaves a live half-open reservation uncounted goes on past the maximum. */
  lemma RunGoesPastTheMaximum(z: Settings, catalog: Catalog, run: seq<Move>, p: ProxyMetadata, origin: string,
                              nowMs: int) returns (moves: seq<Move>)
    requires ValidSettings(z) && forall i :: 0 <= i < |run| ==> FromRun(catalog, run[i])
    requires z.cfg.connectionMode != Direct && Offerable(catalog, p)
    requires var pool := PoolInvariants.After(z, run, |run|); !Counted(pool, p.id) && RoomForProbes(z, pool, p, origin)
    ensures forall m :: m in moves ==> NotBefore(m, nowMs)
    ensures Live(PoolInvariants.After(z, run + moves, |run| + |moves|), p.id) > z.breaker.halfOpenMaxProbes
  {
    hide Consistent, Counted, Offerable, RoomForProbes, FromRun, NotBefore, Regular, Continued;
    LoadsAreLiveReservations(z, catalog, run, |run|);
    moves := Overrun(z, catalog, PoolInvariants.After(z, run, |run|), p, origin, nowMs);
    RunContinued(z, run, moves);
  }
}
