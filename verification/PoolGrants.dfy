/** When a reservation is granted, and which proxy it gets, in terms of the job, the pool and the offered proxies
    (packages/archive-core/src/scheduler.ts:605-613 and 645-691; packages/archive-core/src/proxy.ts:472-479). */
module PoolGrants {
  import opened Options
  import opened Proxies
  import opened PoolConfiguration
  import opened CircuitBreaker
  import opened WorkerPool
  import opened PoolInvariants
  import PoolSelection

  /** The proxy that a job is bound to: that of its session, or else its own. */
  predicate BoundTo(job: Job, id: ProxyId) {
    && (job.sessionProxyId.Some? ==> job.sessionProxyId.value == id)
    && (job.sessionProxyId.None? && job.proxyId.Some? ==> job.proxyId.value == id)
  }

  predicate BoundTwice(job: Job) {
    job.sessionProxyId.Some? && job.proxyId.Some? && job.sessionProxyId.value != job.proxyId.value
  }

  predicate IsBound(job: Job) {
    job.sessionProxyId.Some? || job.proxyId.Some?
  }

  /** A circuit lets work through: closed, or with room for a probe once its open time is over. */
  predicate LetsThrough(cfg: BreakerConfiguration, c: Circuit, nowMs: int) {
    || c.state == Closed
    || (c.probeInFlight < cfg.halfOpenMaxProbes
        && (c.state == HalfOpen || (c.openedUntilMs.Some? && c.openedUntilMs.value <= nowMs)))
  }

  predicate SeenHalfOpen(c: Circuit, nowMs: int) {
    c.state == HalfOpen || (c.state == Open && c.openedUntilMs.Some? && c.openedUntilMs.value <= nowMs)
  }

  /** A proxy that may be used at all: its metadata is in order, it is on and healthy, not cooling down, and its
      credential is at hand if it needs one. */
  predicate InService(p: ProxyMetadata, nowMs: int, credentialAvailable: bool) {
    && 1 <= p.weight <= 1000 && 0 <= p.priority <= 1000 && 1 <= p.maxConcurrency <= 1000 && p.otherFieldsValid
    && p.enabled && p.health == Healthy
    && (p.cooldownUntilMs.Some? ==> p.cooldownUntilMs.value <= nowMs)
    && (p.needsCredential ==> credentialAvailable)
  }

  lemma EligibleExactly(p: ProxyMetadata, nowMs: int, credentialAvailable: bool)
    ensures GetEligibility(p, nowMs, credentialAvailable) == Eligible <==> InService(p, nowMs, credentialAvailable)
  {
  }

  /** A proxy that can serve the job now. */
  predicate CanServe(z: Settings, pool: Pool, job: Job, offer: Offer, p: ProxyMetadata) {
    && p in offer.proxies && BoundTo(job, p.id)
    && InService(p, offer.eligibleMs, p.id in offer.credentials)
    && StateOf(pool.proxies, p.id).activeWorkers < z.cfg.perProxyWorkerConcurrency
    && StateOf(pool.proxies, p.id).activeWorkers < p.maxConcurrency
    && LetsThrough(z.breaker, StateOf(pool.proxies, p.id).circuit, offer.eligibleMs)
  }

  lemma ServesExactlyWhenUsable(z: Settings, pool: Pool, job: Job, offer: Offer, p: ProxyMetadata)
    requires p in offer.proxies && !BoundTwice(job)
    ensures CanServe(z, pool, job, offer, p) <==> Usable(z, pool.proxies, offer, Requested(job), p)
  {
    EligibleExactly(p, offer.eligibleMs, p.id in offer.credentials);
  }

  /** No proxy that could serve the job has a better priority. */
  predicate LeadsAll(z: Settings, pool: Pool, job: Job, offer: Offer, p: ProxyMetadata) {
    forall q :: q in offer.proxies && CanServe(z, pool, job, offer, q) ==> p.priority <= q.priority
  }

  predicate Room(z: Settings, pool: Pool, paused: bool, workerId: nat, idValid: bool, job: Job) {
    && idValid && workerId !in pool.workers && |pool.workers| < z.cfg.globalWorkerConcurrency
    && PagesOf(pool, job.origin) < z.cfg.perOriginPageConcurrency && !paused
  }

  /** The reservation is the one the job asks for. */
  predicate Fitting(z: Settings, pool: Pool, job: Job, offer: Offer, workerId: nat, r: Reservation) {
    && r.workerId == workerId && r.job == job && r.startedAtMs == offer.startedMs
    && (if z.cfg.connectionMode == Direct then r.proxy.None? && !r.halfOpenProbe
        else
          && r.proxy.Some? && CanServe(z, pool, job, offer, r.proxy.value)
          && LeadsAll(z, pool, job, offer, r.proxy.value)
          && r.halfOpenProbe == SeenHalfOpen(StateOf(pool.proxies, r.proxy.value.id).circuit, offer.eligibleMs))
  }

  /** What the pool is after a reservation: one more worker on its origin and proxy, and nobody else's load changed. */
  ghost predicate OneMore(pool: Pool, after: Pool, r: Reservation) {
    && after.workers == pool.workers[r.workerId := r]
    && after.originPages == pool.originPages[r.job.origin := PagesOf(pool, r.job.origin) + 1]
    && forall id: ProxyId ::
         StateOf(after.proxies, id).activeWorkers
           == StateOf(pool.proxies, id).activeWorkers + (if r.proxy.Some? && r.proxy.value.id == id then 1 else 0)
  }

  lemma SelectionServes(z: Settings, pool: Pool, job: Job, offer: Offer)
    requires ValidSettings(z) && !BoundTwice(job)
    ensures var s := SelectFrom(z, pool.proxies, offer, Requested(job));
            && (s.proxy.Some? <==> exists p :: CanServe(z, pool, job, offer, p))
            && (s.proxy.Some? ==>
                  && CanServe(z, pool, job, offer, s.proxy.value) && LeadsAll(z, pool, job, offer, s.proxy.value)
                  && s.halfOpenProbe
                       == SeenHalfOpen(StateOf(pool.proxies, s.proxy.value.id).circuit, offer.eligibleMs))
            && forall id: ProxyId ::
                 StateOf(s.proxies, id).activeWorkers == StateOf(pool.proxies, id).activeWorkers
  {
    var requested := Requested(job);
    var s := SelectFrom(z, pool.proxies, offer, requested);
    SelectsWhenUsable(z, pool.proxies, offer, requested);
    forall id: ProxyId ensures StateOf(s.proxies, id).activeWorkers == StateOf(pool.proxies, id).activeWorkers {
      assert SelectionEffect(z, pool.proxies, offer, requested, s, id);
    }
    forall p | p in offer.proxies
      ensures CanServe(z, pool, job, offer, p) <==> Usable(z, pool.proxies, offer, requested, p)
    {
      ServesExactlyWhenUsable(z, pool, job, offer, p);
    }
    if s.proxy.Some? {
      assert SelectionEffect(z, pool.proxies, offer, requested, s, s.proxy.value.id);
      PoolSelection.SelectedLeads(z, pool.proxies, offer, requested);
    }
  }

  /** Exactly when a reservation is granted or throws, which proxy it gets, and what it does to the loads, said of the
      job's own fields. Anything but a grant moves no load. */
  lemma GrantedExactlyWhen(z: Settings, pool: Pool, paused: bool, workerId: nat, idValid: bool, job: Job, offer: Offer)
    requires ValidSettings(z)
    ensures var (after, answer) := Reserve(z, pool, paused, workerId, idValid, job, offer);
            var room := Room(z, pool, paused, workerId, idValid, job);
            var direct := z.cfg.connectionMode == Direct;
            && (answer.Granted? <==>
                  && room && !BoundTwice(job)
                  && if direct then !IsBound(job) else exists p :: CanServe(z, pool, job, offer, p))
            && (answer.Granted? ==>
                  && Fitting(z, pool, job, offer, workerId, answer.reservation)
                  && OneMore(pool, after, answer.reservation))
            && (answer == Throws(AffinityConflict) <==> room && (BoundTwice(job) || (direct && IsBound(job))))
            && (answer == Throws(WorkerIdInvalid) <==> !idValid)
            && (answer == Throws(WorkerIdActive) <==> idValid && workerId in pool.workers)
            && (!answer.Granted? ==>
                  && after.workers == pool.workers && after.originPages == pool.originPages
                  && forall id: ProxyId ::
                       StateOf(after.proxies, id).activeWorkers == StateOf(pool.proxies, id).activeWorkers)
  {
    hide SelectFrom, CanServe, LeadsAll, SeenHalfOpen;
    if z.cfg.connectionMode != Direct && !BoundTwice(job) {
      SelectionServes(z, pool, job, offer);
    }
  }

  /** There is room for the job, and in a mode with proxies one that can serve it. */
  ghost predicate Servable(z: Settings, pool: Pool, paused: bool, job: Job, offer: Offer) {
    && |pool.workers| < z.cfg.globalWorkerConcurrency
    && PagesOf(pool, job.origin) < z.cfg.perOriginPageConcurrency && !paused
    && (z.cfg.connectionMode == Direct || exists p :: CanServe(z, pool, job, offer, p))
  }

  /** The same loads, and circuits that an expired open time may have moved to half-open. */
  ghost predicate OnlyTicked(pool: Pool, after: Pool) {
    && after.workers == pool.workers && after.originPages == pool.originPages
    && forall id: ProxyId ::
         && StateOf(after.proxies, id).activeWorkers == StateOf(pool.proxies, id).activeWorkers
         && MayBeTicked(StateOf(pool.proxies, id).circuit, StateOf(after.proxies, id).circuit)
  }

  predicate MayBeTicked(c: Circuit, d: Circuit) {
    d == c || (c.state == Open && c.openedUntilMs.Some? && d == c.(state := HalfOpen))
  }

  /** A job is turned down exactly when it cannot be served and nothing is wrong with it, and that ticks circuits at
      most. */
  lemma TurnedDownExactly(z: Settings, pool: Pool, paused: bool, workerId: nat, idValid: bool, job: Job, offer: Offer)
    requires ValidSettings(z)
    ensures var (after, answer) := Reserve(z, pool, paused, workerId, idValid, job, offer);
            && (answer == NoCapacity <==>
                  && idValid && workerId !in pool.workers && !Servable(z, pool, paused, job, offer)
                  && !(BoundTwice(job) && Room(z, pool, paused, workerId, idValid, job)))
            && (answer == NoCapacity ==> OnlyTicked(pool, after))
  {
    GrantedExactlyWhen(z, pool, paused, workerId, idValid, job, offer);
    hide SelectFrom, CanServe, Fitting, OneMore;
    if z.cfg.connectionMode != Direct {
      SelectionTicks(z, pool, job, offer);
    }
  }

  lemma SelectionTicks(z: Settings, pool: Pool, job: Job, offer: Offer)
    requires ValidSettings(z)
    ensures var s := SelectFrom(z, pool.proxies, offer, Requested(job));
            s.proxy.None? ==> OnlyTicked(pool, pool.(proxies := s.proxies))
  {
    var s := SelectFrom(z, pool.proxies, offer, Requested(job));
    SelectsWhenUsable(z, pool.proxies, offer, Requested(job));
    forall id: ProxyId | s.proxy.None?
      ensures StateOf(s.proxies, id).activeWorkers == StateOf(pool.proxies, id).activeWorkers
      ensures MayBeTicked(StateOf(pool.proxies, id).circuit, StateOf(s.proxies, id).circuit)
    {
      assert SelectionEffect(z, pool.proxies, offer, Requested(job), s, id);
    }
  }

  /** A reservation of a bound job is on the proxy it is bound to; in direct mode such a job is never granted. */
  lemma BindingsAreKept(z: Settings, pool: Pool, paused: bool, workerId: nat, idValid: bool, job: Job, offer: Offer)
    requires ValidSettings(z) && Reserve(z, pool, paused, workerId, idValid, job, offer).1.Granted?
    ensures var r := Reserve(z, pool, paused, workerId, idValid, job, offer).1.reservation;
            && (r.proxy.Some? ==> BoundTo(job, r.proxy.value.id) && !BoundTwice(job))
            && (r.proxy.None? ==> !IsBound(job))
  {
    GrantedExactlyWhen(z, pool, paused, workerId, idValid, job, offer);
    hide Reserve;
  }
}
