/** Worker reservations: proxy selection, capacity and load bookkeeping
    (packages/archive-core/src/scheduler.ts:595-719). */
module WorkerPool {
  import opened Options
  import opened Proxies
  import opened PoolConfiguration
  import opened CircuitBreaker
  import Sorting
  import WeightedRoundRobin

  /** A job after `normalizeSchedulerJob`; `sessionProxyId` is the proxy its session is bound to, if any. */
  datatype Job = Job(jobId: string, origin: string, proxyId: Option<ProxyId>, sessionProxyId: Option<ProxyId>)

  /** Worker identifiers are given by their sequence number. */
  datatype Reservation = Reservation(
    workerId: nat,
    job: Job,
    proxy: Option<ProxyMetadata>,
    startedAtMs: int,
    halfOpenProbe: bool)

  datatype ProxyState = ProxyState(
    activeWorkers: nat,
    completedJobs: nat,
    failedJobs: nat,
    circuit: Circuit,
    smoothWeight: int)

  const NEW_PROXY := ProxyState(0, 0, 0, FRESH, 0)

  type ProxyStates = map<ProxyId, ProxyState>

  datatype Pool = Pool(workers: map<nat, Reservation>, originPages: map<string, nat>, proxies: ProxyStates)

  const EMPTY := Pool(map[], map[], map[])

  datatype Settings = Settings(cfg: Configuration, breaker: BreakerConfiguration)

  predicate ValidSettings(z: Settings) {
    PoolConfiguration.ValidConfiguration(z.cfg) && CircuitBreaker.ValidConfiguration(z.breaker)
  }

  /** What a reservation call is given: the proxies, those whose credential is at hand, and the clock
      readings it makes, in the order in which it makes them. */
  datatype Offer = Offer(
    proxies: seq<ProxyMetadata>,
    credentials: set<ProxyId>,
    eligibleMs: int,
    snapshotMs: int,
    probeMs: int,
    startedMs: int)

  datatype Error = WorkerIdInvalid | WorkerIdActive | AffinityConflict

  datatype Answer = Granted(reservation: Reservation) | NoCapacity | Throws(error: Error)

  function StateOf(proxies: ProxyStates, id: ProxyId): ProxyState {
    if id in proxies then proxies[id] else NEW_PROXY
  }

  function Capacity(z: Settings, proxy: ProxyMetadata): int {
    if z.cfg.perProxyWorkerConcurrency < proxy.maxConcurrency then z.cfg.perProxyWorkerConcurrency
    else proxy.maxConcurrency
  }

  // ----- Eligible proxies -----

  /** The first two filters: the requested proxy, if one is requested, and `getProxyEligibility`. */
  predicate Considered(offer: Offer, requested: Option<ProxyId>, proxy: ProxyMetadata) {
    && (requested.None? || proxy.id == requested.value)
    && GetEligibility(proxy, offer.eligibleMs, proxy.id in offer.credentials) == Eligible
  }

  /** The third filter creates a state for each proxy it sees, and looks at the circuit of those with room. */
  function Touch(z: Settings, proxies: ProxyStates, proxy: ProxyMetadata, nowMs: int): ProxyStates {
    var state := StateOf(proxies, proxy.id);
    if state.activeWorkers < Capacity(z, proxy)
    then proxies[proxy.id := state.(circuit := Tick(state.circuit, nowMs))]
    else proxies[proxy.id := state]
  }

  predicate HasRoom(z: Settings, proxies: ProxyStates, proxy: ProxyMetadata, nowMs: int) {
    var state := StateOf(proxies, proxy.id);
    state.activeWorkers < Capacity(z, proxy) && Schedulable(z.breaker, state.circuit, nowMs)
  }

  /** The proxy states after the filters went over the first `n` offered proxies. */
  function Touched(z: Settings, proxies: ProxyStates, offer: Offer, requested: Option<ProxyId>, n: nat): ProxyStates
    requires n <= |offer.proxies|
  {
    if n == 0 then proxies
    else
      var before := Touched(z, proxies, offer, requested, n - 1);
      if Considered(offer, requested, offer.proxies[n - 1])
      then Touch(z, before, offer.proxies[n - 1], offer.eligibleMs)
      else before
  }

  predicate Usable(z: Settings, proxies: ProxyStates, offer: Offer, requested: Option<ProxyId>, proxy: ProxyMetadata) {
    Considered(offer, requested, proxy) && HasRoom(z, proxies, proxy, offer.eligibleMs)
  }

  /** The usable ones of the first `n` offered proxies, in the order offered. */
  function UsableUpTo(z: Settings, proxies: ProxyStates, offer: Offer, requested: Option<ProxyId>,
                      n: nat): seq<ProxyMetadata>
    requires n <= |offer.proxies|
  {
    if n == 0 then []
    else
      var before := UsableUpTo(z, proxies, offer, requested, n - 1);
      if Usable(z, proxies, offer, requested, offer.proxies[n - 1]) then before + [offer.proxies[n - 1]] else before
  }

  /** The comparison of the sort: by priority, then by identifier. */
  predicate Before(a: ProxyMetadata, b: ProxyMetadata) {
    a.priority < b.priority || (a.priority == b.priority && a.id < b.id)
  }

  function NotAfter(a: ProxyMetadata, b: ProxyMetadata): bool {
    !Before(b, a)
  }

  lemma NotAfterOrder()
    ensures Sorting.TotalPreorder(NotAfter)
  {
  }

  function Sort(proxies: seq<ProxyMetadata>): (r: seq<ProxyMetadata>)
    ensures multiset(r) == multiset(proxies)
  {
    NotAfterOrder();
    Sorting.SortIsSorted(NotAfter, proxies);
    Sorting.Sort(NotAfter, proxies)
  }

  /** The leading proxies that share the priority of the first. */
  function Leading(sorted: seq<ProxyMetadata>, n: nat): seq<ProxyMetadata>
    requires n <= |sorted|
  {
    if n == 0 then []
    else
      var before := Leading(sorted, n - 1);
      if sorted[n - 1].priority == sorted[0].priority then before + [sorted[n - 1]] else before
  }

  function Candidates(z: Settings, proxies: ProxyStates, offer: Offer, requested: Option<ProxyId>): seq<ProxyMetadata> {
    var sorted := Sort(UsableUpTo(z, proxies, offer, requested, |offer.proxies|));
    Leading(sorted, |sorted|)
  }

  // ----- Selection -----

  function Scores(proxies: ProxyStates): WeightedRoundRobin.Scores {
    map id | id in proxies :: proxies[id].smoothWeight
  }

  function WithScores(proxies: ProxyStates, scores: WeightedRoundRobin.Scores): ProxyStates {
    map id | id in proxies.Keys + scores.Keys ::
      StateOf(proxies, id).(smoothWeight := WeightedRoundRobin.Score(scores, id))
  }

  function Load(z: Settings, proxies: ProxyStates, proxy: ProxyMetadata): real
    requires Capacity(z, proxy) >= 1
  {
    StateOf(proxies, proxy.id).activeWorkers as real / Capacity(z, proxy) as real
  }

  predicate LighterThan(z: Settings, proxies: ProxyStates, a: ProxyMetadata, b: ProxyMetadata)
    requires Capacity(z, a) >= 1 && Capacity(z, b) >= 1
  {
    Load(z, proxies, a) < Load(z, proxies, b) || (Load(z, proxies, a) == Load(z, proxies, b) && Before(a, b))
  }

  /** The position of the first of the first `n` candidates in the order of `selectLeastLoaded`. */
  function Lightest(z: Settings, proxies: ProxyStates, candidates: seq<ProxyMetadata>, n: nat): (w: nat)
    requires 1 <= n <= |candidates|
    requires forall i :: 0 <= i < |candidates| ==> Capacity(z, candidates[i]) >= 1
    ensures w < n
  {
    if n == 1 then 0
    else
      var w := Lightest(z, proxies, candidates, n - 1);
      if LighterThan(z, proxies, candidates[n - 1], candidates[w]) then n - 1 else w
  }

  datatype Selection = Selection(proxies: ProxyStates, proxy: Option<ProxyMetadata>, halfOpenProbe: bool)

  predicate Conflicting(job: Job) {
    job.sessionProxyId.Some? && job.proxyId.Some? && job.sessionProxyId != job.proxyId
  }

  function Requested(job: Job): Option<ProxyId> {
    if job.sessionProxyId.Some? then job.sessionProxyId else job.proxyId
  }

  /** The choice among candidates, and the proxy states with the scores it leaves. */
  function Choose(z: Settings, proxies: ProxyStates, candidates: seq<ProxyMetadata>,
                  requested: Option<ProxyId>): (ProxyStates, ProxyMetadata)
    requires candidates != []
    requires forall i :: 0 <= i < |candidates| ==> Capacity(z, candidates[i]) >= 1
  {
    if requested.Some? then (proxies, candidates[0])
    else if z.cfg.selectionPolicy == LeastLoaded then
      (proxies, candidates[Lightest(z, proxies, candidates, |candidates|)])
    else
      (WithScores(proxies, WeightedRoundRobin.After(Scores(proxies), candidates)),
       WeightedRoundRobin.Selected(Scores(proxies), candidates))
  }

  /** The half-open probe on the selected proxy. */
  function Probe(z: Settings, proxies: ProxyStates, proxy: ProxyMetadata, offer: Offer): Selection {
    var state := StateOf(proxies, proxy.id);
    var seen := Tick(state.circuit, offer.snapshotMs);
    var after := proxies[proxy.id := state.(circuit := Probed(z.breaker, seen, offer.probeMs))];
    if Schedulable(z.breaker, seen, offer.probeMs)
    then Selection(after, Some(proxy), seen.state == HalfOpen)
    else Selection(after, None, false)
  }

  function SelectFrom(z: Settings, proxies: ProxyStates, offer: Offer, requested: Option<ProxyId>): Selection
    requires ValidSettings(z)
  {
    var touched := Touched(z, proxies, offer, requested, |offer.proxies|);
    var candidates := Candidates(z, proxies, offer, requested);
    if candidates == [] then Selection(touched, None, false)
    else
      CandidateCapacity(z, proxies, offer, requested);
      var (chosen, proxy) := Choose(z, touched, candidates, requested);
      Probe(z, chosen, proxy, offer)
  }

  lemma SortedMembers(proxies: seq<ProxyMetadata>, p: ProxyMetadata)
    ensures p in Sort(proxies) <==> p in proxies
  {
    assert p in multiset(Sort(proxies)) <==> p in multiset(proxies);
  }

  lemma {:induction false} UsableMembers(z: Settings, proxies: ProxyStates, offer: Offer, requested: Option<ProxyId>,
                                         n: nat, p: ProxyMetadata)
    requires n <= |offer.proxies|
    ensures p in UsableUpTo(z, proxies, offer, requested, n)
       <==> p in offer.proxies[..n] && Usable(z, proxies, offer, requested, p)
  {
    if n > 0 {
      UsableMembers(z, proxies, offer, requested, n - 1, p);
      assert offer.proxies[..n] == offer.proxies[..n - 1] + [offer.proxies[n - 1]];
    }
  }

  lemma {:induction false} LeadingMembers(sorted: seq<ProxyMetadata>, n: nat, p: ProxyMetadata)
    requires n <= |sorted|
    ensures p in Leading(sorted, n) <==> p in sorted[..n] && p.priority == sorted[0].priority
  {
    if n > 0 {
      LeadingMembers(sorted, n - 1, p);
      assert sorted[..n] == sorted[..n - 1] + [sorted[n - 1]];
    }
  }

  lemma CandidateIsUsable(z: Settings, proxies: ProxyStates, offer: Offer, requested: Option<ProxyId>, p: ProxyMetadata)
    requires p in Candidates(z, proxies, offer, requested)
    ensures p in offer.proxies && Usable(z, proxies, offer, requested, p)
  {
    var usable := UsableUpTo(z, proxies, offer, requested, |offer.proxies|);
    LeadingMembers(Sort(usable), |Sort(usable)|, p);
    SortedMembers(usable, p);
    UsableMembers(z, proxies, offer, requested, |offer.proxies|, p);
    assert offer.proxies[..|offer.proxies|] == offer.proxies;
  }

  lemma CandidateCapacity(z: Settings, proxies: ProxyStates, offer: Offer, requested: Option<ProxyId>)
    requires ValidSettings(z)
    ensures forall i :: 0 <= i < |Candidates(z, proxies, offer, requested)| ==>
      Capacity(z, Candidates(z, proxies, offer, requested)[i]) >= 1
  {
    var candidates := Candidates(z, proxies, offer, requested);
    forall i | 0 <= i < |candidates| ensures Capacity(z, candidates[i]) >= 1 {
      CandidateIsUsable(z, proxies, offer, requested, candidates[i]);
    }
  }

  // ----- Reserve and release -----

  function PagesOf(pool: Pool, origin: string): nat {
    if origin in pool.originPages then pool.originPages[origin] else 0
  }

  function Start(pool: Pool, proxies: ProxyStates, r: Reservation): Pool {
    Pool(pool.workers[r.workerId := r],
         pool.originPages[r.job.origin := PagesOf(pool, r.job.origin) + 1],
         if r.proxy.None? then proxies
         else
           var state := StateOf(proxies, r.proxy.value.id);
           proxies[r.proxy.value.id := state.(activeWorkers := state.activeWorkers + 1)])
  }

  /** `tryReserveWorker`; `paused` is the network budget's answer for the job's origin. */
  function Reserve(z: Settings, pool: Pool, paused: bool, workerId: nat, idValid: bool, job: Job, offer: Offer): (Pool,
      Answer)
    requires ValidSettings(z)
  {
    if !idValid then (pool, Throws(WorkerIdInvalid))
    else if workerId in pool.workers then (pool, Throws(WorkerIdActive))
    else if |pool.workers| >= z.cfg.globalWorkerConcurrency then (pool, NoCapacity)
    else if PagesOf(pool, job.origin) >= z.cfg.perOriginPageConcurrency then (pool, NoCapacity)
    else if paused then (pool, NoCapacity)
    else if Conflicting(job) then (pool, Throws(AffinityConflict))
    else if z.cfg.connectionMode == Direct then
      if Requested(job).Some? then (pool, Throws(AffinityConflict))
      else
        var r := Reservation(workerId, job, None, offer.startedMs, false);
        (Start(pool, pool.proxies, r), Granted(r))
    else
      var s := SelectFrom(z, pool.proxies, offer, Requested(job));
      if s.proxy.None? then (pool.(proxies := s.proxies), NoCapacity)
      else
        var r := Reservation(workerId, job, s.proxy, offer.startedMs, s.halfOpenProbe);
        (Start(pool, s.proxies, r), Granted(r))
  }

  function Settled(z: Settings, state: ProxyState, outcome: Outcome, halfOpenProbe: bool, atMs: int): ProxyState {
    ProxyState(
      Decrement(state.activeWorkers),
      if outcome == Completed then state.completedJobs + 1 else state.completedJobs,
      if outcome == Completed then state.failedJobs else state.failedJobs + 1,
      Settle(z.breaker, state.circuit, outcome, halfOpenProbe, atMs),
      state.smoothWeight)
  }

  /** `releaseWorker`. */
  function Release(z: Settings, pool: Pool, r: Reservation, outcome: Outcome, atMs: int): Pool {
    if r.workerId !in pool.workers then pool
    else
      var pages: int := (if r.job.origin in pool.originPages then pool.originPages[r.job.origin] as int else 1) - 1;
      Pool(pool.workers - {r.workerId},
           if pages <= 0 then pool.originPages - {r.job.origin} else pool.originPages[r.job.origin := pages],
           if r.proxy.None? then pool.proxies
           else
             var id := r.proxy.value.id;
             pool.proxies[id := Settled(z, StateOf(pool.proxies, id), outcome, r.halfOpenProbe, atMs)])
  }
}
