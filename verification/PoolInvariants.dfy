/** What every reservation and release keeps: loads, capacities, probe accounting and scores. */
module PoolInvariants {
  import opened Options
  import opened Proxies
  import opened PoolConfiguration
  import opened CircuitBreaker
  import opened WorkerPool
  import WeightedRoundRobin

  /** The workers whose reservation has a property. */
  function Where(workers: map<nat, Reservation>, p: Reservation -> bool): set<nat> {
    set w | w in workers && p(workers[w])
  }

  predicate Uses(r: Reservation, id: ProxyId) {
    r.proxy.Some? && r.proxy.value.id == id
  }

  function ByOrigin(origin: string): Reservation -> bool {
    (r: Reservation) => r.job.origin == origin
  }

  function ByProxy(id: ProxyId): Reservation -> bool {
    (r: Reservation) => Uses(r, id)
  }

  function ByProbe(id: ProxyId): Reservation -> bool {
    (r: Reservation) => Uses(r, id) && r.halfOpenProbe
  }

  /** The live reservations on an origin, on a proxy, and the half-open ones on a proxy. */
  function OnOrigin(workers: map<nat, Reservation>, origin: string): set<nat> {
    Where(workers, ByOrigin(origin))
  }

  function OnProxy(workers: map<nat, Reservation>, id: ProxyId): set<nat> {
    Where(workers, ByProxy(id))
  }

  function ProbesOn(workers: map<nat, Reservation>, id: ProxyId): set<nat> {
    Where(workers, ByProbe(id))
  }

  /** The proxies of a run, by identifier; the list is fixed while the run lasts. */
  type Catalog = map<ProxyId, ProxyMetadata>

  predicate FromCatalog(catalog: Catalog, proxies: seq<ProxyMetadata>) {
    && DistinctIds(proxies)
    && forall i :: 0 <= i < |proxies| ==> proxies[i].id in catalog && catalog[proxies[i].id] == proxies[i]
  }

  /** Each origin's page count is the number of live reservations on it, within the capacity. */
  predicate OriginLoad(z: Settings, pool: Pool, o: string) {
    && (o in pool.originPages <==> OnOrigin(pool.workers, o) != {})
    && (o in pool.originPages ==> pool.originPages[o] == |OnOrigin(pool.workers, o)| <= z.cfg.perOriginPageConcurrency)
  }

  ghost predicate OriginLoads(z: Settings, pool: Pool) {
    forall o: string :: OriginLoad(z, pool, o)
  }

  ghost predicate ProxyLoad(z: Settings, catalog: Catalog, pool: Pool, id: ProxyId) {
    && StateOf(pool.proxies, id).activeWorkers == |OnProxy(pool.workers, id)|
    && (id in catalog ==>
           StateOf(pool.proxies, id).activeWorkers <= Capacity(z, catalog[id]) || OnProxy(pool.workers, id) == {})
    && Accounted(z.breaker, StateOf(pool.proxies, id).circuit, |ProbesOn(pool.workers, id)|)
  }

  ghost predicate Consistent(z: Settings, catalog: Catalog, pool: Pool) {
    && ValidSettings(z)
    && |pool.workers| <= z.cfg.globalWorkerConcurrency
    && (forall w :: w in pool.workers ==>
          && pool.workers[w].workerId == w
          && (pool.workers[w].proxy.Some? ==>
                && pool.workers[w].proxy.value.id in catalog
                && catalog[pool.workers[w].proxy.value.id] == pool.workers[w].proxy.value))
    && OriginLoads(z, pool)
    && (forall id: ProxyId :: ProxyLoad(z, catalog, pool, id))
  }

  // ----- Counting live reservations -----

  lemma AddWorker(workers: map<nat, Reservation>, r: Reservation, p: Reservation -> bool)
    requires r.workerId !in workers
    ensures Where(workers[r.workerId := r], p) == Where(workers, p) + (if p(r) then {r.workerId} else {})
    ensures |Where(workers[r.workerId := r], p)| == |Where(workers, p)| + (if p(r) then 1 else 0)
  {
    assert Where(workers[r.workerId := r], p) == Where(workers, p) + (if p(r) then {r.workerId} else {});
  }

  lemma RemoveWorker(workers: map<nat, Reservation>, w: nat, p: Reservation -> bool)
    requires w in workers
    ensures Where(workers - {w}, p) == Where(workers, p) - {w}
    ensures |Where(workers - {w}, p)| == |Where(workers, p)| - (if p(workers[w]) then 1 else 0)
  {
    assert Where(workers - {w}, p) == Where(workers, p) - {w};
  }

  // ----- Selecting a proxy moves no load -----

  lemma {:induction false} TouchedKeepsLoads(z: Settings, proxies: ProxyStates, offer: Offer,
                                             requested: Option<ProxyId>, n: nat, id: ProxyId)
    requires n <= |offer.proxies|
    ensures var state := StateOf(proxies, id);
            var touched := StateOf(Touched(z, proxies, offer, requested, n), id);
            || touched == state
            || touched == state.(circuit := Tick(state.circuit, offer.eligibleMs))
  {
    if n > 0 {
      TouchedKeepsLoads(z, proxies, offer, requested, n - 1, id);
    }
  }

  lemma {:induction false} UsableIsTicked(z: Settings, proxies: ProxyStates, offer: Offer, requested: Option<ProxyId>,
                                          n: nat, k: nat)
    requires k < n <= |offer.proxies| && Usable(z, proxies, offer, requested, offer.proxies[k])
    ensures var id := offer.proxies[k].id;
            var state := StateOf(proxies, id);
            StateOf(Touched(z, proxies, offer, requested, n), id)
              == state.(circuit := Tick(state.circuit, offer.eligibleMs))
  {
    var id := offer.proxies[k].id;
    TouchedKeepsLoads(z, proxies, offer, requested, n - 1, id);
    if k < n - 1 {
      UsableIsTicked(z, proxies, offer, requested, n - 1, k);
    }
  }

  lemma WithScoresKeepsLoads(proxies: ProxyStates, scores: WeightedRoundRobin.Scores, id: ProxyId)
    requires Scores(proxies).Keys <= scores.Keys
    ensures StateOf(WithScores(proxies, scores), id)
         == StateOf(proxies, id).(smoothWeight := WeightedRoundRobin.Score(scores, id))
  {
  }

  lemma {:induction false} RaiseKeepsKeys(scores: WeightedRoundRobin.Scores, candidates: seq<ProxyMetadata>, n: nat)
    requires n <= |candidates|
    ensures scores.Keys <= WeightedRoundRobin.RaiseUpTo(scores, candidates, n).Keys
  {
    if n > 0 {
      RaiseKeepsKeys(scores, candidates, n - 1);
    }
  }

  /** Choosing among candidates changes nothing but scores, and names a candidate. */
  lemma ChooseKeepsLoads(z: Settings, proxies: ProxyStates, candidates: seq<ProxyMetadata>, requested: Option<ProxyId>,
                         id: ProxyId)
    requires candidates != []
    requires forall i :: 0 <= i < |candidates| ==> Capacity(z, candidates[i]) >= 1
    ensures var (chosen, proxy) := Choose(z, proxies, candidates, requested);
            && proxy in candidates
            && StateOf(chosen, id) == StateOf(proxies, id).(smoothWeight := StateOf(chosen, id).smoothWeight)
  {
    if requested.None? && z.cfg.selectionPolicy != LeastLoaded {
      RaiseKeepsKeys(Scores(proxies), candidates, |candidates|);
      WithScoresKeepsLoads(proxies, WeightedRoundRobin.After(Scores(proxies), candidates), id);
    }
  }

  /** What selection does to one proxy state, and what it answers. */
  ghost predicate SelectionEffect(z: Settings, proxies: ProxyStates, offer: Offer, requested: Option<ProxyId>,
                                  s: Selection, id: ProxyId) {
    var before := StateOf(proxies, id);
    var after := StateOf(s.proxies, id);
    && after.activeWorkers == before.activeWorkers
    && after.completedJobs == before.completedJobs
    && after.failedJobs == before.failedJobs
    && (s.proxy.Some? && s.proxy.value.id == id ==>
          && after.circuit == Probed(z.breaker, before.circuit, offer.eligibleMs)
          && s.halfOpenProbe == (Tick(before.circuit, offer.eligibleMs).state == HalfOpen))
    && (!(s.proxy.Some? && s.proxy.value.id == id) ==>
          after.circuit == before.circuit || after.circuit == Tick(before.circuit, offer.eligibleMs))
  }

  /** A proxy is selected exactly when one is usable: `beginProbe` never refuses a proxy the filters
      admitted in the same call, whatever the clock reads meanwhile. */
  lemma SelectsWhenUsable(z: Settings, proxies: ProxyStates, offer: Offer, requested: Option<ProxyId>)
    requires ValidSettings(z)
    ensures var s := SelectFrom(z, proxies, offer, requested);
            && (s.proxy.Some? <==> exists p :: p in offer.proxies && Usable(z, proxies, offer, requested, p))
            && (s.proxy.Some? ==> s.proxy.value in offer.proxies && Usable(z, proxies, offer, requested, s.proxy.value))
            && forall id: ProxyId :: SelectionEffect(z, proxies, offer, requested, s, id)
  {
    var candidates := Candidates(z, proxies, offer, requested);
    var touched := Touched(z, proxies, offer, requested, |offer.proxies|);
    var s := SelectFrom(z, proxies, offer, requested);
    if candidates == [] {
      forall p | p in offer.proxies ensures !Usable(z, proxies, offer, requested, p) {
        NoCandidateNoneUsable(z, proxies, offer, requested, p);
      }
      forall id: ProxyId ensures SelectionEffect(z, proxies, offer, requested, s, id) {
        TouchedKeepsLoads(z, proxies, offer, requested, |offer.proxies|, id);
      }
    } else {
      CandidateCapacity(z, proxies, offer, requested);
      var (chosen, proxy) := Choose(z, touched, candidates, requested);
      forall id: ProxyId
        ensures StateOf(chosen, id) == StateOf(touched, id).(smoothWeight := StateOf(chosen, id).smoothWeight)
        ensures proxy in candidates
      {
        ChooseKeepsLoads(z, touched, candidates, requested, id);
      }
      CandidateIsUsable(z, proxies, offer, requested, proxy);
      var k :| 0 <= k < |offer.proxies| && offer.proxies[k] == proxy;
      UsableIsTicked(z, proxies, offer, requested, |offer.proxies|, k);
      AdmittedStaysAdmitted(z.breaker, StateOf(proxies, proxy.id).circuit, offer.eligibleMs, offer.snapshotMs,
                            offer.probeMs);
      forall id: ProxyId ensures SelectionEffect(z, proxies, offer, requested, s, id) {
        TouchedKeepsLoads(z, proxies, offer, requested, |offer.proxies|, id);
      }
    }
  }

  lemma {:induction false} LeadingNonEmpty(sorted: seq<ProxyMetadata>, n: nat)
    requires n <= |sorted|
    ensures Leading(sorted, n) == [] <==> n == 0
  {
    if n > 0 {
      LeadingNonEmpty(sorted, n - 1);
    }
  }

  lemma NoCandidateNoneUsable(z: Settings, proxies: ProxyStates, offer: Offer, requested: Option<ProxyId>,
                              p: ProxyMetadata)
    requires Candidates(z, proxies, offer, requested) == [] && p in offer.proxies
    ensures !Usable(z, proxies, offer, requested, p)
  {
    var usable := UsableUpTo(z, proxies, offer, requested, |offer.proxies|);
    var sorted := Sort(usable);
    UsableMembers(z, proxies, offer, requested, |offer.proxies|, p);
    assert offer.proxies[..|offer.proxies|] == offer.proxies;
    SortedMembers(usable, p);
    LeadingNonEmpty(sorted, |sorted|);
  }

  // ----- Every move keeps the pool consistent -----

  datatype Move =
    | TryReserve(paused: bool, workerId: nat, idValid: bool, job: Job, offer: Offer)
    | ReleaseWorker(workerId: nat, outcome: Outcome, atMs: int)

  /** The pool after a move; a release names a worker by its live reservation. */
  function Next(z: Settings, pool: Pool, m: Move): Pool
    requires ValidSettings(z)
  {
    match m
    case TryReserve(paused, workerId, idValid, job, offer) => Reserve(z, pool, paused, workerId, idValid, job, offer).0
    case ReleaseWorker(w, outcome, atMs) =>
      if w in pool.workers then Release(z, pool, pool.workers[w], outcome, atMs) else pool
  }

  predicate FromRun(catalog: Catalog, m: Move) {
    m.TryReserve? ==> FromCatalog(catalog, m.offer.proxies)
  }

  lemma StartKeepsOrigins(z: Settings, pool: Pool, r: Reservation, proxies: ProxyStates)
    requires OriginLoads(z, pool) && r.workerId !in pool.workers
    requires PagesOf(pool, r.job.origin) < z.cfg.perOriginPageConcurrency
    ensures OriginLoads(z, Start(pool, proxies, r))
  {
    forall o: string ensures OriginLoad(z, Start(pool, proxies, r), o) {
      assert OriginLoad(z, pool, o) && OriginLoad(z, pool, r.job.origin);
      AddWorker(pool.workers, r, ByOrigin(o));
    }
  }

  lemma ReleaseKeepsOrigins(z: Settings, pool: Pool, w: nat, outcome: Outcome, atMs: int)
    requires OriginLoads(z, pool) && w in pool.workers && pool.workers[w].workerId == w
    ensures OriginLoads(z, Release(z, pool, pool.workers[w], outcome, atMs))
  {
    forall o: string ensures OriginLoad(z, Release(z, pool, pool.workers[w], outcome, atMs), o) {
      assert OriginLoad(z, pool, o) && OriginLoad(z, pool, pool.workers[w].job.origin);
      RemoveWorker(pool.workers, w, ByOrigin(o));
    }
  }

  /** A selection that reserves nobody keeps every proxy's load. */
  lemma RefusedKeepsLoad(z: Settings, catalog: Catalog, pool: Pool, offer: Offer, requested: Option<ProxyId>,
                         id: ProxyId)
    requires ValidSettings(z) && ProxyLoad(z, catalog, pool, id)
    requires SelectFrom(z, pool.proxies, offer, requested).proxy.None?
    ensures ProxyLoad(z, catalog, pool.(proxies := SelectFrom(z, pool.proxies, offer, requested).proxies), id)
  {
    var s := SelectFrom(z, pool.proxies, offer, requested);
    SelectsWhenUsable(z, pool.proxies, offer, requested);
    assert SelectionEffect(z, pool.proxies, offer, requested, s, id);
    BeginProbeAccounted(z.breaker, StateOf(pool.proxies, id).circuit, |ProbesOn(pool.workers, id)|, offer.eligibleMs);
  }

  lemma StartKeepsLoad(z: Settings, catalog: Catalog, pool: Pool, s: Selection, r: Reservation, offer: Offer,
                       requested: Option<ProxyId>, id: ProxyId)
    requires ValidSettings(z) && ProxyLoad(z, catalog, pool, id) && r.workerId !in pool.workers
    requires FromCatalog(catalog, offer.proxies) && s == SelectFrom(z, pool.proxies, offer, requested)
    requires s.proxy.Some? && r.proxy == s.proxy && r.halfOpenProbe == s.halfOpenProbe
    ensures ProxyLoad(z, catalog, Start(pool, s.proxies, r), id)
  {
    hide SelectFrom;
    SelectsWhenUsable(z, pool.proxies, offer, requested);
    assert SelectionEffect(z, pool.proxies, offer, requested, s, id);
    BeginProbeAccounted(z.breaker, StateOf(pool.proxies, id).circuit, |ProbesOn(pool.workers, id)|, offer.eligibleMs);
    AddWorker(pool.workers, r, ByProxy(id));
    AddWorker(pool.workers, r, ByProbe(id));
  }

  lemma DirectStartKeepsLoad(z: Settings, catalog: Catalog, pool: Pool, r: Reservation, id: ProxyId)
    requires ValidSettings(z) && ProxyLoad(z, catalog, pool, id) && r.workerId !in pool.workers && r.proxy.None?
    ensures ProxyLoad(z, catalog, Start(pool, pool.proxies, r), id)
  {
    AddWorker(pool.workers, r, ByProxy(id));
    AddWorker(pool.workers, r, ByProbe(id));
  }

  lemma ReserveKeepsConsistent(z: Settings, catalog: Catalog, pool: Pool, paused: bool, workerId: nat, idValid: bool,
                               job: Job, offer: Offer)
    requires Consistent(z, catalog, pool) && FromCatalog(catalog, offer.proxies)
    ensures Consistent(z, catalog, Reserve(z, pool, paused, workerId, idValid, job, offer).0)
  {
    var (after, answer) := Reserve(z, pool, paused, workerId, idValid, job, offer);
    var requested := Requested(job);
    if answer.Granted? && z.cfg.connectionMode == Direct {
      DirectStartKeepsConsistent(z, catalog, pool, answer.reservation);
    } else if answer.Granted? {
      PooledStartKeepsConsistent(z, catalog, pool, answer.reservation, offer, requested);
    } else if after != pool {
      RefusedKeepsConsistent(z, catalog, pool, offer, requested);
    }
  }

  lemma RefusedKeepsConsistent(z: Settings, catalog: Catalog, pool: Pool, offer: Offer, requested: Option<ProxyId>)
    requires Consistent(z, catalog, pool) && SelectFrom(z, pool.proxies, offer, requested).proxy.None?
    ensures Consistent(z, catalog, pool.(proxies := SelectFrom(z, pool.proxies, offer, requested).proxies))
  {
    var after := pool.(proxies := SelectFrom(z, pool.proxies, offer, requested).proxies);
    forall id: ProxyId ensures ProxyLoad(z, catalog, after, id) {
      RefusedKeepsLoad(z, catalog, pool, offer, requested, id);
    }
    forall o: string ensures OriginLoad(z, after, o) {
      assert OriginLoad(z, pool, o);
    }
  }

  lemma DirectStartKeepsConsistent(z: Settings, catalog: Catalog, pool: Pool, r: Reservation)
    requires Consistent(z, catalog, pool) && r.workerId !in pool.workers && r.proxy.None?
    requires |pool.workers| < z.cfg.globalWorkerConcurrency
    requires PagesOf(pool, r.job.origin) < z.cfg.perOriginPageConcurrency
    ensures Consistent(z, catalog, Start(pool, pool.proxies, r))
  {
    StartKeepsOrigins(z, pool, r, pool.proxies);
    forall id: ProxyId ensures ProxyLoad(z, catalog, Start(pool, pool.proxies, r), id) {
      DirectStartKeepsLoad(z, catalog, pool, r, id);
    }
  }

  lemma PooledStartKeepsConsistent(z: Settings, catalog: Catalog, pool: Pool, r: Reservation, offer: Offer,
                                   requested: Option<ProxyId>)
    requires Consistent(z, catalog, pool) && FromCatalog(catalog, offer.proxies) && r.workerId !in pool.workers
    requires |pool.workers| < z.cfg.globalWorkerConcurrency
    requires PagesOf(pool, r.job.origin) < z.cfg.perOriginPageConcurrency
    requires var s := SelectFrom(z, pool.proxies, offer, requested);
             s.proxy.Some? && r.proxy == s.proxy && r.halfOpenProbe == s.halfOpenProbe
    ensures Consistent(z, catalog, Start(pool, SelectFrom(z, pool.proxies, offer, requested).proxies, r))
  {
    var s := SelectFrom(z, pool.proxies, offer, requested);
    var after := Start(pool, s.proxies, r);
    SelectsWhenUsable(z, pool.proxies, offer, requested);
    StartKeepsOrigins(z, pool, r, s.proxies);
    forall id: ProxyId ensures ProxyLoad(z, catalog, after, id) {
      StartKeepsLoad(z, catalog, pool, s, r, offer, requested, id);
    }
  }

  lemma ReleasedState(z: Settings, pool: Pool, w: nat, outcome: Outcome, atMs: int, id: ProxyId)
    requires w in pool.workers && pool.workers[w].workerId == w
    ensures var after := Release(z, pool, pool.workers[w], outcome, atMs);
            && after.workers == pool.workers - {w}
            && StateOf(after.proxies, id)
            == if Uses(pool.workers[w], id)
               then Settled(z, StateOf(pool.proxies, id), outcome, pool.workers[w].halfOpenProbe, atMs)
               else StateOf(pool.proxies, id)
  {
  }

  lemma ReleaseKeepsLoad(z: Settings, catalog: Catalog, pool: Pool, w: nat, outcome: Outcome, atMs: int, id: ProxyId)
    requires ValidSettings(z) && w in pool.workers && pool.workers[w].workerId == w && ProxyLoad(z, catalog, pool, id)
    ensures ProxyLoad(z, catalog, Release(z, pool, pool.workers[w], outcome, atMs), id)
  {
    RemoveWorker(pool.workers, w, ByProxy(id));
    RemoveWorker(pool.workers, w, ByProbe(id));
    ReleasedState(z, pool, w, outcome, atMs, id);
    var r := pool.workers[w];
    if Uses(r, id) {
      assert w in OnProxy(pool.workers, id);
      if r.halfOpenProbe {
        assert w in ProbesOn(pool.workers, id);
      }
      SettleAccounted(z.breaker, StateOf(pool.proxies, id).circuit, |ProbesOn(pool.workers, id)|, outcome,
                      r.halfOpenProbe, atMs);
    }
  }

  lemma NextKeepsConsistent(z: Settings, catalog: Catalog, pool: Pool, m: Move)
    requires Consistent(z, catalog, pool) && FromRun(catalog, m)
    ensures Consistent(z, catalog, Next(z, pool, m))
  {
    match m
    case TryReserve(paused, workerId, idValid, job, offer) =>
      ReserveKeepsConsistent(z, catalog, pool, paused, workerId, idValid, job, offer);
    case ReleaseWorker(w, outcome, atMs) =>
      if w in pool.workers {
        ReleaseKeepsOrigins(z, pool, w, outcome, atMs);
        forall id: ProxyId ensures ProxyLoad(z, catalog, Next(z, pool, m), id) {
          ReleaseKeepsLoad(z, catalog, pool, w, outcome, atMs, id);
        }
      }
  }

  /** The pool after the first `n` moves of a run that starts with nothing reserved. */
  function After(z: Settings, moves: seq<Move>, n: nat): Pool
    requires ValidSettings(z) && n <= |moves|
  {
    if n == 0 then EMPTY else Next(z, After(z, moves, n - 1), moves[n - 1])
  }

  /** Load conservation and capacity, over every run of reservations and releases: each origin's page
      count and each proxy's `activeWorkers` are the numbers of live reservations on it, each is within
      its capacity, and the total is within the global limit. */
  lemma {:induction false} LoadsAreLiveReservations(z: Settings, catalog: Catalog, moves: seq<Move>, n: nat)
    requires ValidSettings(z) && n <= |moves| && forall i :: 0 <= i < |moves| ==> FromRun(catalog, moves[i])
    ensures Consistent(z, catalog, After(z, moves, n))
  {
    if n == 0 {
      forall id: ProxyId ensures ProxyLoad(z, catalog, EMPTY, id) {
        assert OnProxy(EMPTY.workers, id) == {} && ProbesOn(EMPTY.workers, id) == {};
      }
      forall o: string ensures OriginLoad(z, EMPTY, o) {
        assert OnOrigin(EMPTY.workers, o) == {};
      }
    } else {
      LoadsAreLiveReservations(z, catalog, moves, n - 1);
      NextKeepsConsistent(z, catalog, After(z, moves, n - 1), moves[n - 1]);
    }
  }

  /** No wedged circuit: in every reachable state, a proxy without a live half-open reservation admits
      work exactly when its circuit is not held open by the clock. */
  lemma NoWedgedCircuit(z: Settings, catalog: Catalog, moves: seq<Move>, n: nat, id: ProxyId, nowMs: int)
    requires ValidSettings(z) && n <= |moves| && forall i :: 0 <= i < |moves| ==> FromRun(catalog, moves[i])
    requires ProbesOn(After(z, moves, n).workers, id) == {}
    ensures var c := StateOf(After(z, moves, n).proxies, id).circuit;
            Schedulable(z.breaker, c, nowMs) <==> (c.state == Open ==>
                                                     c.openedUntilMs.Some? && nowMs >= c.openedUntilMs.value)
  {
    LoadsAreLiveReservations(z, catalog, moves, n);
    assert ProxyLoad(z, catalog, After(z, moves, n), id);
    NotWedged(z.breaker, StateOf(After(z, moves, n).proxies, id).circuit, nowMs);
  }

  /** The clamps and defaults of `releaseWorker` never fire for a live reservation. */
  lemma ReleaseNeverClamps(z: Settings, catalog: Catalog, pool: Pool, w: nat)
    requires Consistent(z, catalog, pool) && w in pool.workers
    ensures pool.workers[w].job.origin in pool.originPages && pool.originPages[pool.workers[w].job.origin] >= 1
    ensures pool.workers[w].proxy.Some? ==>
      var id := pool.workers[w].proxy.value.id;
      id in pool.proxies && pool.proxies[id].activeWorkers >= 1
  {
    var r := pool.workers[w];
    assert OriginLoad(z, pool, r.job.origin);
    assert w in OnOrigin(pool.workers, r.job.origin);
    if r.proxy.Some? {
      var id := r.proxy.value.id;
      assert w in OnProxy(pool.workers, id);
      assert ProxyLoad(z, catalog, pool, id);
    }
  }
}
