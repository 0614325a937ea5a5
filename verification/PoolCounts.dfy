/** What becomes of the jobs of a proxy (packages/archive-core/src/scheduler.ts:670-719). */
module PoolCounts {
  import opened Options
  import opened Proxies
  import opened PoolConfiguration
  import opened CircuitBreaker
  import opened WorkerPool
  import opened PoolInvariants
  import PoolFairness
  import PoolGrants

  /** A move ends a live reservation on the proxy, with its job completed or not. */
  predicate Ends(z: Settings, moves: seq<Move>, k: nat, id: ProxyId, completed: bool)
    requires ValidSettings(z) && k < |moves|
  {
    var m, pool := moves[k], After(z, moves, k);
    && m.ReleaseWorker? && m.workerId in pool.workers && (m.outcome == Completed) == completed
    && pool.workers[m.workerId].proxy.Some? && pool.workers[m.workerId].proxy.value.id == id
  }

  function Ended(z: Settings, moves: seq<Move>, n: nat, id: ProxyId, completed: bool): nat
    requires ValidSettings(z) && n <= |moves|
  {
    if n == 0 then 0
    else Ended(z, moves, n - 1, id, completed) + (if Ends(z, moves, n - 1, id, completed) then 1 else 0)
  }

  lemma ReservingCounts(z: Settings, moves: seq<Move>, k: nat, id: ProxyId)
    requires ValidSettings(z) && k < |moves| && moves[k].TryReserve?
    ensures var s, t := StateOf(After(z, moves, k).proxies, id), StateOf(After(z, moves, k + 1).proxies, id);
            && t.completedJobs == s.completedJobs && t.failedJobs == s.failedJobs
            && t.activeWorkers
                 == s.activeWorkers + (if PoolFairness.TakenAt(z, moves, k) == Some(id) then 1 else 0)
  {
    var m, pool := moves[k], After(z, moves, k);
    hide SelectFrom, PoolGrants.Fitting, PoolGrants.CanServe, PoolGrants.Room;
    PoolGrants.GrantedExactlyWhen(z, pool, m.paused, m.workerId, m.idValid, m.job, m.offer);
    if z.cfg.connectionMode != Direct {
      SelectsWhenUsable(z, pool.proxies, m.offer, Requested(m.job));
      assert SelectionEffect(z, pool.proxies, m.offer, Requested(m.job),
                             SelectFrom(z, pool.proxies, m.offer, Requested(m.job)), id);
    }
  }

  lemma ReleasingCounts(z: Settings, catalog: Catalog, moves: seq<Move>, k: nat, id: ProxyId)
    requires ValidSettings(z) && k < |moves| && moves[k].ReleaseWorker? && Consistent(z, catalog, After(z, moves, k))
    ensures var s, t := StateOf(After(z, moves, k).proxies, id), StateOf(After(z, moves, k + 1).proxies, id);
            var completed, failed := Ends(z, moves, k, id, true), Ends(z, moves, k, id, false);
            && t.completedJobs == s.completedJobs + (if completed then 1 else 0)
            && t.failedJobs == s.failedJobs + (if failed then 1 else 0)
            && t.activeWorkers == s.activeWorkers - (if completed || failed then 1 else 0)
  {
    var m, pool := moves[k], After(z, moves, k);
    if m.workerId in pool.workers {
      ReleaseNeverClamps(z, catalog, pool, m.workerId);
      ReleasedState(z, pool, m.workerId, m.outcome, m.atMs, id);
    }
    hide Consistent, Release;
  }

  /** Over every run, a proxy's counters are the numbers of its jobs that ended completed and otherwise, and together
      with its live reservations they are all the reservations it was ever given. */
  lemma {:induction false} JobsAreCounted(z: Settings, catalog: Catalog, moves: seq<Move>, n: nat, id: ProxyId)
    requires ValidSettings(z) && n <= |moves| && forall i :: 0 <= i < |moves| ==> FromRun(catalog, moves[i])
    ensures var state := StateOf(After(z, moves, n).proxies, id);
            && state.completedJobs == Ended(z, moves, n, id, true)
            && state.failedJobs == Ended(z, moves, n, id, false)
            && PoolFairness.TakenOn(z, moves, n, id)
                 == state.completedJobs + state.failedJobs + |OnProxy(After(z, moves, n).workers, id)|
  {
    hide Next, Ends, Consistent, OnProxy, PoolFairness.TakenAt;
    LoadIs(z, catalog, moves, n, id);
    if n > 0 {
      LoadIs(z, catalog, moves, n - 1, id);
      JobsAreCounted(z, catalog, moves, n - 1, id);
      if moves[n - 1].TryReserve? {
        ReservingCounts(z, moves, n - 1, id);
        NothingEnds(z, moves, n - 1, id);
      } else {
        ReleasingCounts(z, catalog, moves, n - 1, id);
        NotBoth(z, moves, n - 1, id);
      }
    }
  }

  lemma LoadIs(z: Settings, catalog: Catalog, moves: seq<Move>, n: nat, id: ProxyId)
    requires ValidSettings(z) && n <= |moves| && forall i :: 0 <= i < |moves| ==> FromRun(catalog, moves[i])
    ensures Consistent(z, catalog, After(z, moves, n))
    ensures StateOf(After(z, moves, n).proxies, id).activeWorkers == |OnProxy(After(z, moves, n).workers, id)|
  {
    LoadsAreLiveReservations(z, catalog, moves, n);
    assert ProxyLoad(z, catalog, After(z, moves, n), id);
  }

  lemma NothingEnds(z: Settings, moves: seq<Move>, k: nat, id: ProxyId)
    requires ValidSettings(z) && k < |moves| && moves[k].TryReserve?
    ensures !Ends(z, moves, k, id, true) && !Ends(z, moves, k, id, false)
  {
  }

  lemma NotBoth(z: Settings, moves: seq<Move>, k: nat, id: ProxyId)
    requires ValidSettings(z) && k < |moves| && moves[k].ReleaseWorker?
    ensures !(Ends(z, moves, k, id, true) && Ends(z, moves, k, id, false))
    ensures PoolFairness.TakenAt(z, moves, k).None?
  {
  }
}
