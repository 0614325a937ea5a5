/** The scheduler object: reservations and releases on its mutable maps, each method proved against the
    functions of WorkerPool (packages/archive-core/src/scheduler.ts:595-719). */
module PoolScheduler {
  import opened Options
  import opened Proxies
  import opened PoolConfiguration
  import opened CircuitBreaker
  import opened WorkerPool
  import OriginBudget
  import WRR = WeightedRoundRobin
  import PoolInvariants
  import PoolSelection
  import PoolGrants

  lemma WithOwnScores(proxies: ProxyStates)
    ensures WithScores(proxies, Scores(proxies)) == proxies
  {
  }

  /** Writing one score in place. */
  lemma WithScoresUpdate(proxies: ProxyStates, scores: WRR.Scores, id: ProxyId, value: int)
    requires proxies.Keys <= scores.Keys
    ensures var now := WithScores(proxies, scores);
            && StateOf(now, id).smoothWeight == WRR.Score(scores, id)
            && WithScores(proxies, scores[id := value]) == now[id := StateOf(now, id).(smoothWeight := value)]
  {
  }

  /** The state of the selection loop after `n` candidates. */
  ghost predicate Scanning(before: ProxyStates, candidates: seq<ProxyMetadata>, n: nat,
                           proxies: ProxyStates, totalWeight: int, leader: Option<ProxyMetadata>, score: int) {
    && n <= |candidates|
    && before.Keys <= WRR.RaiseUpTo(Scores(before), candidates, n).Keys
    && proxies == WithScores(before, WRR.RaiseUpTo(Scores(before), candidates, n))
    && totalWeight == WRR.WeightUpTo(candidates, n)
    && (leader.Some? <==> n > 0)
    && (n > 0 ==>
          && leader.value == candidates[WRR.Winner(WRR.RaiseUpTo(Scores(before), candidates, n), candidates, n)]
          && score == WRR.Score(WRR.RaiseUpTo(Scores(before), candidates, n), leader.value.id))
  }

  lemma ScanNext(before: ProxyStates, candidates: seq<ProxyMetadata>, n: nat,
                 proxies: ProxyStates, totalWeight: int, leader: Option<ProxyMetadata>, score: int)
    requires Scanning(before, candidates, n, proxies, totalWeight, leader, score)
    requires n < |candidates| && DistinctIds(candidates)
    ensures var c := candidates[n];
            var raised := StateOf(proxies, c.id).smoothWeight + c.weight;
            var leads := leader.None? || raised > score || (raised == score && c.id < leader.value.id);
            Scanning(before, candidates, n + 1, proxies[c.id := StateOf(proxies, c.id).(smoothWeight := raised)],
                     totalWeight + c.weight, if leads then Some(c) else leader, if leads then raised else score)
  {
    var c := candidates[n];
    var scores := WRR.RaiseUpTo(Scores(before), candidates, n);
    WithScoresUpdate(before, scores, c.id, WRR.Score(scores, c.id) + c.weight);
    if n > 0 {
      WRR.NextLeader(scores, candidates, n, WRR.Score(scores, c.id) + c.weight);
    }
  }

  lemma ScanEnd(before: ProxyStates, candidates: seq<ProxyMetadata>,
                proxies: ProxyStates, totalWeight: int, leader: Option<ProxyMetadata>, score: int)
    requires Scanning(before, candidates, |candidates|, proxies, totalWeight, leader, score) && candidates != []
    ensures leader == Some(WRR.Selected(Scores(before), candidates))
    ensures var state := StateOf(proxies, leader.value.id);
            var after := WithScores(before, WRR.After(Scores(before), candidates));
            proxies[leader.value.id := state.(smoothWeight := state.smoothWeight - totalWeight)] == after
  {
    WithScoresUpdate(before, WRR.Raise(Scores(before), candidates), leader.value.id, score - totalWeight);
  }

  /** Starting a reservation takes the proxies it is given, not those of the pool. */
  lemma StartFromProxies(pool: Pool, proxies: ProxyStates, r: Reservation)
    ensures Start(pool.(proxies := proxies), proxies, r) == Start(pool, proxies, r)
  {
  }

  class WorkerPoolScheduler {
    const z: Settings
    const networkBudget: OriginBudget.InMemoryOriginNetworkBudget
    var workers: map<nat, Reservation>
    var originPages: map<string, nat>
    var proxies: ProxyStates

    constructor (z: Settings)
      requires ValidSettings(z)
      ensures this.z == z && Value() == EMPTY
      ensures fresh(networkBudget) && networkBudget.cfg == z.cfg && networkBudget.Value() == OriginBudget.EMPTY
    {
      this.z := z;
      networkBudget := new OriginBudget.InMemoryOriginNetworkBudget(z.cfg);
      workers, originPages, proxies := map[], map[], map[];
    }

    function Value(): Pool
      reads this
    {
      Pool(workers, originPages, proxies)
    }

    method ProxyStateOf(id: ProxyId) returns (state: ProxyState)
      modifies this`proxies
      ensures state == StateOf(old(proxies), id)
      ensures proxies == old(proxies)[id := state]
    {
      if id in proxies {
        state := proxies[id];
        assert proxies == proxies[id := state];
      } else {
        state := NEW_PROXY;
        proxies := proxies[id := state];
      }
    }

    method EligibleProxies(offer: Offer, requested: Option<ProxyId>) returns (candidates: seq<ProxyMetadata>)
      modifies this`proxies
      ensures candidates == Candidates(z, old(proxies), offer, requested)
      ensures proxies == Touched(z, old(proxies), offer, requested, |offer.proxies|)
    {
      var usable: seq<ProxyMetadata> := [];
      var i := 0;
      while i < |offer.proxies|
        invariant i <= |offer.proxies|
        invariant proxies == Touched(z, old(proxies), offer, requested, i)
        invariant usable == UsableUpTo(z, old(proxies), offer, requested, i)
      {
        var proxy := offer.proxies[i];
        if Considered(offer, requested, proxy) {
          PoolInvariants.TouchedKeepsLoads(z, old(proxies), offer, requested, i, proxy.id);
          var state := ProxyStateOf(proxy.id);
          if state.activeWorkers < Capacity(z, proxy) {
            var can := Schedulable(z.breaker, state.circuit, offer.eligibleMs);
            proxies := proxies[proxy.id := state.(circuit := Tick(state.circuit, offer.eligibleMs))];
            if can {
              usable := usable + [proxy];
            }
          }
        }
        i := i + 1;
      }
      var sorted := Sort(usable);
      candidates := [];
      i := 0;
      while i < |sorted|
        invariant i <= |sorted|
        invariant candidates == Leading(sorted, i)
      {
        if sorted[i].priority == sorted[0].priority {
          candidates := candidates + [sorted[i]];
        }
        i := i + 1;
      }
    }

    method SelectWeighted(candidates: seq<ProxyMetadata>) returns (selected: ProxyMetadata)
      requires candidates != [] && DistinctIds(candidates)
      modifies this`proxies
      ensures selected == WRR.Selected(Scores(old(proxies)), candidates)
      ensures proxies == WithScores(old(proxies), WRR.After(Scores(old(proxies)), candidates))
    {
      ghost var before := proxies;
      var totalWeight := 0;
      var leader: Option<ProxyMetadata> := None;
      var selectedScore := 0;
      WithOwnScores(before);
      var i := 0;
      while i < |candidates|
        invariant Scanning(before, candidates, i, proxies, totalWeight, leader, selectedScore)
      {
        ScanNext(before, candidates, i, proxies, totalWeight, leader, selectedScore);
        var candidate := candidates[i];
        var score := AddScore(candidate.id, candidate.weight);
        totalWeight := totalWeight + candidate.weight;
        if leader.None? || score > selectedScore || (score == selectedScore && candidate.id < leader.value.id) {
          leader, selectedScore := Some(candidate), score;
        }
        i := i + 1;
      }
      ScanEnd(before, candidates, proxies, totalWeight, leader, selectedScore);
      selected := leader.value;
      var score := AddScore(selected.id, -totalWeight);
    }

    method AddScore(id: ProxyId, amount: int) returns (score: int)
      modifies this`proxies
      ensures score == StateOf(old(proxies), id).smoothWeight + amount
      ensures proxies == old(proxies)[id := StateOf(old(proxies), id).(smoothWeight := score)]
    {
      var state := ProxyStateOf(id);
      score := state.smoothWeight + amount;
      proxies := proxies[id := state.(smoothWeight := score)];
    }

    method SelectLeastLoaded(candidates: seq<ProxyMetadata>) returns (selected: ProxyMetadata)
      requires candidates != [] && forall i :: 0 <= i < |candidates| ==> Capacity(z, candidates[i]) >= 1
      ensures selected == candidates[Lightest(z, proxies, candidates, |candidates|)]
    {
      selected := candidates[0];
      var i := 1;
      while i < |candidates|
        invariant 1 <= i <= |candidates|
        invariant selected == candidates[Lightest(z, proxies, candidates, i)]
      {
        if LighterThan(z, proxies, candidates[i], selected) {
          selected := candidates[i];
        }
        i := i + 1;
      }
    }

    method SelectProxy(job: Job, offer: Offer) returns (selection: Selection)
      requires ValidSettings(z) && z.cfg.connectionMode != Direct && DistinctIds(offer.proxies)
      modifies this`proxies
      ensures selection == SelectFrom(z, old(proxies), offer, Requested(job))
      ensures proxies == selection.proxies
    {
      var requested := Requested(job);
      CandidateCapacity(z, proxies, offer, requested);
      PoolSelection.CandidatesDistinct(z, proxies, offer, requested);
      var candidates := EligibleProxies(offer, requested);
      if candidates == [] {
        return Selection(proxies, None, false);
      }
      var selected;
      if requested.Some? {
        selected := candidates[0];
      } else if z.cfg.selectionPolicy == LeastLoaded {
        selected := SelectLeastLoaded(candidates);
      } else {
        selected := SelectWeighted(candidates);
      }
      selection := BeginProbe(selected, offer);
    }

    method BeginProbe(selected: ProxyMetadata, offer: Offer) returns (selection: Selection)
      modifies this`proxies
      ensures selection == Probe(z, old(proxies), selected, offer) && proxies == selection.proxies
    {
      var state := ProxyStateOf(selected.id);
      var circuit := Tick(state.circuit, offer.snapshotMs);
      var halfOpenProbe := circuit.state == HalfOpen;
      var began := Schedulable(z.breaker, circuit, offer.probeMs);
      proxies := proxies[selected.id := state.(circuit := Probed(z.breaker, circuit, offer.probeMs))];
      if !began {
        return Selection(proxies, None, false);
      }
      return Selection(proxies, Some(selected), halfOpenProbe);
    }

    method TryReserveWorker(workerId: nat, idValid: bool, job: Job, offer: Offer,
                            pausedMs: int) returns (answer: Answer)
      requires ValidSettings(z) && networkBudget.cfg == z.cfg && DistinctIds(offer.proxies)
      modifies this, networkBudget
      ensures var paused := OriginBudget.Paused(z.cfg, old(networkBudget.Value()), job.origin, pausedMs);
              (Value(), answer) == Reserve(z, old(Value()), paused, workerId, idValid, job, offer)
      ensures answer.Granted? ==>
                && PoolGrants.Fitting(z, old(Value()), job, offer, workerId, answer.reservation)
                && PoolGrants.OneMore(old(Value()), Value(), answer.reservation)
      ensures networkBudget.Value() == old(networkBudget.Value())
           || networkBudget.Value() == OriginBudget.Step(z.cfg, old(networkBudget.Value()),
                                                         OriginBudget.AskPaused(job.origin), pausedMs)
    {
      hide SelectFrom, Start, OriginBudget.Paused, OriginBudget.Step, ValidSettings, Conflicting;
      hide PoolGrants.Fitting, PoolGrants.OneMore, PoolGrants.CanServe, PoolGrants.Room;
      PoolGrants.GrantedExactlyWhen(z, Value(), OriginBudget.Paused(z.cfg, networkBudget.Value(), job.origin, pausedMs),
                                    workerId, idValid, job, offer);
      if !idValid {
        return Throws(WorkerIdInvalid);
      }
      if workerId in workers {
        return Throws(WorkerIdActive);
      }
      if |workers| >= z.cfg.globalWorkerConcurrency {
        return NoCapacity;
      }
      if (if job.origin in originPages then originPages[job.origin] else 0) >= z.cfg.perOriginPageConcurrency {
        return NoCapacity;
      }
      var paused := networkBudget.IsPaused(job.origin, pausedMs);
      if paused {
        return NoCapacity;
      }
      if Conflicting(job) {
        return Throws(AffinityConflict);
      }
      var selection := Selection(proxies, None, false);
      if z.cfg.connectionMode == Direct {
        if Requested(job).Some? {
          return Throws(AffinityConflict);
        }
      } else {
        selection := SelectProxy(job, offer);
        if selection.proxy.None? {
          return NoCapacity;
        }
      }
      var reservation := Reservation(workerId, job, selection.proxy, offer.startedMs, selection.halfOpenProbe);
      StartFromProxies(old(Value()), proxies, reservation);
      Register(reservation);
      return Granted(reservation);
    }

    method Register(reservation: Reservation)
      modifies this
      ensures Value() == Start(old(Value()), old(proxies), reservation)
    {
      var origin := reservation.job.origin;
      workers := workers[reservation.workerId := reservation];
      originPages := originPages[origin := (if origin in originPages then originPages[origin] else 0) + 1];
      if reservation.proxy.Some? {
        var state := ProxyStateOf(reservation.proxy.value.id);
        proxies := proxies[reservation.proxy.value.id := state.(activeWorkers := state.activeWorkers + 1)];
      }
    }

    method ReleaseWorker(reservation: Reservation, outcome: Outcome, atMs: int)
      modifies this`workers, this`originPages, this`proxies
      ensures Value() == Release(z, old(Value()), reservation, outcome, atMs)
    {
      if reservation.workerId !in workers {
        return;
      }
      if reservation.proxy.Some? {
        SettleProxy(reservation.proxy.value.id, reservation.halfOpenProbe, outcome, atMs);
      }
      var pages: int := (if reservation.job.origin in originPages then originPages[reservation.job.origin] as int
                         else 1) - 1;
      if pages <= 0 {
        originPages := originPages - {reservation.job.origin};
      } else {
        originPages := originPages[reservation.job.origin := pages];
      }
      workers := workers - {reservation.workerId};
    }

    method SettleProxy(id: ProxyId, halfOpenProbe: bool, outcome: Outcome, atMs: int)
      modifies this`proxies
      ensures proxies == old(proxies)[id := Settled(z, StateOf(old(proxies), id), outcome, halfOpenProbe, atMs)]
    {
      var state := ProxyStateOf(id);
      state := state.(activeWorkers := Decrement(state.activeWorkers));
      if outcome == Completed {
        state := state.(completedJobs := state.completedJobs + 1, circuit := Succeeded(state.circuit));
      } else {
        state := state.(failedJobs := state.failedJobs + 1);
        if outcome == ProxyFailed {
          state := state.(circuit := Failed(z.breaker, state.circuit, atMs));
        } else if halfOpenProbe {
          state := state.(circuit := ProbeCancelled(state.circuit));
        }
      }
      proxies := proxies[id := state];
    }
  }
}
